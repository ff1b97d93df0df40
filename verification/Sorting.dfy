/** Python's `list.sort`, a stable sort by a total preorder, and its order of strings. */
module Sorting {
  ghost predicate TotalPreorder<T(!new)>(leq: (T, T) -> bool) {
    && (forall a, b :: leq(a, b) || leq(b, a))
    && (forall a, b, c :: leq(a, b) && leq(b, c) ==> leq(a, c))
  }

  /** Puts an element behind all that are not greater. */
  function Insert<T>(sorted: seq<T>, x: T, leq: (T, T) -> bool): seq<T> {
    if sorted == [] then [x]
    else
      var last := sorted[|sorted| - 1];
      if leq(last, x) then sorted + [x] else Insert(sorted[..|sorted| - 1], x, leq) + [last]
  }

  function Sort<T>(xs: seq<T>, leq: (T, T) -> bool): seq<T> {
    if xs == [] then [] else Insert(Sort(xs[..|xs| - 1], leq), xs[|xs| - 1], leq)
  }

  ghost predicate InOrder<T>(xs: seq<T>, leq: (T, T) -> bool) {
    forall i, j :: 0 <= i < j < |xs| ==> leq(xs[i], xs[j])
  }

  lemma {:induction false} InsertKeeps<T>(sorted: seq<T>, x: T, leq: (T, T) -> bool)
    ensures multiset(Insert(sorted, x, leq)) == multiset(sorted) + multiset{x}
  {
    if sorted != [] {
      var init, last := sorted[..|sorted| - 1], sorted[|sorted| - 1];
      assert sorted == init + [last];
      InsertKeeps(init, x, leq);
    }
  }

  lemma {:induction false} SortKeeps<T>(xs: seq<T>, leq: (T, T) -> bool)
    ensures multiset(Sort(xs, leq)) == multiset(xs)
  {
    if xs != [] {
      var init, last := xs[..|xs| - 1], xs[|xs| - 1];
      SortKeeps(init, leq);
      InsertKeeps(Sort(init, leq), last, leq);
      assert xs == init + [last];
    }
  }

  lemma SortHasSame<T>(xs: seq<T>, leq: (T, T) -> bool)
    ensures |Sort(xs, leq)| == |xs|
    ensures forall x :: x in Sort(xs, leq) <==> x in xs
  {
    SortKeeps(xs, leq);
    forall x
      ensures x in Sort(xs, leq) <==> x in xs
    {
      assert x in Sort(xs, leq) <==> x in multiset(Sort(xs, leq));
      assert x in xs <==> x in multiset(xs);
    }
    assert |Sort(xs, leq)| == |multiset(Sort(xs, leq))| == |multiset(xs)|;
  }

  lemma InOrderAppend<T>(xs: seq<T>, top: T, leq: (T, T) -> bool)
    requires InOrder(xs, leq) && forall x :: x in xs ==> leq(x, top)
    ensures InOrder(xs + [top], leq)
  {
  }

  lemma {:induction false} InsertSorts<T(!new)>(sorted: seq<T>, x: T, leq: (T, T) -> bool)
    requires TotalPreorder(leq) && InOrder(sorted, leq)
    ensures InOrder(Insert(sorted, x, leq), leq)
  {
    if sorted != [] {
      var init, last := sorted[..|sorted| - 1], sorted[|sorted| - 1];
      if leq(last, x) {
        forall y | y in sorted
          ensures leq(y, x)
        {
          var i :| 0 <= i < |sorted| && sorted[i] == y;
          assert i < |init| ==> leq(y, last);
        }
        InOrderAppend(sorted, x, leq);
      } else {
        InsertSorts(init, x, leq);
        InsertKeeps(init, x, leq);
        var front := Insert(init, x, leq);
        forall y | y in front
          ensures leq(y, last)
        {
          assert y in multiset(front);
          if y != x {
            assert y in multiset(init);
          }
        }
        InOrderAppend(front, last, leq);
      }
    }
  }

  lemma {:induction false} SortSorts<T(!new)>(xs: seq<T>, leq: (T, T) -> bool)
    requires TotalPreorder(leq)
    ensures InOrder(Sort(xs, leq), leq)
  {
    if xs != [] {
      SortSorts(xs[..|xs| - 1], leq);
      InsertSorts(Sort(xs[..|xs| - 1], leq), xs[|xs| - 1], leq);
    }
  }

  // ----- The order of strings ----------------------------------------------------

  /** Python's `<=` on strings. */
  predicate StrLeq(a: string, b: string) {
    a == "" || (b != "" && (a[0] < b[0] || (a[0] == b[0] && StrLeq(a[1..], b[1..]))))
  }

  lemma {:induction false} StrTotal(a: string, b: string)
    ensures StrLeq(a, b) || StrLeq(b, a)
    ensures StrLeq(a, b) && StrLeq(b, a) ==> a == b
  {
    if a != "" && b != "" && a[0] == b[0] {
      StrTotal(a[1..], b[1..]);
      assert a == [a[0]] + a[1..] && b == [b[0]] + b[1..];
    }
  }

  lemma {:induction false} StrTransitive(a: string, b: string, c: string)
    requires StrLeq(a, b) && StrLeq(b, c)
    ensures StrLeq(a, c)
  {
    if a != "" && a[0] == b[0] && b[0] == c[0] {
      StrTransitive(a[1..], b[1..], c[1..]);
    }
  }

  /** The order of a dictionary: a is a prefix of b, or smaller at the first place
      where they differ. */
  ghost predicate InDictionaryOrder(a: string, b: string) {
    a <= b || exists i: nat :: DifferAt(a, b, i) && a[i] < b[i]
  }

  ghost predicate DifferAt(a: string, b: string, i: nat) {
    i < |a| && i < |b| && a[i] != b[i] && forall k :: 0 <= k < i ==> a[k] == b[k]
  }

  lemma {:induction false} StrLeqIsDictionaryOrder(a: string, b: string)
    ensures StrLeq(a, b) <==> InDictionaryOrder(a, b)
  {
    if a != "" && b != "" {
      if a[0] == b[0] {
        StrLeqIsDictionaryOrder(a[1..], b[1..]);
        SameFirst(a, b);
      } else {
        assert DifferAt(a, b, 0);
      }
    }
  }

  lemma SameFirst(a: string, b: string)
    requires a != "" && b != "" && a[0] == b[0]
    ensures InDictionaryOrder(a, b) <==> InDictionaryOrder(a[1..], b[1..])
  {
    assert a == [a[0]] + a[1..] && b == [b[0]] + b[1..];
    if i: nat :| DifferAt(a, b, i) && a[i] < b[i] {
      assert DifferAt(a[1..], b[1..], i - 1);
    }
    if i: nat :| DifferAt(a[1..], b[1..], i) && a[1..][i] < b[1..][i] {
      assert DifferAt(a, b, i + 1);
    }
  }

  // ----- Stability -----------------------------------------------------------------

  /** Those elements that are neither before nor after c, in order. */
  function Alike<T>(xs: seq<T>, c: T, leq: (T, T) -> bool): seq<T> {
    if xs == [] then []
    else
      var last := xs[|xs| - 1];
      Alike(xs[..|xs| - 1], c, leq) + if leq(c, last) && leq(last, c) then [last] else []
  }

  lemma AlikeAppend<T>(xs: seq<T>, x: T, c: T, leq: (T, T) -> bool)
    ensures Alike(xs + [x], c, leq) == Alike(xs, c, leq) + if leq(c, x) && leq(x, c) then [x] else []
  {
    assert (xs + [x])[..|xs|] == xs;
  }

  lemma {:induction false} InsertIsStable<T(!new)>(sorted: seq<T>, x: T, c: T, leq: (T, T) -> bool)
    requires TotalPreorder(leq)
    ensures Alike(Insert(sorted, x, leq), c, leq)
         == Alike(sorted, c, leq) + if leq(c, x) && leq(x, c) then [x] else []
  {
    if sorted == [] {
      AlikeAppend([], x, c, leq);
    } else {
      var init, last := sorted[..|sorted| - 1], sorted[|sorted| - 1];
      if leq(last, x) {
        AlikeAppend(sorted, x, c, leq);
      } else {
        InsertIsStable(init, x, c, leq);
        AlikeAppend(Insert(init, x, leq), last, c, leq);
      }
    }
  }

  /** Sorting keeps elements that are alike in the order in which they came. */
  lemma {:induction false} SortIsStable<T(!new)>(xs: seq<T>, c: T, leq: (T, T) -> bool)
    requires TotalPreorder(leq)
    ensures Alike(Sort(xs, leq), c, leq) == Alike(xs, c, leq)
  {
    if xs != [] {
      SortIsStable(xs[..|xs| - 1], c, leq);
      InsertIsStable(Sort(xs[..|xs| - 1], leq), xs[|xs| - 1], c, leq);
    }
  }
}
