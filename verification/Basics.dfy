/** Small vocabulary shared by the models: optional values, results, and the
    arithmetic of "add up every value of a dict". */
module Basics {
  datatype Option<+T> = None | Some(value: T)

  datatype Result<+T, +E> = Success(value: T) | Failure(error: E)

  /** Python's `a or b` on strings. */
  function OrElse(a: string, b: string): string {
    if a != "" then a else b
  }

  // ----- Lists and sums by index ------------------------------------------------

  /** What is made of those of the places 0, ..., n - 1 that are kept, in order. */
  function Kept<T>(n: nat, keep: nat -> bool, make: nat -> T): seq<T> {
    if n == 0 then [] else Kept(n - 1, keep, make) + if keep(n - 1) then [make(n - 1)] else []
  }

  /** The places that are kept, in order. */
  function KeptPlaces(n: nat, keep: nat -> bool): seq<nat> {
    Kept<nat>(n, keep, (i: nat) => i)
  }

  /** The places below n that are kept. */
  function Below(n: nat, keep: nat -> bool): set<nat> {
    set i: nat | i < n && keep(i)
  }

  lemma BelowStep(n: nat, keep: nat -> bool)
    ensures |Below(n + 1, keep)| == |Below(n, keep)| + if keep(n) then 1 else 0
    ensures Below(0, keep) == {}
  {
    assert Below(n + 1, keep) == Below(n, keep) + if keep(n) then {n} else {};
  }

  /** parts(0) + ... + parts(n - 1). */
  function Flat<T>(parts: nat -> seq<T>, n: nat): seq<T> {
    if n == 0 then [] else Flat(parts, n - 1) + parts(n - 1)
  }

  function SumOver(f: nat -> int, n: nat): int {
    if n == 0 then 0 else SumOver(f, n - 1) + f(n - 1)
  }

  function SumReals(f: nat -> real, n: nat): real {
    if n == 0 then 0.0 else SumReals(f, n - 1) + f(n - 1)
  }

  /** The sum of all values of a map, in whatever order the keys come. */
  ghost function Total<K>(m: map<K, int>): int
    decreases |m|
  {
    if m.Keys == {} then 0
    else
      var k :| k in m;
      m[k] + Total(m - {k})
  }

  /** The order in which the keys are taken does not matter. */
  lemma {:induction false} TotalRemove<K>(m: map<K, int>, k: K)
    requires k in m
    ensures Total(m) == m[k] + Total(m - {k})
    decreases |m|
  {
    var first :| first in m && Total(m) == m[first] + Total(m - {first});
    if first != k {
      TotalRemove(m - {first}, k);
      assert m - {first} - {k} == m - {k} - {first};
      TotalRemove(m - {k}, first);
    }
  }

  lemma TotalInsert<K>(m: map<K, int>, k: K, v: int)
    requires k !in m
    ensures Total(m[k := v]) == Total(m) + v
  {
    TotalRemove(m[k := v], k);
    assert m[k := v] - {k} == m;
  }

  lemma TotalUpdate<K>(m: map<K, int>, k: K, v: int)
    requires k in m
    ensures Total(m[k := v]) == Total(m) - m[k] + v
  {
    TotalRemove(m, k);
    TotalRemove(m[k := v], k);
    assert m[k := v] - {k} == m - {k};
  }

  // ----- Decimal numerals -----------------------------------------------------

  function Digit(d: nat): char
    requires d < 10
  {
    ('0' as int + d) as char
  }

  /** Python's `str(n)` for n >= 0. */
  function Decimal(n: nat): (s: string)
    ensures s != ""
  {
    if n < 10 then [Digit(n)] else Decimal(n / 10) + [Digit(n % 10)]
  }

  function Numeral(s: string): int {
    if s == "" then 0 else 10 * Numeral(s[..|s| - 1]) + (s[|s| - 1] as int - '0' as int)
  }

  lemma {:induction false} DecimalRoundTrip(n: nat)
    ensures Numeral(Decimal(n)) == n
  {
    var s := Decimal(n);
    if n < 10 {
      assert s[..|s| - 1] == "";
    } else {
      assert s[..|s| - 1] == Decimal(n / 10);
      DecimalRoundTrip(n / 10);
    }
  }
}
