/** UID selection and cursor of `scripts/email_live_to_turns.py`: which messages
    each poll of a mailbox attempts, and what a run of polls never does twice. */
module EmailCursor {
  import opened Basics
  import opened Sorting

  /** What the server answers to one FETCH. */
  datatype Reply<Row> = Refused | NoBody | Mail(row: Row)

  datatype Fetched<Row> = Fetched(rows: seq<Row>, cursor: int, scanned: nat)

  datatype FetchError = BadLimit

  /** One poll as the mailbox sees it: the UIDs the SEARCH lists, and the cap. */
  datatype Poll = Poll(listing: seq<int>, limit: int)

  function AtMost(a: int, b: int): bool {
    a <= b
  }

  function Above(listing: seq<int>, last: int): seq<int> {
    if listing == [] then []
    else
      var uid := listing[|listing| - 1];
      Above(listing[..|listing| - 1], last) + if uid > last then [uid] else []
  }

  /** The UIDs one poll attempts, in the order it attempts them. */
  function Selected(listing: seq<int>, last: int, limit: int): seq<int>
    requires limit >= 1
  {
    var uids := Sort(Above(listing, last), AtMost);
    if |uids| > limit then uids[|uids| - limit..] else uids
  }

  function Largest(uids: seq<int>, last: int): int {
    if uids == [] then last
    else
      var rest := Largest(uids[..|uids| - 1], last);
      if |uids| == 1 || uids[|uids| - 1] > rest then uids[|uids| - 1] else rest
  }

  function Mails<Row>(uids: seq<int>, fetch: int -> Reply<Row>): seq<Row> {
    if uids == [] then []
    else
      var reply := fetch(uids[|uids| - 1]);
      Mails(uids[..|uids| - 1], fetch) + if reply.Mail? then [reply.row] else []
  }

  function Answered<Row>(uids: seq<int>, fetch: int -> Reply<Row>): nat {
    if uids == [] then 0
    else Answered(uids[..|uids| - 1], fetch) + if fetch(uids[|uids| - 1]).Refused? then 0 else 1
  }

  predicate PairLeq(a: (string, string), b: (string, string)) {
    if a.0 != b.0 then StrLeq(a.0, b.0) else StrLeq(a.1, b.1)
  }

  /** The order of the final sort: latest time first, then greatest id.  `key`
      gives the time and the id of a row. */
  function NewestFirst<Row>(key: Row -> (string, string)): (Row, Row) -> bool {
    (a: Row, b: Row) => PairLeq(key(b), key(a))
  }

  /** The cursor passes every selected UID, a refused one included. */
  method FetchRows<Row>(listing: seq<int>, last: int, limit: int, fetch: int -> Reply<Row>,
                        key: Row -> (string, string))
    returns (result: Result<Fetched<Row>, FetchError>)
    ensures limit < 1 <==> result == Failure(BadLimit)
    ensures limit >= 1 ==>
              var uids := Selected(listing, last, limit);
              && result.Success? && result.value.rows == Sort(Mails(uids, fetch), NewestFirst(key))
              && result.value.cursor == Largest(uids, last) && result.value.scanned == Answered(uids, fetch)
  {
    if limit < 1 {
      return Failure(BadLimit);
    }
    var uids := Sort(Above(listing, last), AtMost);
    if |uids| > limit {
      uids := uids[|uids| - limit..];
    }
    var rows, scanned := [], 0;
    for i := 0 to |uids|
      invariant rows == Mails(uids[..i], fetch) && scanned == Answered(uids[..i], fetch)
    {
      assert uids[..i + 1][..i] == uids[..i];
      var reply := fetch(uids[i]);
      if reply.Refused? {
        continue;
      }
      scanned := scanned + 1;
      if reply.NoBody? {
        continue;
      }
      rows := rows + [reply.row];
    }
    assert uids[..|uids|] == uids;
    rows := Sort(rows, NewestFirst(key));
    result := Success(Fetched(rows, Largest(uids, last), scanned));
  }

  lemma NewestFirstIsPreorder<Row(!new)>(key: Row -> (string, string))
    ensures TotalPreorder(NewestFirst(key))
  {
    forall a: Row, b: Row
      ensures NewestFirst(key)(a, b) || NewestFirst(key)(b, a)
    {
      StrTotal(key(a).0, key(b).0);
      StrTotal(key(a).1, key(b).1);
    }
    forall a: Row, b: Row, c: Row | NewestFirst(key)(a, b) && NewestFirst(key)(b, c)
      ensures NewestFirst(key)(a, c)
    {
      PairTransitive(key(c), key(b), key(a));
    }
  }

  /** The row of key `a` may come before the row of key `b`: its time is later, or
      it is the same and its id is not smaller. */
  ghost predicate NotOlder(a: (string, string), b: (string, string)) {
    InDictionaryOrder(b.0, a.0) && (a.0 == b.0 ==> InDictionaryOrder(b.1, a.1))
  }

  /** The rows handed out are those of the mails, newest first; rows of one time
      and id come in the order in which they were fetched. */
  lemma RowsAreNewestFirst<Row(!new)>(mails: seq<Row>, key: Row -> (string, string), c: Row)
    ensures var rows := Sort(mails, NewestFirst(key));
            && multiset(rows) == multiset(mails)
            && (forall i, j :: 0 <= i < j < |rows| ==> NotOlder(key(rows[i]), key(rows[j])))
            && Alike(rows, c, NewestFirst(key)) == Alike(mails, c, NewestFirst(key))
  {
    NewestFirstIsPreorder(key);
    SortSorts(mails, NewestFirst(key));
    SortKeeps(mails, NewestFirst(key));
    SortIsStable(mails, c, NewestFirst(key));
    var rows := Sort(mails, NewestFirst(key));
    forall i, j | 0 <= i < j < |rows|
      ensures NotOlder(key(rows[i]), key(rows[j]))
    {
      assert NewestFirst(key)(rows[i], rows[j]);
      StrLeqIsDictionaryOrder(key(rows[j]).0, key(rows[i]).0);
      StrLeqIsDictionaryOrder(key(rows[j]).1, key(rows[i]).1);
    }
  }

  /** Places of the UIDs whose reply holds a mail, and of those that got a reply. */
  function WithMail<Row>(uids: seq<int>, fetch: int -> Reply<Row>): nat -> bool {
    (i: nat) => i < |uids| && fetch(uids[i]).Mail?
  }

  function NotRefused<Row>(uids: seq<int>, fetch: int -> Reply<Row>): nat -> bool {
    (i: nat) => i < |uids| && !fetch(uids[i]).Refused?
  }

  /** One row for each UID with a mail, in the order of the UIDs; the count is that
      of the UIDs that were not refused. */
  lemma {:induction false} MailsAreTold<Row>(uids: seq<int>, n: nat, fetch: int -> Reply<Row>)
    requires n <= |uids|
    ensures Answered(uids[..n], fetch) == |KeptPlaces(n, NotRefused(uids, fetch))|
    ensures var at, rows := KeptPlaces(n, WithMail(uids, fetch)), Mails(uids[..n], fetch);
            |rows| == |at| && forall k :: 0 <= k < |at| ==> at[k] < n && fetch(uids[at[k]]) == Mail(rows[k])
  {
    if n > 0 {
      MailsAreTold(uids, n - 1, fetch);
      assert uids[..n][..n - 1] == uids[..n - 1];
    }
  }

  lemma PairTransitive(a: (string, string), b: (string, string), c: (string, string))
    requires PairLeq(a, b) && PairLeq(b, c)
    ensures PairLeq(a, c)
  {
    if a.0 == b.0 == c.0 {
      StrTransitive(a.1, b.1, c.1);
    } else if a.0 != b.0 && b.0 != c.0 {
      StrTransitive(a.0, b.0, c.0);
      StrTotal(a.0, b.0);
    }
  }

  // ----- One poll ---------------------------------------------------------------

  lemma {:induction false} AboveCounts(listing: seq<int>, last: int, uid: int)
    ensures multiset(Above(listing, last))[uid] == if uid > last then multiset(listing)[uid] else 0
  {
    if listing != [] {
      var init := listing[..|listing| - 1];
      var top := listing[|listing| - 1];
      AboveCounts(init, last, uid);
      assert multiset(listing)[uid] == multiset(init)[uid] + multiset([top])[uid] by {
        assert listing == init + [top];
      }
      var kept := if top > last then [top] else [];
      assert multiset(Above(init, last) + kept)[uid] == multiset(Above(init, last))[uid] + multiset(kept)[uid];
      assert Above(listing, last) == Above(init, last) + kept;
    }
  }

  lemma {:induction false} LargestIsMaximum(uids: seq<int>, last: int)
    requires uids != []
    ensures Largest(uids, last) in uids && forall uid :: uid in uids ==> uid <= Largest(uids, last)
  {
    var init := uids[..|uids| - 1];
    assert uids == init + [uids[|uids| - 1]];
    if init != [] {
      LargestIsMaximum(init, last);
    }
  }

  lemma AtMostOrders()
    ensures TotalPreorder(AtMost)
  {
  }

  lemma InOrderAcross(front: seq<int>, back: seq<int>, a: int, b: int)
    requires InOrder(front + back, AtMost) && a in front && b in back
    ensures a <= b
  {
    var i :| 0 <= i < |front| && front[i] == a;
    var j :| 0 <= j < |back| && back[j] == b;
    assert AtMost((front + back)[i], (front + back)[|front| + j]);
  }

  /** The new UIDs in order are what the poll skips, then what it takes. */
  lemma SkippedThenTaken(listing: seq<int>, last: int, limit: int) returns (rest: seq<int>)
    requires limit >= 1
    ensures InOrder(rest + Selected(listing, last, limit), AtMost)
    ensures multiset(Above(listing, last)) == multiset(rest) + multiset(Selected(listing, last, limit))
    ensures |Selected(listing, last, limit)| == limit || rest == []
    ensures |Selected(listing, last, limit)| <= limit
  {
    var all := Above(listing, last);
    var uids, taken := Sort(all, AtMost), Selected(listing, last, limit);
    rest := uids[..|uids| - |taken|];
    assert uids == rest + taken;
    assert InOrder(uids, AtMost) by {
      AtMostOrders();
      SortSorts(all, AtMost);
    }
    assert multiset(all) == multiset(uids) by {
      SortKeeps(all, AtMost);
    }
    assert multiset(rest + taken) == multiset(rest) + multiset(taken);
  }

  /** A poll attempts exactly the `limit` largest listed UIDs above the cursor, in
      ascending order: it takes no UID oftener than listed, and whatever it
      skips is no larger than anything it takes. */
  lemma SelectedAreTheLargest(listing: seq<int>, last: int, limit: int)
    requires limit >= 1
    ensures InOrder(Selected(listing, last, limit), AtMost)
    ensures |Selected(listing, last, limit)| == if |Above(listing, last)| > limit then limit else |Above(listing, last)|
    ensures multiset(Selected(listing, last, limit)) <= multiset(Above(listing, last))
    ensures forall skipped, uid ::
              uid in Selected(listing, last, limit)
              && skipped in multiset(Above(listing, last)) - multiset(Selected(listing, last, limit))
              ==> skipped <= uid
  {
    var taken, all := Selected(listing, last, limit), Above(listing, last);
    var rest := SkippedThenTaken(listing, last, limit);
    assert InOrder(taken, AtMost) by {
      assert taken == (rest + taken)[|rest|..];
    }
    assert |all| == |rest| + |taken| by {
      assert |multiset(all)| == |all|;
      assert |multiset(rest) + multiset(taken)| == |rest| + |taken|;
    }
    assert multiset(all) - multiset(taken) == multiset(rest);
    forall skipped, uid | skipped in multiset(rest) && uid in taken
      ensures skipped <= uid
    {
      InOrderAcross(rest, taken, skipped, uid);
    }
  }

  lemma SelectedAreAbove(listing: seq<int>, last: int, limit: int, uid: int)
    requires limit >= 1 && uid in Selected(listing, last, limit)
    ensures uid > last && uid in listing
    ensures multiset(Selected(listing, last, limit))[uid] <= multiset(listing)[uid]
  {
    SelectedAreTheLargest(listing, last, limit);
    AboveCounts(listing, last, uid);
    assert uid in multiset(Selected(listing, last, limit));
  }

  /** A poll leaves nothing behind exactly when no more UIDs are new than its cap. */
  lemma CompleteExactlyWithinTheCap(listing: seq<int>, last: int, limit: int)
    requires limit >= 1
    ensures multiset(Selected(listing, last, limit)) == multiset(Above(listing, last))
       <==> |Above(listing, last)| <= limit
  {
    var taken, all := Selected(listing, last, limit), Above(listing, last);
    SelectedAreTheLargest(listing, last, limit);
    assert |multiset(taken)| == |taken| && |multiset(all)| == |all|;
    if |all| <= limit {
      SortKeeps(all, AtMost);
      SortHasSame(all, AtMost);
    }
  }

  // ----- Runs of polls -------------------------------------------------------------

  /** A poll with a bad cap raises and leaves the cursor alone. */
  function Attempts(last: int, poll: Poll): seq<int> {
    if poll.limit < 1 then [] else Selected(poll.listing, last, poll.limit)
  }

  /** A run: the cursor before each poll and after the last, and what each poll
      attempted. */
  datatype Run = Run(cursors: seq<int>, attempts: seq<seq<int>>)

  ghost predicate IsRun(run: Run, start: int, polls: seq<Poll>) {
    && |run.attempts| == |polls| && |run.cursors| == |polls| + 1 && run.cursors[0] == start
    && (forall i :: 0 <= i < |polls| ==> run.attempts[i] == Attempts(run.cursors[i], polls[i]))
    && (forall i :: 0 <= i < |polls| ==> run.cursors[i + 1] == Largest(run.attempts[i], run.cursors[i]))
  }

  /** Each poll attempts UIDs between the cursor it starts from and the one it leaves. */
  ghost predicate Advances(cursors: seq<int>, attempts: seq<seq<int>>) {
    && |cursors| == |attempts| + 1
    && (forall i :: 0 <= i < |attempts| ==> cursors[i] <= cursors[i + 1])
    && (forall i, uid :: 0 <= i < |attempts| && uid in attempts[i] ==> cursors[i] < uid <= cursors[i + 1])
  }

  /** One poll moves the cursor to the top of what it attempts, never down. */
  lemma OnePollMovesUp(last: int, poll: Poll)
    ensures last <= Largest(Attempts(last, poll), last)
    ensures forall uid :: uid in Attempts(last, poll) ==> last < uid <= Largest(Attempts(last, poll), last)
  {
    var uids := Attempts(last, poll);
    if uids != [] {
      LargestIsMaximum(uids, last);
      forall uid | uid in uids
        ensures uid > last
      {
        SelectedAreAbove(poll.listing, last, poll.limit, uid);
      }
    }
  }

  /** Over any run of polls, on any mailboxes, the cursor never falls and every
      attempt lies in its own poll's window. */
  lemma RunsAdvance(run: Run, start: int, polls: seq<Poll>)
    requires IsRun(run, start, polls)
    ensures Advances(run.cursors, run.attempts)
  {
    var cursors, attempts := run.cursors, run.attempts;
    forall i | 0 <= i < |attempts|
      ensures cursors[i] <= cursors[i + 1]
    {
      OnePollMovesUp(cursors[i], polls[i]);
    }
    forall i, uid | 0 <= i < |attempts| && uid in attempts[i]
      ensures cursors[i] < uid <= cursors[i + 1]
    {
      OnePollMovesUp(cursors[i], polls[i]);
    }
  }

  lemma {:induction false} CursorNeverFalls(cursors: seq<int>, attempts: seq<seq<int>>, i: nat, j: nat)
    requires Advances(cursors, attempts) && i <= j < |cursors|
    ensures cursors[i] <= cursors[j]
    decreases j
  {
    if i < j {
      CursorNeverFalls(cursors, attempts, i, j - 1);
      assert cursors[j - 1] <= cursors[j - 1 + 1];
    }
  }

  /** No UID is attempted by two polls of one run. */
  lemma NoUidInTwoPolls(run: Run, start: int, polls: seq<Poll>, i: nat, j: nat)
    requires IsRun(run, start, polls) && i < j < |polls|
    ensures forall uid :: uid in run.attempts[i] ==> uid !in run.attempts[j]
  {
    RunsAdvance(run, start, polls);
    CursorNeverFalls(run.cursors, run.attempts, i + 1, j);
  }

  lemma OverflowIsPassed(listing: seq<int>, last: int, limit: int, uid: int)
    requires limit >= 1 && uid in listing && uid > last && uid !in Selected(listing, last, limit)
    ensures uid <= Largest(Selected(listing, last, limit), last)
  {
    var taken, all := Selected(listing, last, limit), Above(listing, last);
    AboveCounts(listing, last, uid);
    SelectedAreTheLargest(listing, last, limit);
    assert uid in multiset(listing);
    var rest := multiset(all) - multiset(taken);
    assert uid in rest by {
      assert uid !in multiset(taken);
    }
    assert all != [] by {
      assert uid in multiset(all);
    }
    var least := taken[0];
    assert least in taken;
    assert uid <= least;
    LargestIsMaximum(taken, last);
  }

  /** A new UID that overflows the cap of a poll is never attempted by any later
      poll: the cursor has passed it. */
  lemma SkippedIsLost(run: Run, start: int, polls: seq<Poll>, i: nat, j: nat, uid: int)
    requires IsRun(run, start, polls) && i < j < |polls| && polls[i].limit >= 1
    requires uid in polls[i].listing && uid > run.cursors[i] && uid !in run.attempts[i]
    ensures uid !in run.attempts[j]
  {
    OverflowIsPassed(polls[i].listing, run.cursors[i], polls[i].limit, uid);
    RunsAdvance(run, start, polls);
    CursorNeverFalls(run.cursors, run.attempts, i + 1, j);
  }

  function Concat(parts: seq<seq<int>>): seq<int> {
    if parts == [] then [] else Concat(parts[..|parts| - 1]) + parts[|parts| - 1]
  }

  lemma {:induction false} ConcatCounts(cursors: seq<int>, attempts: seq<seq<int>>, uid: int, most: nat)
    requires Advances(cursors, attempts)
    requires forall i :: 0 <= i < |attempts| ==> multiset(attempts[i])[uid] <= most
    ensures multiset(Concat(attempts))[uid] <= most
    ensures uid in Concat(attempts) ==> uid <= cursors[|attempts|]
    decreases |attempts|
  {
    if attempts != [] {
      var n := |attempts| - 1;
      var init := attempts[..n];
      ConcatCounts(cursors[..n + 1], init, uid, most);
      assert multiset(Concat(init) + attempts[n])[uid] == multiset(Concat(init))[uid] + multiset(attempts[n])[uid];
      assert uid in attempts[n] ==> uid !in Concat(init);
    }
  }

  /** Over a whole run a UID is attempted at most as often as any one listing
      names it: at most once when each listing names it once. */
  lemma AttemptedNoOftenerThanListed(run: Run, start: int, polls: seq<Poll>, uid: int, most: nat)
    requires IsRun(run, start, polls)
    requires forall poll :: poll in polls ==> multiset(poll.listing)[uid] <= most
    ensures multiset(Concat(run.attempts))[uid] <= most
  {
    RunsAdvance(run, start, polls);
    forall i | 0 <= i < |polls|
      ensures multiset(run.attempts[i])[uid] <= most
    {
      if uid in run.attempts[i] {
        SelectedAreAbove(polls[i].listing, run.cursors[i], polls[i].limit, uid);
      }
    }
    ConcatCounts(run.cursors, run.attempts, uid, most);
  }

  // ----- When exactly no UID is attempted twice --------------------------------------

  ghost predicate Once(uids: seq<int>) {
    forall uid :: multiset(uids)[uid] <= 1
  }

  /** A poll attempts nothing twice, whatever its cap, if and only if the SEARCH
      answer names no new UID twice. */
  lemma PollOnceIffListedOnce(listing: seq<int>, last: int)
    ensures (forall limit: int | limit >= 1 :: Once(Selected(listing, last, limit))) <==> Once(Above(listing, last))
  {
    var all := Above(listing, last);
    if Once(all) {
      forall limit: int | limit >= 1
        ensures Once(Selected(listing, last, limit))
      {
        SelectedAreTheLargest(listing, last, limit);
      }
    } else {
      CompleteExactlyWithinTheCap(listing, last, |all| + 1);
      assert !Once(Selected(listing, last, |all| + 1));
    }
  }

  lemma SameTop(taken: seq<int>, all: seq<int>, last: int)
    requires multiset(taken) <= multiset(all) && (taken == [] <==> all == [])
    requires forall skipped, uid :: uid in taken && skipped in multiset(all) - multiset(taken) ==> skipped <= uid
    ensures Largest(taken, last) == Largest(all, last)
  {
    if all != [] {
      LargestIsMaximum(all, last);
      LargestIsMaximum(taken, last);
      var low, top := Largest(taken, last), Largest(all, last);
      assert low in multiset(taken) && low in multiset(all);
      assert low in all;
      assert top in multiset(all);
      var skipped := multiset(all) - multiset(taken);
      assert top in multiset(taken) || top in skipped;
      assert top in multiset(taken) ==> top in taken;
      assert top in skipped && low in taken ==> top <= low;
    }
  }

  /** A poll moves the cursor to the top of the new UIDs, whatever its cap. */
  lemma CursorIsTheTop(listing: seq<int>, last: int, limit: int)
    requires limit >= 1
    ensures Largest(Selected(listing, last, limit), last) == Largest(Above(listing, last), last)
  {
    SelectedAreTheLargest(listing, last, limit);
    SameTop(Selected(listing, last, limit), Above(listing, last), last);
  }

  /** The cursor before poll n, read off the listings alone. */
  function TopBefore(start: int, listings: seq<seq<int>>, n: nat): int
    requires n <= |listings|
  {
    if n == 0 then start
    else
      var last := TopBefore(start, listings, n - 1);
      Largest(Above(listings[n - 1], last), last)
  }

  /** Polls that see these listings, each with some valid cap. */
  ghost predicate Sees(polls: seq<Poll>, listings: seq<seq<int>>) {
    |polls| == |listings| && forall i :: 0 <= i < |polls| ==> polls[i].listing == listings[i] && polls[i].limit >= 1
  }

  lemma {:induction false} CursorsAreTops(run: Run, start: int, polls: seq<Poll>, listings: seq<seq<int>>, i: nat)
    requires IsRun(run, start, polls) && Sees(polls, listings) && i <= |polls|
    ensures run.cursors[i] == TopBefore(start, listings, i)
  {
    if i > 0 {
      CursorsAreTops(run, start, polls, listings, i - 1);
      CursorIsTheTop(listings[i - 1], run.cursors[i - 1], polls[i - 1].limit);
      assert run.cursors[i - 1 + 1] == Largest(run.attempts[i - 1], run.cursors[i - 1]);
    }
  }

  function RunOf(start: int, polls: seq<Poll>): (run: Run)
    ensures |run.attempts| == |polls| && |run.cursors| == |polls| + 1
  {
    if polls == [] then Run([start], [])
    else
      var before, poll := RunOf(start, polls[..|polls| - 1]), polls[|polls| - 1];
      var last := before.cursors[|polls| - 1];
      Run(before.cursors + [Largest(Attempts(last, poll), last)], before.attempts + [Attempts(last, poll)])
  }

  lemma {:induction false} RunOfIsRun(start: int, polls: seq<Poll>)
    ensures IsRun(RunOf(start, polls), start, polls)
  {
    if polls != [] {
      RunOfIsRun(start, polls[..|polls| - 1]);
    }
  }

  lemma {:induction false} ConcatHas(parts: seq<seq<int>>, i: nat, uid: int)
    requires i < |parts|
    ensures multiset(parts[i])[uid] <= multiset(Concat(parts))[uid]
    decreases |parts|
  {
    var n := |parts| - 1;
    var init := parts[..n];
    assert multiset(Concat(init) + parts[n])[uid] == multiset(Concat(init))[uid] + multiset(parts[n])[uid];
    if i < n {
      ConcatHas(init, i, uid);
    }
  }

  /** Whatever caps the polls of a run have, no UID is attempted twice in the run. */
  ghost predicate NeverTwice(start: int, listings: seq<seq<int>>) {
    forall polls, run :: Sees(polls, listings) && IsRun(run, start, polls) ==> Once(Concat(run.attempts))
  }

  lemma ListedOnceRunsOnce(start: int, listings: seq<seq<int>>, polls: seq<Poll>, run: Run)
    requires forall i :: 0 <= i < |listings| ==> Once(Above(listings[i], TopBefore(start, listings, i)))
    requires Sees(polls, listings) && IsRun(run, start, polls)
    ensures Once(Concat(run.attempts))
  {
    RunsAdvance(run, start, polls);
    forall uid
      ensures multiset(Concat(run.attempts))[uid] <= 1
    {
      forall i | 0 <= i < |polls|
        ensures multiset(run.attempts[i])[uid] <= 1
      {
        CursorsAreTops(run, start, polls, listings, i);
        SelectedAreTheLargest(listings[i], run.cursors[i], polls[i].limit);
      }
      ConcatCounts(run.cursors, run.attempts, uid, 1);
    }
  }

  function PollsOf(listings: seq<seq<int>>, limit: int): seq<Poll> {
    seq(|listings|, k requires 0 <= k < |listings| => Poll(listings[k], limit))
  }

  lemma ListedTwiceRunsTwice(start: int, listings: seq<seq<int>>, i: nat)
    requires i < |listings| && !Once(Above(listings[i], TopBefore(start, listings, i)))
    ensures !NeverTwice(start, listings)
  {
    var all := Above(listings[i], TopBefore(start, listings, i));
    var polls := PollsOf(listings, |all| + 1);
    var run := RunOf(start, polls);
    RunOfIsRun(start, polls);
    assert Sees(polls, listings);
    assert multiset(run.attempts[i]) == multiset(all) by {
      CursorsAreTops(run, start, polls, listings, i);
      CompleteExactlyWithinTheCap(listings[i], run.cursors[i], |all| + 1);
    }
    var uid :| multiset(all)[uid] > 1;
    assert !Once(Concat(run.attempts)) by {
      ConcatHas(run.attempts, i, uid);
    }
  }

  /** Over a run, no UID is attempted twice, whatever the caps, if and only if no
      SEARCH answer names twice a UID that is above all those named before. */
  lemma NeverTwiceIffListedOnce(start: int, listings: seq<seq<int>>)
    ensures NeverTwice(start, listings)
       <==> forall i :: 0 <= i < |listings| ==> Once(Above(listings[i], TopBefore(start, listings, i)))
  {
    if forall i :: 0 <= i < |listings| ==> Once(Above(listings[i], TopBefore(start, listings, i))) {
      forall polls, run | Sees(polls, listings) && IsRun(run, start, polls)
        ensures Once(Concat(run.attempts))
      {
        ListedOnceRunsOnce(start, listings, polls, run);
      }
    } else {
      var i :| 0 <= i < |listings| && !Once(Above(listings[i], TopBefore(start, listings, i)));
      ListedTwiceRunsTwice(start, listings, i);
    }
  }

  /** The smallest such case: a SEARCH answer naming one UID twice is fetched twice. */
  lemma RepeatedListingIsFetchedTwice()
    ensures IsRun(Run([0, 7], [[7, 7]]), 0, [Poll([7, 7], 5)])
  {
    assert [7][..0] == [] && [7, 7][..1] == [7];
    assert Above([7, 7], 0) == [7, 7];
    assert Sort([7], AtMost) == [7];
    assert Sort([7, 7], AtMost) == [7, 7];
    assert Largest([7, 7], 0) == 7;
  }
}
