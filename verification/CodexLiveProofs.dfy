/** Polling in any schedule refines one batch read, and the pending table's
    invariants.  The key is that an entry touches one slot of the shared table,
    and which slot it is depends on its own file alone. */
module CodexLiveProofs {
  import opened Basics
  import opened CodexLive

  // ----- Reading one file on its own -----------------------------------------

  function FreshReading(file: SessionFile): Reading {
    Reading(Place(file.defaultSession, "", ""), map[], [], 0)
  }

  function Prefix<T>(s: seq<T>, n: nat): seq<T> {
    if n <= |s| then s[..n] else s
  }

  /** The first `n` lines of a file, read with no other file around. */
  function Solo(file: SessionFile, n: nat, filter: Filter): Reading {
    ReadLines(FreshReading(file), Prefix(file.lines, n), file.rel, filter)
  }

  function PlaceAfter(place: Place, lines: seq<Line>): Place {
    if lines == [] then place
    else
      var before := PlaceAfter(place, lines[..|lines| - 1]);
      var last := lines[|lines| - 1];
      if last.Entry? then NextPlace(before, last.event) else before
  }

  function KeyOfLine(place: Place, line: Line): set<string> {
    if line.Entry? && TouchedKey(place, line.event).Some? then {TouchedKey(place, line.event).value} else {}
  }

  function KeysTouched(place: Place, lines: seq<Line>): set<string> {
    if lines == [] then {}
    else
      KeysTouched(place, lines[..|lines| - 1])
      + KeyOfLine(PlaceAfter(place, lines[..|lines| - 1]), lines[|lines| - 1])
  }

  /** Every `session::turn` key a file can ever touch; its lines alone decide. */
  function Owned(file: SessionFile): set<string> {
    KeysTouched(FreshReading(file).place, file.lines)
  }

  lemma {:induction false} PlaceSplit(place: Place, a: seq<Line>, b: seq<Line>)
    ensures PlaceAfter(place, a + b) == PlaceAfter(PlaceAfter(place, a), b)
  {
    if b == [] {
      assert a + b == a;
    } else {
      var b' := b[..|b| - 1];
      assert (a + b)[..|a + b| - 1] == a + b';
      PlaceSplit(place, a, b');
    }
  }

  lemma {:induction false} KeysSplit(place: Place, a: seq<Line>, b: seq<Line>)
    ensures KeysTouched(place, a + b) == KeysTouched(place, a) + KeysTouched(PlaceAfter(place, a), b)
  {
    if b == [] {
      assert a + b == a;
    } else {
      var b' := b[..|b| - 1];
      assert (a + b)[..|a + b| - 1] == a + b';
      KeysSplit(place, a, b');
      PlaceSplit(place, a, b');
    }
  }

  lemma {:induction false} ReadSplit(st: Reading, a: seq<Line>, b: seq<Line>, rel: string, filter: Filter)
    ensures ReadLines(st, a + b, rel, filter) == ReadLines(ReadLines(st, a, rel, filter), b, rel, filter)
  {
    if b == [] {
      assert a + b == a;
    } else {
      assert (a + b)[..|a + b| - 1] == a + b[..|b| - 1];
      ReadSplit(st, a, b[..|b| - 1], rel, filter);
    }
  }

  // ----- Frame: what other files put in the table does not matter -------------

  ghost predicate Agree(t1: Pending, t2: Pending, keys: set<string>) {
    forall k :: k in keys ==> Slot(t1, k) == Slot(t2, k)
  }

  ghost predicate SameOutside(t1: Pending, t2: Pending, keys: set<string>) {
    forall k :: k !in keys ==> Slot(t1, k) == Slot(t2, k)
  }

  /** `b` reads what `a` reads, with `r` already emitted and `c` already counted. */
  ghost predicate Ahead(a: Reading, b: Reading, keys: set<string>, r: seq<Row>, c: nat) {
    a.place == b.place && Agree(a.table, b.table, keys) && b.rows == r + a.rows && b.count == c + a.count
  }

  lemma FrameLine(a: Reading, b: Reading, line: Line, keys: set<string>, r: seq<Row>, c: nat, rel: string,
                  filter: Filter)
    requires Ahead(a, b, keys, r, c) && KeyOfLine(a.place, line) <= keys
    ensures Ahead(ReadLine(a, line, rel, filter), ReadLine(b, line, rel, filter), keys, r, c)
    ensures SameOutside(ReadLine(a, line, rel, filter).table, a.table, keys)
  {
    if line.Entry? && TouchedKey(a.place, line.event).Some? {
      var key := TouchedKey(a.place, line.event).value;
      assert key in KeyOfLine(a.place, line);
      assert Slot(a.table, key) == Slot(b.table, key);
    }
  }

  lemma {:induction false} Frame(a: Reading, b: Reading, lines: seq<Line>, keys: set<string>, r: seq<Row>, c: nat,
                                 rel: string, filter: Filter)
    requires Ahead(a, b, keys, r, c) && KeysTouched(a.place, lines) <= keys
    ensures Ahead(ReadLines(a, lines, rel, filter), ReadLines(b, lines, rel, filter), keys, r, c)
    ensures SameOutside(ReadLines(a, lines, rel, filter).table, a.table, keys)
    ensures ReadLines(a, lines, rel, filter).place == PlaceAfter(a.place, lines)
  {
    if lines != [] {
      var init := lines[..|lines| - 1];
      Frame(a, b, init, keys, r, c, rel, filter);
      FrameLine(ReadLines(a, init, rel, filter), ReadLines(b, init, rel, filter), lines[|lines| - 1], keys, r, c,
                rel, filter);
    }
  }

  // ----- Schedules of polls ----------------------------------------------------

  type Snapshot = seq<SessionFile>

  /** The complete log files, by relative path. */
  type Logs = map<string, SessionFile>

  function SeenOf(seen: map<string, nat>, rel: string): nat {
    if rel in seen then seen[rel] else 0
  }

  function SeenAfter(seen: map<string, nat>, snap: Snapshot): map<string, nat> {
    if snap == [] then seen
    else SeenAfter(seen, snap[..|snap| - 1])[snap[|snap| - 1].rel := |snap[|snap| - 1].lines|]
  }

  /** No line from `n` on stops the parser. */
  ghost predicate ParsesFrom(file: SessionFile, n: nat) {
    forall l :: n <= l < |file.lines| ==> !file.lines[l].Malformed?
  }

  /** A poll dies on a line that it has to parse and cannot. */
  ghost predicate Rejected(snap: Snapshot, seen: map<string, nat>) {
    exists i :: 0 <= i < |snap| && !ParsesFrom(snap[i], SeenOf(seen, snap[i].rel))
  }

  /** Whole lines of a file, at least those that earlier polls saw. */
  ghost predicate Glimpse(logs: Logs, file: SessionFile, seen: map<string, nat>) {
    && file.rel in logs
    && file.defaultSession == logs[file.rel].defaultSession
    && file.lines <= logs[file.rel].lines
    && SeenOf(seen, file.rel) <= |file.lines|
  }

  ghost predicate Glimpses(logs: Logs, snap: Snapshot, seen: map<string, nat>) {
    && (forall i, j :: 0 <= i < j < |snap| ==> snap[i].rel != snap[j].rel)
    && (forall i :: 0 <= i < |snap| ==> Glimpse(logs, snap[i], seen))
  }

  ghost predicate Listed(snap: Snapshot, rel: string) {
    exists i :: 0 <= i < |snap| && snap[i].rel == rel
  }

  /** Glimpses of files of which none seen before is missing. */
  ghost predicate View(logs: Logs, snap: Snapshot, seen: map<string, nat>) {
    Glimpses(logs, snap, seen) && forall rel :: rel in seen ==> Listed(snap, rel)
  }

  /** Lines consumed by the polls that went through. */
  ghost function Consumed(snaps: seq<Snapshot>): map<string, nat> {
    if snaps == [] then map[]
    else
      var seen := Consumed(snaps[..|snaps| - 1]);
      var last := snaps[|snaps| - 1];
      if Rejected(last, seen) then seen else SeenAfter(seen, last)
  }

  /** Every poll is rejected (and then may have seen anything) or is a view. */
  ghost predicate Schedule(logs: Logs, snaps: seq<Snapshot>) {
    snaps != [] ==>
      var init, last := snaps[..|snaps| - 1], snaps[|snaps| - 1];
      Schedule(logs, init) && (Rejected(last, Consumed(init)) || View(logs, last, Consumed(init)))
  }

  ghost predicate WellKept(logs: Logs) {
    && (forall rel :: rel in logs ==> logs[rel].rel == rel)
    && (forall r1, r2 :: r1 in logs && r2 in logs && r1 != r2 ==> Owned(logs[r1]) !! Owned(logs[r2]))
  }

  ghost function Everything(logs: Logs): map<string, nat> {
    map rel | rel in logs :: |logs[rel].lines|
  }

  /** All that a sequence of polls has produced: the saved cursor, the rows per
      file, and the number of input rows. */
  datatype Run = Run(cursor: Cursor, rowsBy: map<string, seq<Row>>, inputRows: nat)

  const START := Run(Cursor(map[], map[]), map[], 0)

  function RowsBy(rowsBy: map<string, seq<Row>>, rel: string): seq<Row> {
    if rel in rowsBy then rowsBy[rel] else []
  }

  function AddRows(rowsBy: map<string, seq<Row>>, fileReads: seq<FileRead>): map<string, seq<Row>> {
    if fileReads == [] then rowsBy
    else
      var before := AddRows(rowsBy, fileReads[..|fileReads| - 1]);
      var last := fileReads[|fileReads| - 1];
      before[last.rel := RowsBy(before, last.rel) + last.rows]
  }

  /** A poll that fails saves no cursor and writes no rows. */
  function PollOnce(run: Run, snap: Snapshot, filter: Filter): Run {
    match ReadFiles(snap, run.cursor, filter)
    case Failure(_) => run
    case Success((fileReads, table)) =>
      Run(Cursor(NextFiles(fileReads), table), AddRows(run.rowsBy, fileReads), run.inputRows + InputRows(fileReads))
  }

  function RunPolls(snaps: seq<Snapshot>, filter: Filter): Run {
    if snaps == [] then START else PollOnce(RunPolls(snaps[..|snaps| - 1], filter), snaps[|snaps| - 1], filter)
  }

  // ----- The state that the lines consumed determine ---------------------------

  /** `solo(rel, n)`: what the first `n` lines of file `rel` give on their own.
      The bookkeeping below needs no more than that there is such a function. */
  type Solos = (string, nat) -> Reading

  ghost predicate ReadsAlone(logs: Logs, solo: Solos, filter: Filter) {
    forall rel, n: nat {:trigger Solo(logs[rel], n, filter)} ::
      rel in logs ==> solo(rel, n) == Solo(logs[rel], n, filter)
  }

  ghost function CanonFiles(seen: map<string, nat>, solo: Solos): map<string, FileState> {
    map rel | rel in seen :: FileState(seen[rel], solo(rel, seen[rel]).place)
  }

  ghost function CanonRows(seen: map<string, nat>, solo: Solos): map<string, seq<Row>> {
    map rel | rel in seen :: solo(rel, seen[rel]).rows
  }

  ghost function CanonCounts(seen: map<string, nat>, solo: Solos): map<string, int> {
    map rel | rel in seen :: solo(rel, seen[rel]).count
  }

  ghost predicate Within(logs: Logs, seen: map<string, nat>) {
    seen.Keys <= logs.Keys && forall rel :: rel in seen ==> seen[rel] <= |logs[rel].lines|
  }

  ghost predicate SomeOwner(logs: Logs, key: string) {
    exists rel :: rel in logs && key in Owned(logs[rel])
  }

  /** In each file's own keys, the shared table holds that file's solo table. */
  ghost predicate CanonTable(logs: Logs, seen: map<string, nat>, table: Pending, solo: Solos) {
    && (forall rel :: rel in logs ==> Agree(table, solo(rel, SeenOf(seen, rel)).table, Owned(logs[rel])))
    && (forall key :: key in table ==> SomeOwner(logs, key))
  }

  ghost predicate Tallied(seen: map<string, nat>, rowsBy: map<string, seq<Row>>, inputRows: int, solo: Solos) {
    rowsBy == CanonRows(seen, solo) && inputRows == Total(CanonCounts(seen, solo))
  }

  ghost predicate Canon(logs: Logs, seen: map<string, nat>, run: Run, solo: Solos) {
    && Within(logs, seen)
    && run.cursor.files == CanonFiles(seen, solo)
    && Tallied(seen, run.rowsBy, run.inputRows, solo)
    && CanonTable(logs, seen, run.cursor.pending, solo)
  }

  lemma CanonIsUnique(logs: Logs, seen: map<string, nat>, run1: Run, run2: Run, solo: Solos)
    requires Canon(logs, seen, run1, solo) && Canon(logs, seen, run2, solo)
    ensures run1 == run2
  {
    var t1, t2 := run1.cursor.pending, run2.cursor.pending;
    forall key | key in t1.Keys + t2.Keys
      ensures Slot(t1, key) == Slot(t2, key)
    {
      assert SomeOwner(logs, key);
      var rel :| rel in logs && key in Owned(logs[rel]);
      var table := solo(rel, SeenOf(seen, rel)).table;
      assert Slot(t1, key) == Slot(table, key) == Slot(t2, key);
    }
    SameSlots(t1, t2);
  }

  lemma SameSlots(t1: Pending, t2: Pending)
    requires forall key :: key in t1.Keys + t2.Keys ==> Slot(t1, key) == Slot(t2, key)
    ensures t1 == t2
  {
    forall key | key in t1.Keys + t2.Keys
      ensures key in t1 && key in t2 && t1[key] == t2[key]
    {
      assert Slot(t1, key) == Slot(t2, key);
    }
  }

  /** A saved session id is never blank unless the file's default is. */
  lemma {:induction false} SessionSticks(place: Place, lines: seq<Line>)
    ensures PlaceAfter(place, lines).sessionId == "" ==> place.sessionId == ""
  {
    if lines != [] {
      SessionSticks(place, lines[..|lines| - 1]);
    }
  }

  lemma {:induction false} SoloPlace(file: SessionFile, n: nat, filter: Filter)
    ensures Solo(file, n, filter).place == PlaceAfter(FreshReading(file).place, Prefix(file.lines, n))
    ensures KeysTouched(FreshReading(file).place, Prefix(file.lines, n)) <= Owned(file)
  {
    var start, lines := FreshReading(file), Prefix(file.lines, n);
    Frame(start, start, lines, KeysTouched(start.place, lines), [], 0, file.rel, filter);
    assert file.lines == lines + (if n <= |file.lines| then file.lines[n..] else []);
    KeysSplit(start.place, lines, if n <= |file.lines| then file.lines[n..] else []);
  }

  // ----- One poll keeps the canonical state ------------------------------------

  /** Reading on from where a file was left is reading further on its own. */
  lemma SoloContinues(whole: SessionFile, n: nat, m: nat, filter: Filter)
    requires n <= m <= |whole.lines|
    ensures Solo(whole, m, filter) == ReadLines(Solo(whole, n, filter), whole.lines[n..m], whole.rel, filter)
  {
    assert whole.lines[..m] == whole.lines[..n] + whole.lines[n..m];
    ReadSplit(FreshReading(whole), whole.lines[..n], whole.lines[n..m], whole.rel, filter);
  }

  /** It touches the file's own keys only. */
  lemma SoloStaysHome(whole: SessionFile, n: nat, m: nat, filter: Filter)
    requires n <= m <= |whole.lines|
    ensures KeysTouched(Solo(whole, n, filter).place, whole.lines[n..m]) <= Owned(whole)
  {
    var start := FreshReading(whole).place;
    assert Solo(whole, n, filter).place == PlaceAfter(start, whole.lines[..n]) by {
      SoloPlace(whole, n, filter);
    }
    assert KeysTouched(start, whole.lines[..n] + whole.lines[n..m]) <= Owned(whole) by {
      SoloPlace(whole, m, filter);
      assert whole.lines[..m] == whole.lines[..n] + whole.lines[n..m];
    }
    KeysSplit(start, whole.lines[..n], whole.lines[n..m]);
  }

  lemma NothingReadYet(file: SessionFile, filter: Filter)
    ensures Solo(file, 0, filter) == FreshReading(file)
  {
    assert Prefix(file.lines, 0) == [];
  }

  lemma RestoredPlace(whole: SessionFile, n: nat, file: SessionFile, filter: Filter)
    requires file.defaultSession == whole.defaultSession
    ensures Restore(file, Some(FileState(n, Solo(whole, n, filter).place))) == Solo(whole, n, filter).place
    ensures Restore(file, None) == Solo(whole, 0, filter).place
  {
    SoloPlace(whole, n, filter);
    SessionSticks(FreshReading(whole).place, Prefix(whole.lines, n));
    assert Prefix(whole.lines, 0) == [];
  }

  /** What reading one file from line `n` to line `m` takes. */
  ghost predicate ReadOn(n: nat, m: nat, fileRead: FileRead, solo: Solos) {
    var before, after := solo(fileRead.rel, n), solo(fileRead.rel, m);
    && fileRead.state == FileState(m, after.place)
    && after.rows == before.rows + fileRead.rows
    && after.count == before.count + fileRead.count
  }

  /** One file of a poll, on top of a table that agrees with its solo table. */
  lemma FileStep(logs: Logs, seen: map<string, nat>, cursor: Cursor, table: Pending, file: SessionFile, solo: Solos,
                 filter: Filter)
    requires WellKept(logs) && ReadsAlone(logs, solo, filter) && Glimpse(logs, file, seen)
    requires cursor.files == CanonFiles(seen, solo)
    requires ParsesFrom(file, SeenOf(seen, file.rel))
    requires Agree(table, solo(file.rel, SeenOf(seen, file.rel)).table, Owned(logs[file.rel]))
    ensures var r := ReadFile(file, FileStateOf(cursor.files, file.rel), table, filter);
            && r.Success? && r.value.0.rel == file.rel
            && ReadOn(SeenOf(seen, file.rel), |file.lines|, r.value.0, solo)
            && SameOutside(r.value.1, table, Owned(logs[file.rel]))
            && Agree(r.value.1, solo(file.rel, |file.lines|).table, Owned(logs[file.rel]))
  {
    var rel, n, m := file.rel, SeenOf(seen, file.rel), |file.lines|;
    var whole, prior := logs[rel], FileStateOf(cursor.files, rel);
    var unread := Unread(file, prior);
    assert unread == whole.lines[n..m];
    FirstMalformedIs(unread, |unread|);
    var before, after := Solo(whole, n, filter), Solo(whole, m, filter);
    assert before == solo(rel, n) && after == solo(rel, m);
    RestoredPlace(whole, n, file, filter);
    SoloContinues(whole, n, m, filter);
    SoloStaysHome(whole, n, m, filter);
    Frame(Reading(before.place, table, [], 0), before, unread, Owned(whole), before.rows, before.count, rel, filter);
  }

  lemma TableStep(logs: Logs, mid: map<string, nat>, table: Pending, rel: string, m: nat, table': Pending, solo: Solos)
    requires WellKept(logs) && rel in logs
    requires CanonTable(logs, mid, table, solo)
    requires SameOutside(table', table, Owned(logs[rel]))
    requires Agree(table', solo(rel, m).table, Owned(logs[rel]))
    ensures CanonTable(logs, mid[rel := m], table', solo)
  {
    forall other | other in logs
      ensures Agree(table', solo(other, SeenOf(mid[rel := m], other)).table, Owned(logs[other]))
    {
      if other != rel {
        forall k | k in Owned(logs[other])
          ensures Slot(table', k) == Slot(solo(other, SeenOf(mid, other)).table, k)
        {
          assert k !in Owned(logs[rel]);
        }
      }
    }
    forall key | key in table'
      ensures SomeOwner(logs, key)
    {
      if key !in Owned(logs[rel]) {
        assert Slot(table', key) == Slot(table, key);
      }
    }
  }

  ghost function Rels(snap: Snapshot): set<string> {
    set i | 0 <= i < |snap| :: snap[i].rel
  }

  lemma RelsStep(snap: Snapshot)
    requires snap != []
    ensures Rels(snap) == Rels(snap[..|snap| - 1]) + {snap[|snap| - 1].rel}
  {
    var init := snap[..|snap| - 1];
    forall rel | rel in Rels(snap)
      ensures rel in Rels(init) || rel == snap[|snap| - 1].rel
    {
      var i :| 0 <= i < |snap| && snap[i].rel == rel;
      if i < |init| {
        assert init[i].rel == rel;
      }
    }
    forall rel | rel in Rels(init)
      ensures rel in Rels(snap)
    {
      var i :| 0 <= i < |init| && init[i].rel == rel;
      assert snap[i].rel == rel;
    }
  }

  lemma {:induction false} SeenElsewhere(seen: map<string, nat>, snap: Snapshot, rel: string)
    ensures SeenAfter(seen, snap).Keys == seen.Keys + Rels(snap)
    ensures !Listed(snap, rel) ==> SeenOf(SeenAfter(seen, snap), rel) == SeenOf(seen, rel)
  {
    if snap != [] {
      var init := snap[..|snap| - 1];
      SeenElsewhere(seen, init, rel);
      RelsStep(snap);
      if Listed(init, rel) {
        var i :| 0 <= i < |init| && init[i].rel == rel;
        assert snap[i].rel == rel;
      }
      assert Listed(snap, snap[|snap| - 1].rel);
    }
  }

  ghost predicate Saved(seen: map<string, nat>, rels: set<string>, states: map<string, FileState>, solo: Solos) {
    && states.Keys == rels <= seen.Keys
    && forall rel :: rel in rels ==> states[rel] == FileState(seen[rel], solo(rel, seen[rel]).place)
  }

  /** The bookkeeping of a poll, part-way through its files. */
  ghost predicate SoFar(logs: Logs, seen: map<string, nat>, run: Run, snap: Snapshot, fileReads: seq<FileRead>,
                        table: Pending, solo: Solos)
  {
    var after := SeenAfter(seen, snap);
    && Within(logs, after)
    && CanonTable(logs, after, table, solo)
    && Tallied(after, AddRows(run.rowsBy, fileReads), run.inputRows + InputRows(fileReads), solo)
    && Saved(after, Rels(snap), NextFiles(fileReads), solo)
  }

  lemma FewerFiles(logs: Logs, snap: Snapshot, seen: map<string, nat>)
    requires snap != [] && Glimpses(logs, snap, seen) && !Rejected(snap, seen)
    ensures Glimpses(logs, snap[..|snap| - 1], seen) && !Rejected(snap[..|snap| - 1], seen)
  {
    var init := snap[..|snap| - 1];
    forall i | 0 <= i < |init|
      ensures ParsesFrom(init[i], SeenOf(seen, init[i].rel)) && Glimpse(logs, init[i], seen)
    {
      assert ParsesFrom(snap[i], SeenOf(seen, snap[i].rel)) && Glimpse(logs, snap[i], seen);
    }
  }

  lemma {:induction false} SnapStep(logs: Logs, seen: map<string, nat>, run: Run, snap: Snapshot, solo: Solos,
                                    filter: Filter)
    requires WellKept(logs) && ReadsAlone(logs, solo, filter) && Canon(logs, seen, run, solo)
    requires Glimpses(logs, snap, seen) && !Rejected(snap, seen)
    ensures var r := ReadFiles(snap, run.cursor, filter);
            r.Success? && SoFar(logs, seen, run, snap, r.value.0, r.value.1, solo)
  {
    if snap != [] {
      var init, last := snap[..|snap| - 1], snap[|snap| - 1];
      FewerFiles(logs, snap, seen);
      SnapStep(logs, seen, run, init, solo, filter);
      var sofar := ReadFiles(init, run.cursor, filter).value;
      LastFile(logs, seen, run, snap, sofar.0, sofar.1, solo, filter);
      assert ReadFiles(snap, run.cursor, filter) == PlusFile(sofar, last, run.cursor, filter);
    }
  }

  lemma LastFile(logs: Logs, seen: map<string, nat>, run: Run, snap: Snapshot, sofar: seq<FileRead>, table: Pending,
                 solo: Solos, filter: Filter)
    requires WellKept(logs) && ReadsAlone(logs, solo, filter) && Canon(logs, seen, run, solo) && snap != []
    requires Glimpses(logs, snap, seen) && !Rejected(snap, seen)
    requires SoFar(logs, seen, run, snap[..|snap| - 1], sofar, table, solo)
    ensures var r := PlusFile((sofar, table), snap[|snap| - 1], run.cursor, filter);
            r.Success? && SoFar(logs, seen, run, snap, r.value.0, r.value.1, solo)
  {
    var init, last := snap[..|snap| - 1], snap[|snap| - 1];
    var rel := last.rel;
    assert rel !in Rels(init) && !Listed(init, rel);
    NothingReadYet(logs[rel], filter);
    SeenElsewhere(seen, init, rel);
    assert Glimpse(logs, last, seen) && ParsesFrom(last, SeenOf(seen, rel));
    FileStep(logs, seen, run.cursor, table, last, solo, filter);
    var (fileRead, table') := ReadFile(last, FileStateOf(run.cursor.files, rel), table, filter).value;
    TableStep(logs, SeenAfter(seen, init), table, rel, |last.lines|, table', solo);
    OneMoreFile(logs, seen, run, snap, sofar, table, fileRead, table', solo);
  }

  lemma TallyStep(mid: map<string, nat>, rowsBy: map<string, seq<Row>>, inputRows: int, m: nat, fileRead: FileRead,
                  solo: Solos)
    requires Tallied(mid, rowsBy, inputRows, solo)
    requires ReadOn(SeenOf(mid, fileRead.rel), m, fileRead, solo)
    requires solo(fileRead.rel, 0).rows == [] && solo(fileRead.rel, 0).count == 0
    ensures Tallied(mid[fileRead.rel := m], rowsBy[fileRead.rel := RowsBy(rowsBy, fileRead.rel) + fileRead.rows],
                    inputRows + fileRead.count, solo)
  {
    var rel, after, counts := fileRead.rel, solo(fileRead.rel, m), CanonCounts(mid, solo);
    assert CanonRows(mid[rel := m], solo) == CanonRows(mid, solo)[rel := after.rows];
    assert CanonCounts(mid[rel := m], solo) == counts[rel := after.count];
    if rel in mid {
      TotalUpdate(counts, rel, after.count);
    } else {
      TotalInsert(counts, rel, after.count);
    }
  }

  lemma OneMoreAdded(rowsBy: map<string, seq<Row>>, sofar: seq<FileRead>, fileRead: FileRead)
    ensures var before := AddRows(rowsBy, sofar);
            AddRows(rowsBy, sofar + [fileRead])
            == before[fileRead.rel := RowsBy(before, fileRead.rel) + fileRead.rows]
  {
    assert (sofar + [fileRead])[..|sofar|] == sofar;
  }

  lemma OneMoreTallied(mid: map<string, nat>, rowsBy: map<string, seq<Row>>, inputRows: int, sofar: seq<FileRead>,
                       m: nat,
                       fileRead: FileRead, solo: Solos)
    requires Tallied(mid, AddRows(rowsBy, sofar), inputRows + InputRows(sofar), solo)
    requires ReadOn(SeenOf(mid, fileRead.rel), m, fileRead, solo)
    requires solo(fileRead.rel, 0).rows == [] && solo(fileRead.rel, 0).count == 0
    ensures Tallied(mid[fileRead.rel := m], AddRows(rowsBy, sofar + [fileRead]),
                    inputRows + InputRows(sofar + [fileRead]), solo)
  {
    OneMoreAdded(rowsBy, sofar, fileRead);
    OneMoreRead(sofar, fileRead);
    TallyStep(mid, AddRows(rowsBy, sofar), inputRows + InputRows(sofar), m, fileRead, solo);
  }

  lemma OneMoreSaved(mid: map<string, nat>, rels: set<string>, sofar: seq<FileRead>, m: nat, fileRead: FileRead,
                     solo: Solos)
    requires Saved(mid, rels, NextFiles(sofar), solo) && fileRead.rel !in rels
    requires fileRead.state == FileState(m, solo(fileRead.rel, m).place)
    ensures Saved(mid[fileRead.rel := m], rels + {fileRead.rel}, NextFiles(sofar + [fileRead]), solo)
  {
    OneMoreRead(sofar, fileRead);
    SavedStep(mid, rels, NextFiles(sofar), m, fileRead, solo);
  }

  lemma OneMoreFile(logs: Logs, seen: map<string, nat>, run: Run, snap: Snapshot, sofar: seq<FileRead>, table: Pending,
                    fileRead: FileRead, table': Pending, solo: Solos)
    requires snap != []
    requires SoFar(logs, seen, run, snap[..|snap| - 1], sofar, table, solo)
    requires fileRead.rel in logs && fileRead.rel == snap[|snap| - 1].rel
    requires |snap[|snap| - 1].lines| <= |logs[fileRead.rel].lines| && fileRead.rel !in Rels(snap[..|snap| - 1])
    requires solo(fileRead.rel, 0).rows == [] && solo(fileRead.rel, 0).count == 0
    requires var mid, m := SeenAfter(seen, snap[..|snap| - 1]), |snap[|snap| - 1].lines|;
             && ReadOn(SeenOf(mid, fileRead.rel), m, fileRead, solo)
             && CanonTable(logs, mid[fileRead.rel := m], table', solo)
    ensures SoFar(logs, seen, run, snap, sofar + [fileRead], table', solo)
  {
    var init, rel, m := snap[..|snap| - 1], fileRead.rel, |snap[|snap| - 1].lines|;
    var mid, after := SeenAfter(seen, init), SeenAfter(seen, snap);
    assert after == mid[rel := m];
    OneMoreTallied(mid, run.rowsBy, run.inputRows, sofar, m, fileRead, solo);
    RelsStep(snap);
    OneMoreSaved(mid, Rels(init), sofar, m, fileRead, solo);
  }

  lemma SavedStep(mid: map<string, nat>, rels: set<string>, states: map<string, FileState>, m: nat, fileRead: FileRead,
                  solo: Solos)
    requires Saved(mid, rels, states, solo) && fileRead.rel !in rels
    requires fileRead.state == FileState(m, solo(fileRead.rel, m).place)
    ensures Saved(mid[fileRead.rel := m], rels + {fileRead.rel}, states[fileRead.rel := fileRead.state], solo)
  {
  }

  lemma PollKeepsCanon(logs: Logs, seen: map<string, nat>, run: Run, snap: Snapshot, solo: Solos, filter: Filter)
    requires WellKept(logs) && ReadsAlone(logs, solo, filter) && Canon(logs, seen, run, solo)
    requires View(logs, snap, seen) && !Rejected(snap, seen)
    ensures Canon(logs, SeenAfter(seen, snap), PollOnce(run, snap, filter), solo)
  {
    SnapStep(logs, seen, run, snap, solo, filter);
    ViewCovers(logs, snap, seen);
    var (fileReads, table) := ReadFiles(snap, run.cursor, filter).value;
    AllSaved(SeenAfter(seen, snap), NextFiles(fileReads), solo);
    var after := PollOnce(run, snap, filter);
    assert after.cursor == Cursor(NextFiles(fileReads), table);
  }

  lemma AllSaved(seen: map<string, nat>, states: map<string, FileState>, solo: Solos)
    requires Saved(seen, seen.Keys, states, solo)
    ensures states == CanonFiles(seen, solo)
  {
  }

  lemma ViewCovers(logs: Logs, snap: Snapshot, seen: map<string, nat>)
    requires View(logs, snap, seen)
    ensures SeenAfter(seen, snap).Keys == Rels(snap)
  {
    SeenElsewhere(seen, snap, "");
    forall rel | rel in seen
      ensures rel in Rels(snap)
    {
      assert Listed(snap, rel);
    }
  }

  /** A rejected poll changes nothing. */
  lemma {:induction false} RejectedPollFails(seen: map<string, nat>, cursor: Cursor, snap: Snapshot, filter: Filter)
    requires cursor.files.Keys == seen.Keys && forall rel :: rel in seen ==> cursor.files[rel].line == seen[rel]
    requires Rejected(snap, seen)
    ensures ReadFiles(snap, cursor, filter).Failure?
  {
    var i :| 0 <= i < |snap| && !ParsesFrom(snap[i], SeenOf(seen, snap[i].rel));
    var file := snap[i];
    var n := SeenOf(seen, file.rel);
    if i == |snap| - 1 {
      var l :| n <= l < |file.lines| && file.lines[l].Malformed?;
      var unread := Unread(file, FileStateOf(cursor.files, file.rel));
      assert unread[l - n].Malformed?;
    } else {
      assert !ParsesFrom(snap[..|snap| - 1][i], n);
      RejectedPollFails(seen, cursor, snap[..|snap| - 1], filter);
    }
  }

  lemma {:induction false} ScheduleKeepsCanon(logs: Logs, snaps: seq<Snapshot>, solo: Solos, filter: Filter)
    requires WellKept(logs) && ReadsAlone(logs, solo, filter) && Schedule(logs, snaps)
    ensures Canon(logs, Consumed(snaps), RunPolls(snaps, filter), solo)
  {
    if snaps == [] {
      forall rel | rel in logs
        ensures solo(rel, 0).table == map[]
      {
        NothingReadYet(logs[rel], filter);
      }
    } else {
      var init, last := snaps[..|snaps| - 1], snaps[|snaps| - 1];
      ScheduleKeepsCanon(logs, init, solo, filter);
      var run := RunPolls(init, filter);
      if Rejected(last, Consumed(init)) {
        RejectedPollFails(Consumed(init), run.cursor, last, filter);
      } else {
        PollKeepsCanon(logs, Consumed(init), run, last, solo, filter);
      }
    }
  }

  ghost function SoloReader(logs: Logs, filter: Filter): (solo: Solos)
    ensures ReadsAlone(logs, solo, filter)
  {
    (rel: string, n: nat) => Solo(if rel in logs then logs[rel] else SessionFile("", "", []), n, filter)
  }

  // ----- Main results -----------------------------------------------------------

  /** Two schedules that consumed the same lines end in the same state. */
  lemma SchedulesConverge(logs: Logs, s1: seq<Snapshot>, s2: seq<Snapshot>, filter: Filter)
    requires WellKept(logs) && Schedule(logs, s1) && Schedule(logs, s2)
    requires Consumed(s1) == Consumed(s2)
    ensures RunPolls(s1, filter) == RunPolls(s2, filter)
  {
    var solo := SoloReader(logs, filter);
    ScheduleKeepsCanon(logs, s1, solo, filter);
    ScheduleKeepsCanon(logs, s2, solo, filter);
    CanonIsUnique(logs, Consumed(s1), RunPolls(s1, filter), RunPolls(s2, filter), solo);
  }

  /** A batch: every complete file once, in any order. */
  ghost predicate Batch(logs: Logs, batch: Snapshot) {
    && Glimpses(logs, batch, map[])
    && (forall i :: 0 <= i < |batch| ==> batch[i] == logs[batch[i].rel])
    && (forall rel :: rel in logs ==> Listed(batch, rel))
  }

  lemma {:induction false} SnapConsumes(logs: Logs, snap: Snapshot, seen: map<string, nat>, rel: string, i: nat)
    requires Glimpses(logs, snap, map[]) && seen.Keys <= logs.Keys && i < |snap| && snap[i].rel == rel
    ensures rel in SeenAfter(seen, snap) && SeenAfter(seen, snap)[rel] == |snap[i].lines|
  {
    var init, last := snap[..|snap| - 1], snap[|snap| - 1];
    if i < |init| {
      assert last.rel != init[i].rel;
      assert forall k :: 0 <= k < |init| ==> Glimpse(logs, snap[k], map[]);
      SnapConsumes(logs, init, seen, rel, i);
    }
  }

  lemma BatchConsumes(logs: Logs, batch: Snapshot, seen: map<string, nat>, rel: string)
    requires Batch(logs, batch) && seen.Keys <= logs.Keys && rel in logs
    ensures rel in SeenAfter(seen, batch) && SeenAfter(seen, batch)[rel] == |logs[rel].lines|
  {
    assert Listed(batch, rel);
    var i :| 0 <= i < |batch| && batch[i].rel == rel;
    SnapConsumes(logs, batch, seen, rel, i);
    assert batch[i] == logs[rel];
  }

  lemma BatchSeesEverything(logs: Logs, batch: Snapshot, seen: map<string, nat>)
    requires Batch(logs, batch) && seen.Keys <= logs.Keys
    ensures SeenAfter(seen, batch) == Everything(logs)
  {
    forall rel | rel in logs
      ensures rel in SeenAfter(seen, batch) && SeenAfter(seen, batch)[rel] == |logs[rel].lines|
    {
      BatchConsumes(logs, batch, seen, rel);
    }
    assert SeenAfter(seen, batch).Keys <= logs.Keys by {
      SeenElsewhere(seen, batch, "");
      assert forall i :: 0 <= i < |batch| ==> Glimpse(logs, batch[i], map[]);
    }
  }

  ghost predicate ParsedUpTo(file: SessionFile, n: nat) {
    n <= |file.lines| && forall l :: 0 <= l < n ==> !file.lines[l].Malformed?
  }

  ghost predicate AllParsed(logs: Logs, seen: map<string, nat>) {
    forall rel :: rel in seen ==> rel in logs && ParsedUpTo(logs[rel], seen[rel])
  }

  /** Lines that some poll consumed are lines that parse. */
  lemma {:induction false} ConsumedParses(logs: Logs, snaps: seq<Snapshot>)
    requires Schedule(logs, snaps)
    ensures AllParsed(logs, Consumed(snaps))
  {
    if snaps != [] {
      var init, last := snaps[..|snaps| - 1], snaps[|snaps| - 1];
      ConsumedParses(logs, init);
      if !Rejected(last, Consumed(init)) {
        SnapParses(logs, last, Consumed(init), |last|);
        assert last[..|last|] == last;
      }
    }
  }

  lemma {:induction false} SnapParses(logs: Logs, snap: Snapshot, seen: map<string, nat>, n: nat)
    requires Glimpses(logs, snap, seen) && !Rejected(snap, seen) && n <= |snap|
    requires AllParsed(logs, seen)
    ensures AllParsed(logs, SeenAfter(seen, snap[..n]))
  {
    if n > 0 {
      SnapParses(logs, snap, seen, n - 1);
      assert snap[..n][..n - 1] == snap[..n - 1];
      var file := snap[n - 1];
      assert Glimpse(logs, file, seen) && ParsesFrom(file, SeenOf(seen, file.rel));
      assert ParsedUpTo(logs[file.rel], |file.lines|);
    }
  }

  /** Polling refines batch: whatever the polls saw on the way, once every line
      has been consumed the rows of each file, the cursor with its pending
      table, and the input count are those of one read from an empty cursor. */
  lemma PollingRefinesBatch(logs: Logs, snaps: seq<Snapshot>, batch: Snapshot, filter: Filter)
    requires WellKept(logs) && Schedule(logs, snaps) && Batch(logs, batch)
    requires Consumed(snaps) == Everything(logs)
    ensures RunPolls(snaps, filter) == RunPolls([batch], filter)
  {
    BatchIsSchedule(logs, snaps, batch);
    SchedulesConverge(logs, snaps, [batch], filter);
  }

  lemma BatchParses(logs: Logs, batch: Snapshot)
    requires Batch(logs, batch) && AllParsed(logs, Everything(logs))
    ensures !Rejected(batch, map[]) && !Rejected(batch, Everything(logs))
    ensures View(logs, batch, map[]) && View(logs, batch, Everything(logs))
  {
    forall i | 0 <= i < |batch|
      ensures ParsesFrom(batch[i], 0) && Glimpse(logs, batch[i], Everything(logs))
    {
      assert Glimpse(logs, batch[i], map[]);
      assert batch[i].rel in Everything(logs) && ParsedUpTo(batch[i], |batch[i].lines|);
    }
  }

  lemma BatchIsSchedule(logs: Logs, snaps: seq<Snapshot>, batch: Snapshot)
    requires Schedule(logs, snaps) && Batch(logs, batch)
    requires Consumed(snaps) == Everything(logs)
    ensures Schedule(logs, [batch]) && Consumed([batch]) == Everything(logs)
    ensures Schedule(logs, snaps + [batch]) && Consumed(snaps + [batch]) == Everything(logs)
  {
    ConsumedParses(logs, snaps);
    BatchParses(logs, batch);
    BatchSeesEverything(logs, batch, map[]);
    BatchSeesEverything(logs, batch, Everything(logs));
    assert [batch][..0] == [];
    assert Consumed([]) == map[];
    assert (snaps + [batch])[..|snaps|] == snaps;
  }

  /** Polling again with nothing new emits nothing and leaves the cursor alone. */
  lemma PollingAgainIsSilent(logs: Logs, snaps: seq<Snapshot>, batch: Snapshot, filter: Filter)
    requires WellKept(logs) && Schedule(logs, snaps) && Batch(logs, batch)
    requires Consumed(snaps) == Everything(logs)
    ensures var cursor := RunPolls(snaps, filter).cursor;
            Poll(batch, cursor, filter) == Success(PollOutput([], 0, cursor))
  {
    var run := RunPolls(snaps, filter);
    assert PollOnce(run, batch, filter) == run by {
      BatchIsSchedule(logs, snaps, batch);
      SchedulesConverge(logs, snaps, snaps + [batch], filter);
      assert (snaps + [batch])[..|snaps|] == snaps;
    }
    assert Canon(logs, Everything(logs), run, SoloReader(logs, filter)) by {
      ScheduleKeepsCanon(logs, snaps, SoloReader(logs, filter), filter);
    }
    NothingUnread(logs, run.cursor, batch, filter, |batch|);
    assert batch[..|batch|] == batch;
  }

  lemma {:induction false} NothingUnread(logs: Logs, cursor: Cursor, batch: Snapshot, filter: Filter, n: nat)
    requires Batch(logs, batch) && n <= |batch|
    requires cursor.files.Keys == logs.Keys && forall rel :: rel in logs ==> cursor.files[rel].line == |logs[rel].lines|
    ensures ReadFiles(batch[..n], cursor, filter).Success?
    ensures var (fileReads, table) := ReadFiles(batch[..n], cursor, filter).value;
            AllRows(fileReads) == [] && InputRows(fileReads) == 0
  {
    if n > 0 {
      NothingUnread(logs, cursor, batch, filter, n - 1);
      ReadFilesStep(batch, n - 1, cursor, filter);
      var file := batch[n - 1];
      assert Unread(file, FileStateOf(cursor.files, file.rel)) == [];
      var (sofar, table) := ReadFiles(batch[..n - 1], cursor, filter).value;
      var (fileRead, _) := ReadFile(file, FileStateOf(cursor.files, file.rel), table, filter).value;
      OneMoreRead(sofar, fileRead);
    }
  }
}
