/** What holds of every state the live reader can reach, and the two places where
    the obvious claim is false of the code, each with its exact condition. */
module CodexLiveInvariants {
  import opened Basics
  import opened CodexLive
  import opened CodexLiveProofs
  import opened Sorting

  // ----- Keys and records -----------------------------------------------------

  ghost predicate Keyed(table: Pending) {
    forall key :: key in table ==> key == PendingKey(table[key].sessionId, table[key].turnId)
  }

  ghost predicate Named(table: Pending) {
    Keyed(table) && forall key :: key in table ==> table[key].sessionId != "" && table[key].turnId != ""
  }

  lemma NamedLine(st: Reading, line: Line, rel: string, filter: Filter)
    requires Named(st.table) && st.place.sessionId != ""
    ensures Named(ReadLine(st, line, rel, filter).table) && ReadLine(st, line, rel, filter).place.sessionId != ""
  {
    if line.Entry? && TouchedKey(st.place, line.event).Some? {
      var key := TouchedKey(st.place, line.event).value;
      var slot := NextSlot(Slot(st.table, key), st.place, rel, line.timestamp, line.event);
      assert slot.Some? ==> slot.value.sessionId != "" && slot.value.turnId != ""
                            && key == PendingKey(slot.value.sessionId, slot.value.turnId);
    }
  }

  lemma {:induction false} NamedLines(st: Reading, lines: seq<Line>, rel: string, filter: Filter)
    requires Named(st.table) && st.place.sessionId != ""
    ensures Named(ReadLines(st, lines, rel, filter).table)
    ensures ReadLines(st, lines, rel, filter).place.sessionId != ""
  {
    if lines != [] {
      NamedLines(st, lines[..|lines| - 1], rel, filter);
      NamedLine(ReadLines(st, lines[..|lines| - 1], rel, filter), lines[|lines| - 1], rel, filter);
    }
  }

  lemma {:induction false} NamedFiles(snap: Snapshot, cursor: Cursor, filter: Filter)
    requires Named(cursor.pending)
    requires forall i :: 0 <= i < |snap| ==> snap[i].defaultSession != ""
    ensures ReadFiles(snap, cursor, filter).Success? ==> Named(ReadFiles(snap, cursor, filter).value.1)
  {
    if snap != [] {
      var last := snap[|snap| - 1];
      NamedFiles(snap[..|snap| - 1], cursor, filter);
      if ReadFiles(snap[..|snap| - 1], cursor, filter).Success? {
        var prior := FileStateOf(cursor.files, last.rel);
        var table := ReadFiles(snap[..|snap| - 1], cursor, filter).value.1;
        NamedLines(Reading(Restore(last, prior), table, [], 0), Unread(last, prior), last.rel, filter);
      }
    }
  }

  ghost predicate DefaultsIn(snaps: seq<Snapshot>, names: set<string>) {
    forall p, i :: 0 <= p < |snaps| && 0 <= i < |snaps[p]| ==> snaps[p][i].defaultSession in names
  }

  lemma {:induction false} NamedRuns(snaps: seq<Snapshot>, names: set<string>, filter: Filter)
    requires DefaultsIn(snaps, names) && "" !in names
    ensures Named(RunPolls(snaps, filter).cursor.pending)
  {
    if snaps != [] {
      var init, last := snaps[..|snaps| - 1], snaps[|snaps| - 1];
      NamedRuns(init, names, filter);
      forall i | 0 <= i < |last|
        ensures last[i].defaultSession != ""
      {
        assert snaps[|snaps| - 1][i].defaultSession in names;
      }
      NamedFiles(last, RunPolls(init, filter).cursor, filter);
    }
  }

  lemma ReadTwoFiles(first: SessionFile, second: SessionFile, cursor: Cursor, filter: Filter)
    ensures ReadFiles([first], cursor, filter) == PlusFile(([], cursor.pending), first, cursor, filter)
    ensures ReadFiles([first], cursor, filter).Success? ==>
              ReadFiles([first, second], cursor, filter)
              == PlusFile(ReadFiles([first], cursor, filter).value, second, cursor, filter)
  {
    assert [first][..0] == [];
    assert ReadFiles([first][..0], cursor, filter) == Success(([], cursor.pending));
    assert [first, second][..1] == [first];
  }

  lemma TwoPolls(first: Snapshot, second: Snapshot, filter: Filter)
    ensures RunPolls([first], filter) == PollOnce(START, first, filter)
    ensures RunPolls([first, second], filter) == PollOnce(RunPolls([first], filter), second, filter)
    ensures Consumed([first]) == if Rejected(first, map[]) then map[] else SeenAfter(map[], first)
    ensures Consumed([first, second])
         == if Rejected(second, Consumed([first])) then Consumed([first]) else SeenAfter(Consumed([first]), second)
  {
    var one, two: seq<Snapshot> := [first], [first, second];
    assert one[..0] == [] && two[..1] == one;
    assert RunPolls(one[..0], filter) == START && Consumed(one[..0]) == map[];
  }

  /** Three entries of a log whose file name gives no session id. */
  const NAMELESS := SessionFile("log", "", [
    Entry("", TaskStarted("a::b")), Entry("", SessionMeta("::a", "")), Entry("", UserMessage("b", "hi"))])

  /** After all three entries the record under "::a::b" says its key is "::a::a::b". */
  lemma NamelessTable(filter: Filter)
    ensures var table := ReadLines(FreshReading(NAMELESS), NAMELESS.lines, "log", filter).table;
            !Keyed(table)
  {
    var st0, lines := FreshReading(NAMELESS), NAMELESS.lines;
    var key := PendingKey("", "a::b");
    assert key == "::a::b" == PendingKey("::a", "b");
    assert lines[..0] == [] && lines[..3] == lines;
    ReadLinesStep(st0, lines, 0, "log", filter);
    ReadLinesStep(st0, lines, 1, "log", filter);
    ReadLinesStep(st0, lines, 2, "log", filter);
    var st1 := ReadLines(st0, lines[..1], "log", filter);
    NamelessStart(filter);
    assert key in st1.table && st1.table[key].sessionId == "" && st1.table[key].turnId == "a::b";
    var st2 := ReadLines(st0, lines[..2], "log", filter);
    assert st2.table == st1.table && st2.place == Place("::a", "", "a::b");
    var st3 := ReadLines(st0, lines, "log", filter);
    assert key in st3.table && st3.table[key].sessionId == "::a" && st3.table[key].turnId == "a::b";
    assert |PendingKey("::a", "a::b")| != |key|;
  }

  lemma NamelessStart(filter: Filter)
    ensures ReadLine(FreshReading(NAMELESS), NAMELESS.lines[0], "log", filter)
         == Reading(Place("", "", "a::b"),
                    map["::a::b" := PendingTurn("", "", "a::b", "", "", "", "", "log", [])], [], 1)
  {
    assert PendingKey("", "a::b") == "::a::b";
  }

  lemma NamelessBreaksKeys(filter: Filter)
    ensures !Keyed(RunPolls([[NAMELESS]], filter).cursor.pending)
  {
    NamelessTable(filter);
    FirstMalformedIs(NAMELESS.lines, 3);
    assert Unread(NAMELESS, None) == NAMELESS.lines;
    ReadTwoFiles(NAMELESS, NAMELESS, START.cursor, filter);
    TwoPolls([NAMELESS], [NAMELESS], filter);
  }

  /** Each key of the pending table is the `session::turn` of its own record in
      every reachable state, exactly when no log file has a name that leaves the
      session id blank.  (With a blank session id, `_ensure_pending` later fills
      it in on a record that keeps its old key.) */
  lemma PendingKeysNameTheirRecords(names: set<string>)
    ensures (forall snaps, filter :: DefaultsIn(snaps, names) ==> Keyed(RunPolls(snaps, filter).cursor.pending))
        <==> "" !in names
  {
    if "" !in names {
      forall snaps, filter | DefaultsIn(snaps, names)
        ensures Keyed(RunPolls(snaps, filter).cursor.pending)
      {
        NamedRuns(snaps, names, filter);
      }
    } else {
      NamelessBreaksKeys(Filter([], []));
      assert DefaultsIn([[NAMELESS]], names);
    }
  }

  // ----- Which turns are pending -----------------------------------------------

  /** The last entry about a key, if any. */
  function LastTouch(place: Place, lines: seq<Line>, key: string): Option<Event> {
    if lines == [] then None
    else
      var init, last := lines[..|lines| - 1], lines[|lines| - 1];
      if key in KeyOfLine(PlaceAfter(place, init), last) then Some(last.event) else LastTouch(place, init, key)
  }

  predicate Finishes(event: Event) {
    event.TaskComplete? || event.TurnAborted?
  }

  /** A turn is pending exactly when the last entry about it did not finish it. */
  lemma {:induction false} PendingIffUnfinished(place: Place, lines: seq<Line>, key: string, rel: string,
                                                filter: Filter)
    ensures key in ReadLines(Reading(place, map[], [], 0), lines, rel, filter).table
       <==> LastTouch(place, lines, key).Some? && !Finishes(LastTouch(place, lines, key).value)
  {
    if lines != [] {
      var init, last := lines[..|lines| - 1], lines[|lines| - 1];
      var start := Reading(place, map[], [], 0);
      PendingIffUnfinished(place, init, key, rel, filter);
      Frame(start, start, init, KeysTouched(place, init), [], 0, rel, filter);
      var st := ReadLines(start, init, rel, filter);
      assert st.place == PlaceAfter(place, init);
      LineChangesItsSlot(st, last, key, rel, filter);
    }
  }

  lemma LineChangesItsSlot(st: Reading, line: Line, key: string, rel: string, filter: Filter)
    ensures key !in KeyOfLine(st.place, line) ==>
              Slot(ReadLine(st, line, rel, filter).table, key) == Slot(st.table, key)
    ensures key in KeyOfLine(st.place, line) ==>
              (key in ReadLine(st, line, rel, filter).table <==> !Finishes(line.event))
  {
  }

  /** Over any schedule, a file's slots of the shared table are what the lines of
      that file consumed so far give on their own. */
  lemma RunSlotIsSolo(logs: Logs, snaps: seq<Snapshot>, filter: Filter, rel: string, key: string)
    requires WellKept(logs) && Schedule(logs, snaps) && rel in logs && key in Owned(logs[rel])
    ensures Slot(RunPolls(snaps, filter).cursor.pending, key)
         == Slot(Solo(logs[rel], SeenOf(Consumed(snaps), rel), filter).table, key)
  {
    var solo := SoloReader(logs, filter);
    ScheduleKeepsCanon(logs, snaps, solo, filter);
    assert solo(rel, SeenOf(Consumed(snaps), rel)) == Solo(logs[rel], SeenOf(Consumed(snaps), rel), filter);
  }

  /** In every reachable state of the shared table, a turn of a file is pending
      exactly when the last entry about it among the lines consumed did not finish
      it; and no other key is in the table. */
  lemma RunPendingIffUnfinished(logs: Logs, snaps: seq<Snapshot>, filter: Filter, rel: string, key: string)
    requires WellKept(logs) && Schedule(logs, snaps) && rel in logs && key in Owned(logs[rel])
    ensures var lines := Prefix(logs[rel].lines, SeenOf(Consumed(snaps), rel));
            var last := LastTouch(FreshReading(logs[rel]).place, lines, key);
            key in RunPolls(snaps, filter).cursor.pending <==> last.Some? && !Finishes(last.value)
    ensures forall other :: other in RunPolls(snaps, filter).cursor.pending ==> SomeOwner(logs, other)
  {
    var lines := Prefix(logs[rel].lines, SeenOf(Consumed(snaps), rel));
    RunSlotIsSolo(logs, snaps, filter, rel, key);
    PendingIffUnfinished(FreshReading(logs[rel]).place, lines, key, rel, filter);
    ScheduleKeepsCanon(logs, snaps, SoloReader(logs, filter), filter);
  }

  // ----- Emitted rows ------------------------------------------------------------

  ghost predicate Clean(row: Row, filter: Filter) {
    && row.sessionId != "" && row.turnId != "" && row.threadId != ""
    && (row.userText != "" || row.assistantText != "")
    && CwdAllowed(row.workspace, filter)
    && (forall i, j :: 0 <= i < j < |row.observations| ==> row.observations[i] != row.observations[j])
    && "source=codex_live" in row.observations
  }

  ghost predicate AllClean(rows: seq<Row>, filter: Filter) {
    forall i :: 0 <= i < |rows| ==> Clean(rows[i], filter)
  }

  lemma EmittedRowIsClean(slot: Option<PendingTurn>, place: Place, rel: string, timestamp: string, event: Event,
                          filter: Filter)
    requires EmittedRow(slot, place, rel, timestamp, event, filter).Some?
    ensures Clean(EmittedRow(slot, place, rel, timestamp, event, filter).value, filter)
  {
    var p := Completed(slot, place, rel, timestamp, event);
    assert OrElse(p.workspace, place.cwd) == p.workspace;
    assert RawObservations(p)[0] == "source=codex_live";
    assert "source=codex_live" in RawObservations(p);
  }

  function Completions(lines: seq<Line>): nat {
    if lines == [] then 0
    else
      var last := lines[|lines| - 1];
      Completions(lines[..|lines| - 1]) + if last.Entry? && last.event.TaskComplete? then 1 else 0
  }

  lemma {:induction false} RowsFromCompletions(st: Reading, lines: seq<Line>, rel: string, filter: Filter)
    requires AllClean(st.rows, filter)
    ensures AllClean(ReadLines(st, lines, rel, filter).rows, filter)
    ensures |st.rows| <= |ReadLines(st, lines, rel, filter).rows| <= |st.rows| + Completions(lines)
  {
    if lines != [] {
      var init, last := lines[..|lines| - 1], lines[|lines| - 1];
      RowsFromCompletions(st, init, rel, filter);
      var before := ReadLines(st, init, rel, filter);
      if last.Entry? && TouchedKey(before.place, last.event).Some? {
        var slot := Slot(before.table, TouchedKey(before.place, last.event).value);
        if EmittedRow(slot, before.place, rel, last.timestamp, last.event, filter).Some? {
          EmittedRowIsClean(slot, before.place, rel, last.timestamp, last.event, filter);
        }
      }
    }
  }

  /** Over any schedule: the rows of a file are clean, and never more than the
      completions among the lines consumed. */
  lemma RunRowsAreClean(logs: Logs, snaps: seq<Snapshot>, filter: Filter, rel: string)
    requires WellKept(logs) && Schedule(logs, snaps) && rel in Consumed(snaps)
    ensures rel in logs && rel in RunPolls(snaps, filter).rowsBy && Consumed(snaps)[rel] <= |logs[rel].lines|
    ensures AllClean(RunPolls(snaps, filter).rowsBy[rel], filter)
    ensures |RunPolls(snaps, filter).rowsBy[rel]| <= Completions(logs[rel].lines[..Consumed(snaps)[rel]])
  {
    ScheduleKeepsCanon(logs, snaps, SoloReader(logs, filter), filter);
    var n := Consumed(snaps)[rel];
    assert RunPolls(snaps, filter).rowsBy[rel] == Solo(logs[rel], n, filter).rows;
    RowsFromCompletions(FreshReading(logs[rel]), Prefix(logs[rel].lines, n), rel, filter);
  }

  // ----- Shared keys ---------------------------------------------------------------

  /** The order in which a poll reads its files: by path, in lower case. */
  predicate PathLeq(a: string, b: string) {
    StrLeq(Lower(a), Lower(b))
  }

  ghost predicate InPathOrder(snap: Snapshot) {
    forall i, j :: 0 <= i < j < |snap| ==> PathLeq(snap[i].rel, snap[j].rel)
  }

  /** A schedule of polls, and a batch, that each read their files in path order. */
  ghost predicate Ordered(logs: Logs, snaps: seq<Snapshot>, batch: Snapshot) {
    && Schedule(logs, snaps) && Batch(logs, batch) && Consumed(snaps) == Everything(logs)
    && InPathOrder(batch) && forall i :: 0 <= i < |snaps| ==> InPathOrder(snaps[i])
  }

  /** A log whose one entry answers a turn, and one whose one entry asks it. */
  function Answers(rel: string, session: string, turn: string): SessionFile {
    SessionFile(rel, session, [Entry("", TaskComplete(turn, "answer"))])
  }

  function Questions(rel: string, session: string, turn: string): SessionFile {
    SessionFile(rel, session, [Entry("", UserMessage(turn, "question"))])
  }

  lemma OneLineReads(file: SessionFile, table: Pending, filter: Filter)
    requires |file.lines| == 1 && file.lines[0].Entry?
    ensures var start := Reading(Place(file.defaultSession, "", ""), table, [], 0);
            var st := ReadLine(start, file.lines[0], file.rel, filter);
            ReadFile(file, None, table, filter)
            == Success((FileRead(file.rel, st.rows, st.count, FileState(1, st.place)), st.table))
  {
    var unread, st := Unread(file, None), Reading(Restore(file, None), table, [], 0);
    FirstMalformedIs(unread, |unread|);
    assert unread == file.lines && unread[..0] == [];
    assert ReadLines(st, unread[..0], file.rel, filter) == st;
    assert ReadLines(st, unread, file.rel, filter) == ReadLine(st, unread[0], file.rel, filter);
  }

  lemma QuestionIsPending(rel: string, session: string, turn: string, table: Pending, filter: Filter)
    requires turn != ""
    ensures var r := ReadFile(Questions(rel, session, turn), None, table, filter);
            r.Success? && r.value.0.rel == rel && r.value.0.state.line == 1 && PendingKey(session, turn) in r.value.1
  {
    OneLineReads(Questions(rel, session, turn), table, filter);
  }

  lemma AnswerFinishes(rel: string, session: string, turn: string, table: Pending, filter: Filter)
    requires turn != ""
    ensures var r := ReadFile(Answers(rel, session, turn), None, table, filter);
            r.Success? && PendingKey(session, turn) !in r.value.1
  {
    OneLineReads(Answers(rel, session, turn), table, filter);
  }

  lemma NothingNew(file: SessionFile, prior: FileState, table: Pending, filter: Filter)
    requires prior.line == |file.lines|
    ensures var r := ReadFile(file, Some(prior), table, filter);
            r.Success? && r.value.1 == table
  {
    assert Unread(file, Some(prior)) == [];
  }

  /** The pending table after a poll of two files. */
  lemma TableOfTwo(run: Run, first: SessionFile, second: SessionFile, filter: Filter)
    ensures var r1 := ReadFile(first, FileStateOf(run.cursor.files, first.rel), run.cursor.pending, filter);
            r1.Success? ==>
              var r2 := ReadFile(second, FileStateOf(run.cursor.files, second.rel), r1.value.1, filter);
              r2.Success? ==> PollOnce(run, [first, second], filter).cursor.pending == r2.value.1
  {
    ReadTwoFiles(first, second, run.cursor, filter);
  }

  /** The question alone leaves its turn pending and its one line read. */
  lemma QuestionPolled(rel: string, session: string, turn: string, filter: Filter)
    requires turn != ""
    ensures var cursor := PollOnce(START, [Questions(rel, session, turn)], filter).cursor;
            && PendingKey(session, turn) in cursor.pending && cursor.files.Keys == {rel} && cursor.files[rel].line == 1
  {
    var file := Questions(rel, session, turn);
    QuestionIsPending(rel, session, turn, map[], filter);
    ReadTwoFiles(file, file, START.cursor, filter);
    var (fileRead, table) := ReadFile(file, None, map[], filter).value;
    assert ReadFiles([file], START.cursor, filter) == Success(([fileRead], table)) by {
      assert [] + [fileRead] == [fileRead];
    }
    OneMoreRead([], fileRead);
    assert [] + [fileRead] == [fileRead];
    assert NextFiles([fileRead]) == map[rel := fileRead.state];
  }

  lemma SharedSchedule(a: string, b: string, session: string, turn: string)
    requires a != b
    ensures var answers, questions := Answers(a, session, turn), Questions(b, session, turn);
            var logs, batch := map[a := answers, b := questions], [answers, questions];
            && Schedule(logs, [[questions], batch]) && Batch(logs, batch)
            && Consumed([[questions], batch]) == Everything(logs)
  {
    var answers, questions := Answers(a, session, turn), Questions(b, session, turn);
    var logs, batch := map[a := answers, b := questions], [answers, questions];
    var snaps := [[questions], batch];
    TwoPolls([questions], batch, Filter([], []));
    assert snaps[..1] == [[questions]] && [[questions]][..0] == [];
    assert [questions][..0] == [];
    assert SeenAfter(map[], [questions]) == map[b := 1];
    assert batch[..1] == [answers] && [answers][..0] == [];
    assert Listed(batch, batch[0].rel) && Listed(batch, batch[1].rel);
    var seen: map<string, nat> := map[b := 1];
    assert SeenAfter(seen, [answers][..0]) == seen;
    assert SeenAfter(seen, [answers]) == seen[a := 1];
    assert SeenAfter(seen, batch) == seen[a := 1][b := 1];
  }

  lemma PollingFinishesTheTurn(a: string, b: string, session: string, turn: string, filter: Filter)
    requires a != b && turn != ""
    ensures var answers, questions := Answers(a, session, turn), Questions(b, session, turn);
            PendingKey(session, turn) !in RunPolls([[questions], [answers, questions]], filter).cursor.pending
  {
    var answers, questions := Answers(a, session, turn), Questions(b, session, turn);
    TwoPolls([questions], [answers, questions], filter);
    QuestionPolled(b, session, turn, filter);
    var polled := RunPolls([[questions]], filter);
    AnswerFinishes(a, session, turn, polled.cursor.pending, filter);
    NothingNew(questions, polled.cursor.files[b],
               ReadFile(answers, None, polled.cursor.pending, filter).value.1, filter);
    TableOfTwo(polled, answers, questions, filter);
  }

  lemma BatchLeavesTheTurn(a: string, b: string, session: string, turn: string, filter: Filter)
    requires turn != ""
    ensures var answers, questions := Answers(a, session, turn), Questions(b, session, turn);
            PendingKey(session, turn) in RunPolls([[answers, questions]], filter).cursor.pending
  {
    var answers, questions := Answers(a, session, turn), Questions(b, session, turn);
    var batch := [answers, questions];
    TwoPolls(batch, batch, filter);
    AnswerFinishes(a, session, turn, map[], filter);
    QuestionIsPending(b, session, turn, ReadFile(answers, None, map[], filter).value.1, filter);
    TableOfTwo(START, answers, questions, filter);
  }

  lemma PairInPathOrder(first: SessionFile, second: SessionFile)
    requires PathLeq(first.rel, second.rel)
    ensures InPathOrder([first, second]) && InPathOrder([second])
  {
  }

  lemma BothInPathOrder(first: Snapshot, second: Snapshot)
    requires InPathOrder(first) && InPathOrder(second)
    ensures forall i :: 0 <= i < 2 ==> InPathOrder([first, second][i])
  {
  }

  /** Two files that share a session and a turn: a batch that reads the answer first
      leaves the question pending; polled one after the other, the answer finishes
      the question.  So it is for any two paths, session, turn and filter; and if
      the answer's path comes first, every poll reads its files in path order. */
  lemma SharedKeysBreakRefinement(a: string, b: string, session: string, turn: string, filter: Filter)
    requires a != b && turn != ""
    ensures var answers, questions := Answers(a, session, turn), Questions(b, session, turn);
            var logs, batch := map[a := answers, b := questions], [answers, questions];
            var snaps, key := [[questions], batch], PendingKey(session, turn);
            && Schedule(logs, snaps) && Batch(logs, batch) && Consumed(snaps) == Everything(logs)
            && (PathLeq(a, b) ==> Ordered(logs, snaps, batch))
            && key !in RunPolls(snaps, filter).cursor.pending && key in RunPolls([batch], filter).cursor.pending
  {
    SharedSchedule(a, b, session, turn);
    PollingFinishesTheTurn(a, b, session, turn, filter);
    BatchLeavesTheTurn(a, b, session, turn, filter);
    if PathLeq(a, b) {
      var answers, questions := Answers(a, session, turn), Questions(b, session, turn);
      PairInPathOrder(answers, questions);
      BothInPathOrder([questions], [answers, questions]);
    }
  }

  // ----- When exactly polling refines a batch ---------------------------------------

  ghost predicate Refines(logs: Logs, filter: Filter) {
    forall snaps, batch :: Ordered(logs, snaps, batch) ==> RunPolls(snaps, filter) == RunPolls([batch], filter)
  }

  /** The logs stay within an allotment of pending keys to paths. */
  ghost predicate Allotted(logs: Logs, keys: map<string, set<string>>) {
    forall rel :: rel in logs ==> logs[rel].rel == rel && rel in keys && Owned(logs[rel]) <= keys[rel]
  }

  /** No two paths are allotted the key of one turn. */
  ghost predicate Apart(keys: map<string, set<string>>) {
    forall a, b, session, turn :: a in keys && b in keys && a != b && turn != "" ==>
      !(PendingKey(session, turn) in keys[a] && PendingKey(session, turn) in keys[b])
  }

  ghost predicate NamesTurn(key: string) {
    exists session, turn :: turn != "" && key == PendingKey(session, turn)
  }

  lemma {:induction false} TouchedKeysNameTurns(place: Place, lines: seq<Line>, key: string)
    requires key in KeysTouched(place, lines)
    ensures NamesTurn(key)
  {
    var init, last := lines[..|lines| - 1], lines[|lines| - 1];
    if key in KeysTouched(place, init) {
      TouchedKeysNameTurns(place, init, key);
    } else {
      var before := PlaceAfter(place, init);
      assert TurnOf(before, last.event) != "" && key == PendingKey(before.sessionId, TurnOf(before, last.event));
    }
  }

  lemma ApartIsWellKept(logs: Logs, keys: map<string, set<string>>)
    requires Allotted(logs, keys) && Apart(keys)
    ensures WellKept(logs)
  {
    forall r1, r2 | r1 in logs && r2 in logs && r1 != r2
      ensures Owned(logs[r1]) !! Owned(logs[r2])
    {
      forall key | key in Owned(logs[r1])
        ensures key !in Owned(logs[r2])
      {
        TouchedKeysNameTurns(FreshReading(logs[r1]).place, logs[r1].lines, key);
        var session, turn :| turn != "" && key == PendingKey(session, turn);
        assert PendingKey(session, turn) in keys[r1];
      }
    }
  }

  lemma OneLineOwns(file: SessionFile, turn: string)
    requires |file.lines| == 1 && file.lines[0].Entry? && TurnOf(FreshReading(file).place, file.lines[0].event) == turn
    ensures Owned(file) == if turn == "" then {} else {PendingKey(file.defaultSession, turn)}
  {
    assert file.lines[..0] == [];
    assert KeysTouched(FreshReading(file).place, file.lines[..0]) == {};
    assert PlaceAfter(FreshReading(file).place, file.lines[..0]) == FreshReading(file).place;
  }

  lemma SharedIsAllotted(keys: map<string, set<string>>, a: string, b: string, session: string, turn: string)
    requires a in keys && b in keys && a != b && turn != ""
    requires PendingKey(session, turn) in keys[a] && PendingKey(session, turn) in keys[b]
    ensures Allotted(map[a := Answers(a, session, turn), b := Questions(b, session, turn)], keys)
  {
    OneLineOwns(Answers(a, session, turn), turn);
    OneLineOwns(Questions(b, session, turn), turn);
  }

  lemma OneScheduleRefutes(logs: Logs, snaps: seq<Snapshot>, batch: Snapshot, filter: Filter)
    requires Ordered(logs, snaps, batch)
    requires RunPolls(snaps, filter).cursor.pending != RunPolls([batch], filter).cursor.pending
    ensures !Refines(logs, filter)
  {
  }

  lemma SharedAllotmentFails(keys: map<string, set<string>>, a: string, b: string, session: string, turn: string,
                             filter: Filter) returns (logs: Logs)
    requires a in keys && b in keys && a != b && PathLeq(a, b) && turn != ""
    requires PendingKey(session, turn) in keys[a] && PendingKey(session, turn) in keys[b]
    ensures Allotted(logs, keys) && !Refines(logs, filter)
  {
    var answers, questions := Answers(a, session, turn), Questions(b, session, turn);
    var batch := [answers, questions];
    logs := map[a := answers, b := questions];
    SharedIsAllotted(keys, a, b, session, turn);
    SharedKeysBreakRefinement(a, b, session, turn, filter);
    OneScheduleRefutes(logs, [[questions], batch], batch, filter);
  }

  /** Whatever the filter: polling in path order refines a batch read for all logs within an
      allotment of pending keys to paths, if and only if no two paths are allotted
      the same turn of the same session. */
  lemma RefinesIffKeysApart(keys: map<string, set<string>>, filter: Filter)
    ensures (forall logs :: Allotted(logs, keys) ==> Refines(logs, filter)) <==> Apart(keys)
  {
    if Apart(keys) {
      forall logs | Allotted(logs, keys)
        ensures Refines(logs, filter)
      {
        ApartIsWellKept(logs, keys);
        forall snaps, batch | Ordered(logs, snaps, batch)
          ensures RunPolls(snaps, filter) == RunPolls([batch], filter)
        {
          PollingRefinesBatch(logs, snaps, batch, filter);
        }
      }
    } else {
      var a, b, session, turn :| a in keys && b in keys && a != b && turn != ""
        && PendingKey(session, turn) in keys[a] && PendingKey(session, turn) in keys[b];
      StrTotal(Lower(a), Lower(b));
      if PathLeq(a, b) {
        var logs := SharedAllotmentFails(keys, a, b, session, turn, filter);
      } else {
        var logs := SharedAllotmentFails(keys, b, a, session, turn, filter);
      }
    }
  }
}
