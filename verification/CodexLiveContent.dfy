/** What the rows of the live reader say, told from the log alone: no table, no
    loop variables, only which lines are about a turn and in what order. */
module CodexLiveContent {
  import opened Basics
  import opened CodexLive
  import opened CodexLiveProofs
  import opened CodexLiveInvariants
  import opened CodexLivePlace

  // ----- A log as one turn sees it ------------------------------------------------

  /** A line about another turn or none; one that finishes the turn; or one that
      says something, at some time, in some directory. */
  datatype Mark = Elsewhere | Closing | Open(said: string, stamp: string, dir: string, context: bool)

  /** The line after `before`, as the turn under the key sees it. */
  function MarkOf(file: SessionFile, before: seq<Line>, line: Line, key: string): Mark {
    if !IsAbout(file, before, line, key) then Elsewhere
    else if line.event.TaskComplete? || line.event.TurnAborted? then Closing
    else
      var event, dir := line.event, DirectoryBy(before);
      Open(if event.UserMessage? then event.message else "", line.timestamp,
           if event.TurnContext? && event.turnCwd != "" then event.turnCwd else dir, event.TurnContext?)
  }

  function Marks(file: SessionFile, lines: seq<Line>, key: string): seq<Mark> {
    if lines == [] then []
    else
      var init := lines[..|lines| - 1];
      Marks(file, init, key) + [MarkOf(file, init, lines[|lines| - 1], key)]
  }

  /** The turn has not been finished at or after line i. */
  ghost predicate Running(marks: seq<Mark>, i: int) {
    forall m :: 0 <= m < |marks| && i <= m ==> !marks[m].Closing?
  }

  /** Some line since the turn was last finished is about it. */
  ghost predicate Begun(marks: seq<Mark>) {
    exists i :: 0 <= i < |marks| && marks[i].Open? && Running(marks, i)
  }

  ghost predicate Says(marks: seq<Mark>, i: int) {
    0 <= i < |marks| && marks[i].Open? && marks[i].said != "" && Running(marks, i)
  }

  ghost predicate Stamps(marks: seq<Mark>, i: int) {
    0 <= i < |marks| && marks[i].Open? && marks[i].stamp != "" && Running(marks, i)
  }

  ghost predicate Located(marks: seq<Mark>, i: int) {
    0 <= i < |marks| && marks[i].Open? && marks[i].dir != "" && Running(marks, i)
  }

  ghost predicate InContext(marks: seq<Mark>, i: int) {
    Located(marks, i) && marks[i].context
  }

  /** The last user message since the turn was last finished. */
  ghost predicate Asked(marks: seq<Mark>, text: string) {
    if text == "" then forall i :: !Says(marks, i)
    else exists i :: Says(marks, i) && marks[i].said == text && forall j :: Says(marks, j) ==> j <= i
  }

  /** The first time given since then. */
  ghost predicate Dated(marks: seq<Mark>, time: string) {
    if time == "" then forall i :: !Stamps(marks, i)
    else exists i :: Stamps(marks, i) && marks[i].stamp == time && forall j :: Stamps(marks, j) ==> i <= j
  }

  ghost predicate LastContext(marks: seq<Mark>, dir: string) {
    exists i :: InContext(marks, i) && marks[i].dir == dir && forall j :: InContext(marks, j) ==> j <= i
  }

  ghost predicate FirstDir(marks: seq<Mark>, dir: string) {
    && (forall i :: !InContext(marks, i))
    && exists i :: Located(marks, i) && marks[i].dir == dir && forall j :: Located(marks, j) ==> i <= j
  }

  /** The directory of the last turn context since then, or else the first one. */
  ghost predicate Placed(marks: seq<Mark>, dir: string) {
    if dir == "" then forall i :: !Located(marks, i) else LastContext(marks, dir) || FirstDir(marks, dir)
  }

  // ----- One more line --------------------------------------------------------------

  lemma RunningStep(marks: seq<Mark>, mark: Mark, i: nat)
    requires i < |marks|
    ensures Running(marks + [mark], i) <==> Running(marks, i) && !mark.Closing?
    ensures (marks + [mark])[i] == marks[i]
  {
    var more := marks + [mark];
    assert forall m :: 0 <= m < |marks| ==> more[m] == marks[m];
    assert more[|marks|] == mark;
  }

  lemma MarksStep(marks: seq<Mark>, mark: Mark)
    ensures var more := marks + [mark];
            && (forall i :: 0 <= i < |marks| ==> (Says(more, i) <==> Says(marks, i) && !mark.Closing?))
            && (forall i :: 0 <= i < |marks| ==> (Stamps(more, i) <==> Stamps(marks, i) && !mark.Closing?))
            && (forall i :: 0 <= i < |marks| ==> (Located(more, i) <==> Located(marks, i) && !mark.Closing?))
            && (forall i :: 0 <= i < |marks| ==> (InContext(more, i) <==> InContext(marks, i) && !mark.Closing?))
            && (forall i :: 0 <= i < |marks| ==> more[i] == marks[i])
            && more[|marks|] == mark
            && (Says(more, |marks|) <==> mark.Open? && mark.said != "")
            && (Stamps(more, |marks|) <==> mark.Open? && mark.stamp != "")
            && (Located(more, |marks|) <==> mark.Open? && mark.dir != "")
            && (InContext(more, |marks|) <==> mark.Open? && mark.dir != "" && mark.context)
  {
    forall i | 0 <= i < |marks|
      ensures Running(marks + [mark], i) <==> Running(marks, i) && !mark.Closing?
    {
      RunningStep(marks, mark, i);
    }
  }

  function AfterSaying(mark: Mark, text: string): string {
    match mark
    case Elsewhere => text
    case Closing => ""
    case Open(said, _, _, _) => OrElse(said, text)
  }

  function AfterStamping(mark: Mark, time: string): string {
    match mark
    case Elsewhere => time
    case Closing => ""
    case Open(_, stamp, _, _) => OrElse(time, stamp)
  }

  function AfterMoving(mark: Mark, dir: string): string {
    match mark
    case Elsewhere => dir
    case Closing => ""
    case Open(_, _, next, context) => if context then OrElse(next, dir) else OrElse(dir, next)
  }

  lemma AskedStep(marks: seq<Mark>, mark: Mark, text: string)
    requires Asked(marks, text)
    ensures Asked(marks + [mark], AfterSaying(mark, text))
  {
    var more := marks + [mark];
    MarksStep(marks, mark);
    if mark.Open? && mark.said != "" {
      assert Says(more, |marks|) && more[|marks|].said == mark.said;
    } else if text != "" && !mark.Closing? {
      var i :| Says(marks, i) && marks[i].said == text && forall j :: Says(marks, j) ==> j <= i;
      assert Says(more, i) && more[i].said == text;
    }
  }

  lemma DatedStep(marks: seq<Mark>, mark: Mark, time: string)
    requires Dated(marks, time)
    ensures Dated(marks + [mark], AfterStamping(mark, time))
  {
    var more := marks + [mark];
    MarksStep(marks, mark);
    if time != "" && !mark.Closing? {
      var i :| Stamps(marks, i) && marks[i].stamp == time && forall j :: Stamps(marks, j) ==> i <= j;
      assert Stamps(more, i) && more[i].stamp == time;
    } else if mark.Open? && mark.stamp != "" {
      assert Stamps(more, |marks|) && more[|marks|].stamp == mark.stamp;
    }
  }

  lemma ContextStays(marks: seq<Mark>, mark: Mark, dir: string)
    requires LastContext(marks, dir) && !mark.Closing?
    requires mark.Open? ==> mark.dir == "" || !mark.context
    ensures LastContext(marks + [mark], dir)
  {
    MarksStep(marks, mark);
    var i :| InContext(marks, i) && marks[i].dir == dir && forall j :: InContext(marks, j) ==> j <= i;
    assert InContext(marks + [mark], i) && (marks + [mark])[i].dir == dir;
  }

  lemma FirstDirStays(marks: seq<Mark>, mark: Mark, dir: string)
    requires FirstDir(marks, dir) && !mark.Closing?
    requires mark.Open? ==> mark.dir == "" || !mark.context
    ensures FirstDir(marks + [mark], dir)
  {
    MarksStep(marks, mark);
    var i :| Located(marks, i) && marks[i].dir == dir && forall j :: Located(marks, j) ==> i <= j;
    assert Located(marks + [mark], i) && (marks + [mark])[i].dir == dir;
  }

  lemma DirStarts(marks: seq<Mark>, mark: Mark)
    requires mark.Open? && mark.dir != "" && (mark.context || forall i :: !Located(marks, i))
    ensures Placed(marks + [mark], mark.dir)
  {
    MarksStep(marks, mark);
    var more := marks + [mark];
    assert Located(more, |marks|) && more[|marks|].dir == mark.dir;
    if mark.context {
      assert InContext(more, |marks|);
    } else {
      assert forall i :: InContext(more, i) ==> Located(more, i);
    }
  }

  lemma PlacedStep(marks: seq<Mark>, mark: Mark, dir: string)
    requires Placed(marks, dir)
    ensures Placed(marks + [mark], AfterMoving(mark, dir))
  {
    if mark.Open? && mark.dir != "" && (mark.context || dir == "") {
      DirStarts(marks, mark);
    } else if dir != "" && !mark.Closing? {
      if LastContext(marks, dir) {
        ContextStays(marks, mark, dir);
      } else {
        FirstDirStays(marks, mark, dir);
      }
    } else {
      MarksStep(marks, mark);
    }
  }

  lemma BegunStep(marks: seq<Mark>, mark: Mark)
    ensures Begun(marks + [mark]) <==> mark.Open? || (Begun(marks) && mark.Elsewhere?)
  {
    var more := marks + [mark];
    assert more[|marks|] == mark;
    assert Running(more, |marks|) <==> !mark.Closing?;
    forall i | 0 <= i < |marks|
      ensures Running(more, i) <==> Running(marks, i) && !mark.Closing?
      ensures more[i] == marks[i]
    {
      RunningStep(marks, mark, i);
    }
    if Begun(marks) && mark.Elsewhere? {
      var i :| 0 <= i < |marks| && marks[i].Open? && Running(marks, i);
      assert more[i].Open? && Running(more, i);
    }
  }

  lemma AskedOnce(marks: seq<Mark>, text1: string, text2: string)
    requires Asked(marks, text1) && Asked(marks, text2)
    ensures text1 == text2
  {
  }

  lemma PlacedOnce(marks: seq<Mark>, dir1: string, dir2: string)
    requires Placed(marks, dir1) && Placed(marks, dir2)
    ensures dir1 == dir2
  {
  }

  // ----- The pending record ------------------------------------------------------------

  /** The record under a key is what the log says about its turn so far. */
  ghost predicate Told(marks: seq<Mark>, slot: Option<PendingTurn>, rel: string) {
    && (slot.Some? <==> Begun(marks))
    && Asked(marks, UserOf(slot)) && Dated(marks, TimeOf(slot)) && Placed(marks, DirOf(slot))
    && Unanswered(slot, rel)
  }

  /** A pending record has no answer yet, and is filed under its own log. */
  predicate Unanswered(slot: Option<PendingTurn>, rel: string) {
    slot.Some? ==>
      && slot.value.assistantText == "" && slot.value.threadId == slot.value.sessionId
      && slot.value.sessionFile == rel && slot.value.observations == []
  }

  function UserOf(slot: Option<PendingTurn>): string {
    if slot.Some? then slot.value.userText else ""
  }

  function TimeOf(slot: Option<PendingTurn>): string {
    if slot.Some? then slot.value.timestamp else ""
  }

  function DirOf(slot: Option<PendingTurn>): string {
    if slot.Some? then slot.value.workspace else ""
  }

  /** What a line about the turn does to the record, field by field. */
  lemma FieldsFollow(slot: Option<PendingTurn>, file: SessionFile, before: seq<Line>, line: Line, key: string)
    requires IsAbout(file, before, line, key) && Unanswered(slot, file.rel)
    requires TurnOf(PlaceBy(file, before), line.event) == TurnBy(before, line.event)
    ensures var next := NextSlot(slot, PlaceBy(file, before), file.rel, line.timestamp, line.event);
            var mark := MarkOf(file, before, line, key);
            && (next.Some? <==> mark.Open?)
            && UserOf(next) == AfterSaying(mark, UserOf(slot))
            && TimeOf(next) == AfterStamping(mark, TimeOf(slot))
            && DirOf(next) == AfterMoving(mark, DirOf(slot))
            && Unanswered(next, file.rel)
  {
  }

  lemma SlotFollows(st: Reading, line: Line, key: string, rel: string, filter: Filter)
    ensures Slot(ReadLine(st, line, rel, filter).table, key)
         == if key !in KeyOfLine(st.place, line) then Slot(st.table, key)
            else NextSlot(Slot(st.table, key), st.place, rel, line.timestamp, line.event)
  {
  }

  lemma ToldStep(file: SessionFile, before: seq<Line>, st: Reading, line: Line, key: string, filter: Filter)
    requires Told(Marks(file, before, key), Slot(st.table, key), file.rel)
    requires st.place == PlaceAfter(FreshReading(file).place, before)
    ensures Told(Marks(file, before, key) + [MarkOf(file, before, line, key)],
                 Slot(ReadLine(st, line, file.rel, filter).table, key), file.rel)
  {
    var marks, mark, slot := Marks(file, before, key), MarkOf(file, before, line, key), Slot(st.table, key);
    SlotFollows(st, line, key, file.rel, filter);
    KeyIsTold(file, before, line, key);
    PlaceIsTold(file, before);
    BegunStep(marks, mark);
    AskedStep(marks, mark, UserOf(slot));
    DatedStep(marks, mark, TimeOf(slot));
    PlacedStep(marks, mark, DirOf(slot));
    if IsAbout(file, before, line, key) {
      FieldsFollow(slot, file, before, line, key);
    }
  }

  lemma {:induction false} RecordsTellTheLog(file: SessionFile, lines: seq<Line>, key: string, filter: Filter)
    ensures Told(Marks(file, lines, key),
                 Slot(ReadLines(FreshReading(file), lines, file.rel, filter).table, key), file.rel)
  {
    if lines != [] {
      var init, last := lines[..|lines| - 1], lines[|lines| - 1];
      var start := FreshReading(file);
      RecordsTellTheLog(file, init, key, filter);
      Frame(start, start, init, KeysTouched(start.place, init), [], 0, file.rel, filter);
      ToldStep(file, init, ReadLines(start, init, file.rel, filter), last, key, filter);
    }
  }

  /** Over any schedule: a turn has a record in the shared table exactly when the
      lines of its file consumed so far begin it after last finishing it, and the
      record tells what those lines say. */
  lemma RunRecordsTellTheLog(logs: Logs, snaps: seq<Snapshot>, filter: Filter, rel: string, key: string)
    requires WellKept(logs) && Schedule(logs, snaps) && rel in logs && key in Owned(logs[rel])
    ensures Told(Marks(logs[rel], Prefix(logs[rel].lines, SeenOf(Consumed(snaps), rel)), key),
                 Slot(RunPolls(snaps, filter).cursor.pending, key), rel)
  {
    RunSlotIsSolo(logs, snaps, filter, rel, key);
    RecordsTellTheLog(logs[rel], Prefix(logs[rel].lines, SeenOf(Consumed(snaps), rel)), key, filter);
  }

  // ----- The rows --------------------------------------------------------------------------

  /** Line j completes a turn, and `row` is that turn as the log tells it: the last
      user message, the agent's last message, the first time, the directory, all
      since the turn was last finished. */
  ghost predicate CompletedTurn(file: SessionFile, j: int, row: Row, filter: Filter) {
    && 0 <= j < |file.lines| && file.lines[j].Entry? && file.lines[j].event.TaskComplete?
    && TurnTold(file, file.lines[..j], file.lines[j].timestamp, file.lines[j].event, row, filter)
  }

  ghost predicate TurnTold(file: SessionFile, before: seq<Line>, timestamp: string, event: Event, row: Row,
                           filter: Filter)
    requires event.TaskComplete?
  {
    var turn := TurnBy(before, event);
    var key := PendingKey(SessionBy(file, before), turn);
    var marks := Marks(file, before, key);
    && turn != "" && PendingKey(row.sessionId, row.turnId) == key
    && row.sessionId != "" && row.turnId != ""
    && Asked(marks, row.userText) && row.assistantText == event.lastAgentMessage
    && (row.userText != "" || row.assistantText != "")
    && (exists time :: Dated(marks, time) && row.timestamp == if time != "" then time else timestamp)
    && (exists dir :: Placed(marks, dir) && row.workspace == if dir != "" then dir else DirectoryBy(before))
    && Allowed(row.workspace, filter)
    && row.threadId == row.sessionId && row.observations == Notes(row.workspace, file.rel)
  }

  function Notes(workspace: string, rel: string): seq<string> {
    ["source=codex_live"]
    + (if workspace != "" then ["workspace=" + workspace] else [])
    + (if rel != "" then ["session_file=" + rel] else [])
  }

  lemma NotesAreDistinct(turn: PendingTurn)
    requires turn.observations == []
    ensures FirstOccurrences(RawObservations(turn)) == Notes(turn.workspace, turn.sessionFile)
  {
    var notes := Notes(turn.workspace, turn.sessionFile);
    assert RawObservations(turn) == notes;
    var source, dir, log := "source=codex_live", "workspace=" + turn.workspace, "session_file=" + turn.sessionFile;
    assert source[0] == 's' && source[1] == 'o' && dir[0] == 'w' && log[0] == 's' && log[1] == 'e';
    assert notes == [source] + (if turn.workspace != "" then [dir] else [])
                             + (if turn.sessionFile != "" then [log] else []);
    DistinctStay(notes);
  }

  lemma {:induction false} DistinctStay(values: seq<string>)
    requires forall i :: 0 <= i < |values| ==> values[i] != ""
    requires forall i, j :: 0 <= i < j < |values| ==> values[i] != values[j]
    ensures FirstOccurrences(values) == values
  {
    if values != [] {
      DistinctStay(values[..|values| - 1]);
      assert values == values[..|values| - 1] + [values[|values| - 1]];
    }
  }

  // ----- The workspace filter and the list of notes ---------------------------------------

  /** The same letter, whatever its case. */
  predicate SameLetter(a: char, b: char) {
    a == b || ('A' <= a <= 'Z' && b as int == a as int + 32) || ('A' <= b <= 'Z' && a as int == b as int + 32)
  }

  predicate Begins(text: string, prefix: string) {
    |prefix| <= |text| && forall i :: 0 <= i < |prefix| ==> SameLetter(text[i], prefix[i])
  }

  predicate BeginsWithOneOf(text: string, prefixes: seq<string>) {
    exists i :: 0 <= i < |prefixes| && Begins(text, prefixes[i])
  }

  /** With no directory known, only a filter that includes nothing by name lets the
      row through; a directory must begin like an included one, if any are given,
      and like no excluded one. */
  predicate Allowed(dir: string, filter: Filter) {
    if dir == "" then filter.includeCwds == []
    else
      && (filter.includeCwds == [] || BeginsWithOneOf(dir, filter.includeCwds))
      && !BeginsWithOneOf(dir, filter.excludeCwds)
  }

  lemma LowerPrefix(text: string, prefix: string)
    ensures Lower(prefix) <= Lower(text) <==> Begins(text, prefix)
  {
    if |prefix| <= |text| {
      assert forall i :: 0 <= i < |prefix| ==> (Lower(prefix)[i] == Lower(text)[i] <==> SameLetter(text[i], prefix[i]));
      if Lower(prefix) <= Lower(text) {
        assert forall i :: 0 <= i < |prefix| ==> Lower(prefix)[i] == Lower(text)[i];
      }
    }
  }

  lemma FilterIsAllowed(dir: string, filter: Filter)
    ensures CwdAllowed(dir, filter) <==> Allowed(dir, filter)
  {
    forall prefix
      ensures Lower(prefix) <= Lower(dir) <==> Begins(dir, prefix)
    {
      LowerPrefix(dir, prefix);
    }
  }

  /** `at` lists the places of the texts kept; no text is kept that occurs before. */
  ghost predicate FirstPlaces(values: seq<string>, kept: seq<string>, at: seq<nat>) {
    && |at| == |kept| && Increasing(at, |values|)
    && (forall k :: 0 <= k < |at| ==> kept[k] == values[at[k]])
    && forall k, m :: 0 <= k < |at| && 0 <= m < at[k] ==> values[m] != kept[k]
  }

  lemma FirstPlacesStep(values: seq<string>, last: string, kept: seq<string>, at: seq<nat>)
    requires FirstPlaces(values, kept, at)
    ensures FirstPlaces(values + [last], kept, at)
    ensures last !in values ==> FirstPlaces(values + [last], kept + [last], at + [|values|])
  {
    var more := values + [last];
    assert forall m :: 0 <= m < |values| ==> more[m] == values[m] && values[m] in values;
  }

  /** The texts kept are the first ones of their kind, in the order they came. */
  lemma {:induction false} FirstOnesInOrder(values: seq<string>) returns (at: seq<nat>)
    ensures FirstPlaces(values, FirstOccurrences(values), at)
  {
    if values == [] {
      at := [];
    } else {
      var init, last := values[..|values| - 1], values[|values| - 1];
      assert values == init + [last];
      at := FirstOnesInOrder(init);
      FirstPlacesStep(init, last, FirstOccurrences(init), at);
      if last != "" && last !in FirstOccurrences(init) {
        at := at + [|init|];
      }
    }
  }

  // ----- One file ---------------------------------------------------------------------------

  /** The row that line j emits when the file is read on its own. */
  function RowAt(file: SessionFile, j: nat, filter: Filter): Option<Row>
    requires j < |file.lines|
  {
    var st := ReadLines(FreshReading(file), file.lines[..j], file.rel, filter);
    var line := file.lines[j];
    if !line.Entry? || TouchedKey(st.place, line.event).None? then None
    else
      var slot := Slot(st.table, TouchedKey(st.place, line.event).value);
      EmittedRow(slot, st.place, file.rel, line.timestamp, line.event, filter)
  }

  /** The facts about the state before line j that the row depends on. */
  lemma StateBefore(file: SessionFile, j: nat, key: string, filter: Filter)
    requires j < |file.lines| && file.defaultSession != ""
    ensures var st := ReadLines(FreshReading(file), file.lines[..j], file.rel, filter);
            && st.place == PlaceBy(file, file.lines[..j])
            && st.place.sessionId != "" && Named(st.table)
            && Told(Marks(file, file.lines[..j], key), Slot(st.table, key), file.rel)
  {
    var start, lines := FreshReading(file), file.lines[..j];
    Frame(start, start, lines, KeysTouched(start.place, lines), [], 0, file.rel, filter);
    PlaceIsTold(file, lines);
    NamedLines(start, lines, file.rel, filter);
    RecordsTellTheLog(file, lines, key, filter);
  }

  lemma RowTellsItsTurn(file: SessionFile, j: nat, filter: Filter)
    requires j < |file.lines| && file.defaultSession != "" && RowAt(file, j, filter).Some?
    ensures CompletedTurn(file, j, RowAt(file, j, filter).value, filter)
  {
    var before, line := file.lines[..j], file.lines[j];
    var st := ReadLines(FreshReading(file), before, file.rel, filter);
    var key := TouchedKey(st.place, line.event).value;
    StateBefore(file, j, key, filter);
    assert TurnOf(st.place, line.event) == TurnBy(before, line.event);
    var slot := Slot(st.table, key);
    var time, dir := TimeOf(slot), DirOf(slot);
    var p := Completed(slot, st.place, file.rel, line.timestamp, line.event);
    assert p.workspace == OrElse(dir, st.place.cwd) && p.timestamp == OrElse(time, line.timestamp);
    NotesAreDistinct(p);
    FilterIsAllowed(p.workspace, filter);
    var marks := Marks(file, before, key);
    assert Dated(marks, time) && Placed(marks, dir);
  }

  lemma CompletedTurnHasRow(file: SessionFile, j: nat, row: Row, filter: Filter)
    requires file.defaultSession != "" && CompletedTurn(file, j, row, filter)
    ensures RowAt(file, j, filter).Some?
  {
    var before, line := file.lines[..j], file.lines[j];
    var st := ReadLines(FreshReading(file), before, file.rel, filter);
    var key := PendingKey(SessionBy(file, before), TurnBy(before, line.event));
    StateBefore(file, j, key, filter);
    assert TurnOf(st.place, line.event) == TurnBy(before, line.event);
    var marks := Marks(file, before, key);
    var slot := Slot(st.table, key);
    var dir := DirOf(slot);
    var told :| Placed(marks, told) && row.workspace == if told != "" then told else DirectoryBy(before);
    PlacedOnce(marks, dir, told);
    AskedOnce(marks, row.userText, UserOf(slot));
    FilterIsAllowed(row.workspace, filter);
  }

  ghost predicate Increasing(at: seq<nat>, bound: nat) {
    (forall i, j :: 0 <= i < j < |at| ==> at[i] < at[j]) && forall i :: 0 <= i < |at| ==> at[i] < bound
  }

  lemma RowsStep(file: SessionFile, j: nat, filter: Filter)
    requires j < |file.lines|
    ensures ReadLines(FreshReading(file), file.lines[..j + 1], file.rel, filter).rows
         == ReadLines(FreshReading(file), file.lines[..j], file.rel, filter).rows
            + AsList(RowAt(file, j, filter))
  {
    assert file.lines[..j + 1][..j] == file.lines[..j];
  }

  function RowsUpTo(file: SessionFile, filter: Filter): nat -> seq<Row> {
    (n: nat) => ReadLines(FreshReading(file), Prefix(file.lines, n), file.rel, filter).rows
  }

  function RowsAt(file: SessionFile, filter: Filter): nat -> Option<Row> {
    (j: nat) => if j < |file.lines| then RowAt(file, j, filter) else None
  }

  function AsList(row: Option<Row>): seq<Row> {
    match row case Some(r) => [r] case None => []
  }

  /** A list that grows by the value of each step, if it has one, lists the values
      of the steps that have one. */
  lemma {:induction false} Collected(upTo: nat -> seq<Row>, step: nat -> Option<Row>, n: nat) returns (at: seq<nat>)
    requires upTo(0) == [] && forall j: nat :: j < n ==> upTo(j + 1) == upTo(j) + AsList(step(j))
    ensures |at| == |upTo(n)| && Increasing(at, n)
    ensures forall i :: 0 <= i < |at| ==> step(at[i]) == Some(upTo(n)[i])
    ensures forall j: nat :: j < n && step(j).Some? ==> j in at
  {
    if n == 0 {
      at := [];
    } else {
      at := Collected(upTo, step, n - 1);
      assert upTo(n - 1 + 1) == upTo(n - 1) + AsList(step(n - 1));
      if step(n - 1).Some? {
        at := at + [n - 1];
      }
    }
  }

  /** The rows of the first n lines are those of the lines that emit one. */
  lemma RowsOfLines(file: SessionFile, n: nat, filter: Filter) returns (at: seq<nat>)
    requires n <= |file.lines|
    ensures |at| == |Solo(file, n, filter).rows| && Increasing(at, n)
    ensures forall i :: 0 <= i < |at| ==> RowAt(file, at[i], filter) == Some(Solo(file, n, filter).rows[i])
    ensures forall j: nat :: j < n && RowAt(file, j, filter).Some? ==> j in at
  {
    var upTo, step := RowsUpTo(file, filter), RowsAt(file, filter);
    forall j: nat | j < n
      ensures upTo(j + 1) == upTo(j) + AsList(step(j))
    {
      RowsStep(file, j, filter);
    }
    at := Collected(upTo, step, n);
    assert upTo(n) == Solo(file, n, filter).rows;
    forall i | 0 <= i < |at|
      ensures RowAt(file, at[i], filter) == Some(Solo(file, n, filter).rows[i])
    {
      assert step(at[i]) == RowAt(file, at[i], filter);
    }
    forall j: nat | j < n && RowAt(file, j, filter).Some?
      ensures j in at
    {
      assert step(j) == RowAt(file, j, filter);
    }
  }

  /** After any schedule of polls, the rows of a file are, in log order, exactly the
      completed turns among the lines consumed that have some text and an allowed
      workspace, each as the log tells it. */
  lemma RowsAreTheCompletedTurns(logs: Logs, snaps: seq<Snapshot>, filter: Filter, rel: string) returns (at: seq<nat>)
    requires WellKept(logs) && Schedule(logs, snaps) && rel in Consumed(snaps)
    requires rel in logs && logs[rel].defaultSession != ""
    ensures rel in RunPolls(snaps, filter).rowsBy && Increasing(at, Consumed(snaps)[rel])
    ensures var rows := RunPolls(snaps, filter).rowsBy[rel];
            |at| == |rows| && forall i :: 0 <= i < |at| ==> CompletedTurn(logs[rel], at[i], rows[i], filter)
    ensures forall j, row :: 0 <= j < Consumed(snaps)[rel] && CompletedTurn(logs[rel], j, row, filter) ==> j in at
  {
    ScheduleKeepsCanon(logs, snaps, SoloReader(logs, filter), filter);
    var file, n := logs[rel], Consumed(snaps)[rel];
    assert RunPolls(snaps, filter).rowsBy[rel] == Solo(file, n, filter).rows;
    at := RowsOfLines(file, n, filter);
    forall i | 0 <= i < |at|
      ensures CompletedTurn(file, at[i], RowAt(file, at[i], filter).value, filter)
    {
      RowTellsItsTurn(file, at[i], filter);
    }
    forall j, row | 0 <= j < n && CompletedTurn(file, j, row, filter)
      ensures j in at
    {
      CompletedTurnHasRow(file, j, row, filter);
    }
  }
}
