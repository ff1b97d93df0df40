/** The incremental reader of live session logs: `scripts/codex_live_to_turns.py`.

    Every poll re-reads the log files from a saved cursor, and turns that have
    started but not completed wait in one table shared by all files.  This
    module gives the reader (a class for the mutated table, methods for the
    loops) and the functions it computes; CodexLiveProofs shows that polling in
    any schedule gives what a single read gives. */
module CodexLive {
  import opened Basics

  // ----- Log lines ---------------------------------------------------------

  /** A decoded log entry.  Strings are stripped; an absent field is "". */
  datatype Event =
    | SessionMeta(id: string, cwd: string)
    | TurnContext(turnId: string, turnCwd: string)
    | TaskStarted(turnId: string)
    | UserMessage(turnId: string, message: string)
    | TaskComplete(turnId: string, lastAgentMessage: string)
    | TurnAborted(turnId: string)
    | Ignored

  /** A line that is blank, is not a JSON object, or holds an entry. */
  datatype Line = Blank | Malformed | Entry(timestamp: string, event: Event)

  /** `rel` is the path below the sessions root; `defaultSession` is the
      session id taken from the file name. */
  datatype SessionFile = SessionFile(rel: string, defaultSession: string, lines: seq<Line>)

  datatype PendingTurn = PendingTurn(
    sessionId: string, threadId: string, turnId: string, userText: string, assistantText: string,
    timestamp: string, workspace: string, sessionFile: string, observations: seq<string>)

  datatype Row = Row(
    sessionId: string, threadId: string, turnId: string, userText: string, assistantText: string,
    observations: seq<string>, timestamp: string, workspace: string)

  datatype FileState = FileState(line: nat, place: Place)

  type Pending = map<string, PendingTurn>

  datatype Cursor = Cursor(files: map<string, FileState>, pending: Pending)

  datatype Filter = Filter(includeCwds: seq<string>, excludeCwds: seq<string>)

  /** What the reader remembers between two lines of one file. */
  datatype Place = Place(sessionId: string, cwd: string, currentTurnId: string)

  datatype PollError = BadLine(rel: string, line: nat)

  // ----- Small helpers of the script ---------------------------------------

  function PendingKey(sessionId: string, turnId: string): string {
    sessionId + "::" + turnId
  }

  function LowerChar(c: char): char {
    if 'A' <= c <= 'Z' then (c as int + 32) as char else c
  }

  function Lower(s: string): string {
    seq(|s|, i requires 0 <= i < |s| => LowerChar(s[i]))
  }

  predicate StartsWithAny(text: string, prefixes: seq<string>) {
    exists i | 0 <= i < |prefixes| :: Lower(prefixes[i]) <= text
  }

  predicate CwdAllowed(cwd: string, filter: Filter) {
    if cwd == "" then filter.includeCwds == []
    else if filter.includeCwds != [] && !StartsWithAny(Lower(cwd), filter.includeCwds) then false
    else if filter.excludeCwds != [] && StartsWithAny(Lower(cwd), filter.excludeCwds) then false
    else true
  }

  /** The first occurrences of the non-blank texts, in order. */
  function FirstOccurrences(values: seq<string>): (out: seq<string>)
    ensures forall x :: x in out <==> x in values && x != ""
    ensures forall i, j :: 0 <= i < j < |out| ==> out[i] != out[j]
  {
    if values == [] then []
    else
      var last := values[|values| - 1];
      var before := FirstOccurrences(values[..|values| - 1]);
      assert values == values[..|values| - 1] + [last];
      if last == "" || last in before then before else before + [last]
  }

  method NormalizeTextList(values: seq<string>) returns (out: seq<string>)
    ensures out == FirstOccurrences(values)
  {
    out := [];
    var seen: set<string> := {};
    for i := 0 to |values|
      invariant out == FirstOccurrences(values[..i])
      invariant forall x :: x in seen <==> x in out
    {
      assert values[..i + 1][..i] == values[..i];
      var text := values[i];
      if text == "" || text in seen {
        continue;
      }
      seen := seen + {text};
      out := out + [text];
    }
    assert values[..|values|] == values;
  }

  function RawObservations(turn: PendingTurn): seq<string> {
    ["source=codex_live"]
    + (if turn.workspace != "" then ["workspace=" + turn.workspace] else [])
    + (if turn.sessionFile != "" then ["session_file=" + turn.sessionFile] else [])
    + turn.observations
  }

  function Finalize(turn: PendingTurn): Option<Row> {
    if turn.sessionId == "" || turn.turnId == "" then None
    else if turn.userText == "" && turn.assistantText == "" then None
    else Some(Row(turn.sessionId, OrElse(turn.threadId, turn.sessionId), turn.turnId, turn.userText,
                  turn.assistantText, FirstOccurrences(RawObservations(turn)), turn.timestamp, turn.workspace))
  }

  // ----- What one entry does, slot by slot ----------------------------------

  /** The turn an entry is about: its own id, else the current turn. */
  function TurnOf(place: Place, event: Event): string {
    match event
    case SessionMeta(_, _) => ""
    case Ignored => ""
    case TurnContext(turnId, _) => turnId
    case TaskStarted(turnId) => turnId
    case UserMessage(turnId, _) => OrElse(turnId, place.currentTurnId)
    case TaskComplete(turnId, _) => OrElse(turnId, place.currentTurnId)
    case TurnAborted(turnId) => OrElse(turnId, place.currentTurnId)
  }

  /** The only key of the pending table an entry may touch. */
  function TouchedKey(place: Place, event: Event): Option<string> {
    var turn := TurnOf(place, event);
    if turn == "" then None else Some(PendingKey(place.sessionId, turn))
  }

  /** Session, directory and current turn move on without looking at the table. */
  function NextPlace(place: Place, event: Event): Place {
    match event
    case SessionMeta(id, cwd) =>
      place.(sessionId := OrElse(id, place.sessionId), cwd := OrElse(cwd, place.cwd))
    case TaskStarted(turnId) => place.(currentTurnId := turnId)
    case TaskComplete(_, _) =>
      if TurnOf(place, event) == place.currentTurnId then place.(currentTurnId := "") else place
    case TurnAborted(_) =>
      if TurnOf(place, event) == place.currentTurnId then place.(currentTurnId := "") else place
    case _ => place
  }

  /** The record `_ensure_pending` leaves under the key. */
  function Touch(slot: Option<PendingTurn>, sessionId: string, turnId: string, workspace: string, rel: string)
    : PendingTurn
  {
    match slot
    case None => PendingTurn(sessionId, sessionId, turnId, "", "", "", workspace, rel, [])
    case Some(p) =>
      p.(sessionId := OrElse(p.sessionId, sessionId), threadId := OrElse(p.threadId, sessionId),
         turnId := OrElse(p.turnId, turnId), workspace := OrElse(p.workspace, workspace),
         sessionFile := OrElse(p.sessionFile, rel))
  }

  function Stamp(turn: PendingTurn, timestamp: string): PendingTurn {
    turn.(timestamp := OrElse(turn.timestamp, timestamp))
  }

  /** The completed record of a `task_complete` entry, before it is popped. */
  function Completed(slot: Option<PendingTurn>, place: Place, rel: string, timestamp: string, event: Event)
    : PendingTurn
    requires event.TaskComplete?
  {
    var p := Touch(slot, place.sessionId, TurnOf(place, event), place.cwd, rel);
    Stamp(p.(assistantText := OrElse(event.lastAgentMessage, p.assistantText)), timestamp)
  }

  function NextSlot(slot: Option<PendingTurn>, place: Place, rel: string, timestamp: string, event: Event)
    : Option<PendingTurn>
  {
    var turn := TurnOf(place, event);
    match event
    case SessionMeta(_, _) => slot
    case Ignored => slot
    case TurnContext(_, turnCwd) =>
      var cwd := OrElse(turnCwd, place.cwd);
      var p := Touch(slot, place.sessionId, turn, cwd, rel);
      Some(Stamp(p.(workspace := OrElse(cwd, p.workspace)), timestamp))
    case TaskStarted(_) => Some(Stamp(Touch(slot, place.sessionId, turn, place.cwd, rel), timestamp))
    case UserMessage(_, message) =>
      var p := Touch(slot, place.sessionId, turn, place.cwd, rel);
      Some(Stamp(p.(userText := OrElse(message, p.userText)), timestamp))
    case TaskComplete(_, _) => None
    case TurnAborted(_) => None
  }

  function EmittedRow(slot: Option<PendingTurn>, place: Place, rel: string, timestamp: string, event: Event,
                      filter: Filter): Option<Row>
  {
    if event.TaskComplete? then
      var p := Completed(slot, place, rel, timestamp, event);
      if CwdAllowed(OrElse(p.workspace, place.cwd), filter) then Finalize(p) else None
    else None
  }

  // ----- Reading lines, files, polls ----------------------------------------

  function Slot(table: Pending, key: string): Option<PendingTurn> {
    if key in table then Some(table[key]) else None
  }

  function WithSlot(table: Pending, key: string, slot: Option<PendingTurn>): Pending {
    match slot
    case None => table - {key}
    case Some(p) => table[key := p]
  }

  /** The variables of the reading loop. */
  datatype Reading = Reading(place: Place, table: Pending, rows: seq<Row>, count: nat)

  function ReadLine(st: Reading, line: Line, rel: string, filter: Filter): Reading {
    if !line.Entry? then st
    else
      var next := Reading(NextPlace(st.place, line.event), st.table, st.rows, st.count + 1);
      match TouchedKey(st.place, line.event)
      case None => next
      case Some(key) =>
        var slot := Slot(st.table, key);
        var row := EmittedRow(slot, st.place, rel, line.timestamp, line.event, filter);
        next.(table := WithSlot(st.table, key, NextSlot(slot, st.place, rel, line.timestamp, line.event)),
              rows := if row.Some? then st.rows + [row.value] else st.rows)
  }

  function ReadLines(st: Reading, lines: seq<Line>, rel: string, filter: Filter): Reading {
    if lines == [] then st
    else ReadLine(ReadLines(st, lines[..|lines| - 1], rel, filter), lines[|lines| - 1], rel, filter)
  }

  /** Index of the first line that cannot be parsed, or the length. */
  function FirstMalformed(lines: seq<Line>): (n: nat)
    ensures n <= |lines|
    ensures n < |lines| ==> lines[n].Malformed?
    ensures forall i :: 0 <= i < n ==> !lines[i].Malformed?
  {
    if lines == [] || lines[0].Malformed? then 0 else 1 + FirstMalformed(lines[1..])
  }

  function StartLine(prior: Option<FileState>): nat {
    if prior.Some? then prior.value.line else 0
  }

  function Restore(file: SessionFile, prior: Option<FileState>): Place {
    match prior
    case None => Place(file.defaultSession, "", "")
    case Some(s) => s.place.(sessionId := OrElse(s.place.sessionId, file.defaultSession))
  }

  function Unread(file: SessionFile, prior: Option<FileState>): seq<Line> {
    if StartLine(prior) <= |file.lines| then file.lines[StartLine(prior)..] else []
  }

  /** What one poll takes out of one file. */
  datatype FileRead = FileRead(rel: string, rows: seq<Row>, count: nat, state: FileState)

  function FileStateOf(files: map<string, FileState>, rel: string): Option<FileState> {
    if rel in files then Some(files[rel]) else None
  }

  /** Reading the unread lines of one file on top of a pending table. */
  function ReadFile(file: SessionFile, prior: Option<FileState>, table: Pending, filter: Filter)
    : Result<(FileRead, Pending), PollError>
  {
    var unread := Unread(file, prior);
    var bad := FirstMalformed(unread);
    if bad < |unread| then Failure(BadLine(file.rel, StartLine(prior) + bad + 1))
    else
      var st := ReadLines(Reading(Restore(file, prior), table, [], 0), unread, file.rel, filter);
      var line := if file.lines == [] then StartLine(prior) else |file.lines|;
      Success((FileRead(file.rel, st.rows, st.count, FileState(line, st.place)), st.table))
  }

  /** One more file on top of what a poll has read so far. */
  function PlusFile(sofar: (seq<FileRead>, Pending), file: SessionFile, cursor: Cursor, filter: Filter)
    : Result<(seq<FileRead>, Pending), PollError>
  {
    match ReadFile(file, FileStateOf(cursor.files, file.rel), sofar.1, filter)
    case Failure(e) => Failure(e)
    case Success((fileRead, table)) => Success((sofar.0 + [fileRead], table))
  }

  /** All files of one poll, in order, sharing the pending table. */
  function ReadFiles(files: seq<SessionFile>, cursor: Cursor, filter: Filter)
    : Result<(seq<FileRead>, Pending), PollError>
  {
    if files == [] then Success(([], cursor.pending))
    else
      match ReadFiles(files[..|files| - 1], cursor, filter)
      case Failure(e) => Failure(e)
      case Success(sofar) => PlusFile(sofar, files[|files| - 1], cursor, filter)
  }

  function AllRows(fileReads: seq<FileRead>): seq<Row> {
    if fileReads == [] then [] else AllRows(fileReads[..|fileReads| - 1]) + fileReads[|fileReads| - 1].rows
  }

  function InputRows(fileReads: seq<FileRead>): nat {
    if fileReads == [] then 0 else InputRows(fileReads[..|fileReads| - 1]) + fileReads[|fileReads| - 1].count
  }

  function NextFiles(fileReads: seq<FileRead>): map<string, FileState> {
    if fileReads == [] then map[]
    else NextFiles(fileReads[..|fileReads| - 1])[fileReads[|fileReads| - 1].rel := fileReads[|fileReads| - 1].state]
  }

  datatype PollOutput = PollOutput(rows: seq<Row>, inputRows: nat, cursor: Cursor)

  function Poll(files: seq<SessionFile>, cursor: Cursor, filter: Filter): Result<PollOutput, PollError> {
    match ReadFiles(files, cursor, filter)
    case Failure(e) => Failure(e)
    case Success((fileReads, table)) =>
      Success(PollOutput(AllRows(fileReads), InputRows(fileReads), Cursor(NextFiles(fileReads), table)))
  }

  // ----- The reader itself ---------------------------------------------------

  /** The `pending_turns` dict, which the reader and its helper update in place. */
  class PendingTable {
    var turns: Pending

    constructor (turns: Pending)
      ensures this.turns == turns
    {
      this.turns := turns;
    }

    method EnsurePending(sessionId: string, turnId: string, workspace: string, rel: string)
      returns (key: string)
      modifies this
      ensures key == PendingKey(sessionId, turnId) && key in turns
      ensures turns == old(turns)[key := Touch(Slot(old(turns), key), sessionId, turnId, workspace, rel)]
    {
      key := PendingKey(sessionId, turnId);
      if key !in turns {
        turns := turns[key := PendingTurn(sessionId, sessionId, turnId, "", "", "", workspace, rel, [])];
      } else {
        var existing := turns[key];
        existing := existing.(sessionId := OrElse(existing.sessionId, sessionId));
        existing := existing.(threadId := OrElse(existing.threadId, sessionId));
        existing := existing.(turnId := OrElse(existing.turnId, turnId));
        if workspace != "" && existing.workspace == "" {
          existing := existing.(workspace := workspace);
        }
        if rel != "" && existing.sessionFile == "" {
          existing := existing.(sessionFile := rel);
        }
        turns := turns[key := existing];
      }
    }

    /** Writes through the record that EnsurePending handed out. */
    method Store(key: string, pending: PendingTurn)
      requires key in turns
      modifies this
      ensures turns == old(turns)[key := pending]
    {
      turns := turns[key := pending];
    }

    method Pop(key: string)
      modifies this
      ensures turns == old(turns) - {key}
    {
      turns := turns - {key};
    }
  }

  lemma {:induction false} FirstStaysFirst(values: seq<string>)
    requires values != [] && values[0] != ""
    ensures |FirstOccurrences(values)| > 0 && FirstOccurrences(values)[0] == values[0]
  {
    if |values| > 1 {
      FirstStaysFirst(values[..|values| - 1]);
    } else {
      assert values[..0] == [];
    }
  }

  method FinalizeTurn(turn: PendingTurn) returns (row: Option<Row>)
    ensures row == Finalize(turn)
    ensures row.Some?
       <==> turn.sessionId != "" && turn.turnId != "" && (turn.userText != "" || turn.assistantText != "")
    ensures row.Some? ==>
              && row.value.sessionId == turn.sessionId && row.value.turnId == turn.turnId && row.value.threadId != ""
              && row.value.userText == turn.userText && row.value.assistantText == turn.assistantText
              && row.value.timestamp == turn.timestamp && row.value.workspace == turn.workspace
    ensures row.Some? ==>
              && |row.value.observations| > 0 && row.value.observations[0] == "source=codex_live"
              && (forall note :: note in row.value.observations <==> note in RawObservations(turn) && note != "")
              && (forall i, j :: 0 <= i < j < |row.value.observations| ==>
                    row.value.observations[i] != row.value.observations[j])
  {
    if turn.sessionId == "" || turn.turnId == "" {
      return None;
    }
    if turn.userText == "" && turn.assistantText == "" {
      return None;
    }
    var observations := NormalizeTextList(RawObservations(turn));
    FirstStaysFirst(RawObservations(turn));
    row := Some(Row(turn.sessionId, OrElse(turn.threadId, turn.sessionId), turn.turnId, turn.userText,
                    turn.assistantText, observations, turn.timestamp, turn.workspace));
  }

  method StampIfBlank(pending: PendingTurn, timestamp: string) returns (stamped: PendingTurn)
    ensures stamped == Stamp(pending, timestamp)
  {
    stamped := pending;
    if timestamp != "" && pending.timestamp == "" {
      stamped := pending.(timestamp := timestamp);
    }
  }

  /** What a handler of one entry leaves behind: only the entry's own slot changed. */
  twostate predicate Handled(table: PendingTable, key: string, place: Place, rel: string, timestamp: string,
                             event: Event)
    reads table
  {
    table.turns == WithSlot(old(table.turns), key,
                            NextSlot(Slot(old(table.turns), key), place, rel, timestamp, event))
  }

  method OnTurnContext(table: PendingTable, place: Place, rel: string, timestamp: string, event: Event)
    requires event.TurnContext? && event.turnId != ""
    modifies table
    ensures Handled(table, PendingKey(place.sessionId, event.turnId), place, rel, timestamp, event)
  {
    var turnCwd := OrElse(event.turnCwd, place.cwd);
    var key := table.EnsurePending(place.sessionId, event.turnId, turnCwd, rel);
    var pending := table.turns[key];
    if turnCwd != "" {
      pending := pending.(workspace := turnCwd);
    }
    pending := StampIfBlank(pending, timestamp);
    table.Store(key, pending);
  }

  method OnTaskStarted(table: PendingTable, place: Place, rel: string, timestamp: string, event: Event)
    requires event.TaskStarted? && event.turnId != ""
    modifies table
    ensures Handled(table, PendingKey(place.sessionId, event.turnId), place, rel, timestamp, event)
  {
    var key := table.EnsurePending(place.sessionId, event.turnId, place.cwd, rel);
    var pending := StampIfBlank(table.turns[key], timestamp);
    table.Store(key, pending);
  }

  method OnUserMessage(table: PendingTable, place: Place, rel: string, timestamp: string, event: Event)
    requires event.UserMessage? && (event.turnId != "" || place.currentTurnId != "")
    modifies table
    ensures var turn := if event.turnId != "" then event.turnId else place.currentTurnId;
            var key := PendingKey(place.sessionId, turn);
            && Handled(table, key, place, rel, timestamp, event)
            && key in table.turns
            && table.turns[key].userText
               == if event.message != "" then event.message
                  else if key in old(table.turns) then old(table.turns)[key].userText else ""
  {
    var turn := OrElse(event.turnId, place.currentTurnId);
    var key := table.EnsurePending(place.sessionId, turn, place.cwd, rel);
    var pending := table.turns[key];
    if event.message != "" {
      pending := pending.(userText := event.message);
    }
    pending := StampIfBlank(pending, timestamp);
    table.Store(key, pending);
  }

  method OnTaskComplete(table: PendingTable, place: Place, rel: string, timestamp: string, event: Event, filter: Filter)
    returns (row: Option<Row>)
    requires event.TaskComplete? && (event.turnId != "" || place.currentTurnId != "")
    modifies table
    ensures var turn := if event.turnId != "" then event.turnId else place.currentTurnId;
            var key := PendingKey(place.sessionId, turn);
            && Handled(table, key, place, rel, timestamp, event)
            && key !in table.turns
            && row == EmittedRow(Slot(old(table.turns), key), place, rel, timestamp, event, filter)
  {
    var turn := OrElse(event.turnId, place.currentTurnId);
    var key := table.EnsurePending(place.sessionId, turn, place.cwd, rel);
    var pending := table.turns[key];
    if event.lastAgentMessage != "" {
      pending := pending.(assistantText := event.lastAgentMessage);
    }
    pending := StampIfBlank(pending, timestamp);
    table.Store(key, pending);
    row := None;
    var workspace := OrElse(pending.workspace, place.cwd);
    if CwdAllowed(workspace, filter) {
      row := FinalizeTurn(pending);
    }
    table.Pop(PendingKey(place.sessionId, turn));
  }

  /** The body of the line loop: one entry, the table updated in place. */
  method ReadEntry(table: PendingTable, place: Place, rel: string, timestamp: string, event: Event, filter: Filter)
    returns (next: Place, row: Option<Row>)
    modifies table
    ensures next == NextPlace(place, event)
    ensures TouchedKey(place, event).None? ==> table.turns == old(table.turns) && row == None
    ensures TouchedKey(place, event).Some? ==>
              var key := TouchedKey(place, event).value;
              && Handled(table, key, place, rel, timestamp, event)
              && row == EmittedRow(Slot(old(table.turns), key), place, rel, timestamp, event, filter)
  {
    next, row := place, None;
    match event
    case SessionMeta(id, cwd) =>
      next := place.(sessionId := OrElse(id, place.sessionId), cwd := OrElse(cwd, place.cwd));
    case TurnContext(turnId, _) =>
      if turnId != "" {
        OnTurnContext(table, place, rel, timestamp, event);
      }
    case TaskStarted(turnId) =>
      next := place.(currentTurnId := turnId);
      if turnId != "" {
        OnTaskStarted(table, place, rel, timestamp, event);
      }
    case UserMessage(_, _) =>
      if TurnOf(place, event) != "" {
        OnUserMessage(table, place, rel, timestamp, event);
      }
    case TaskComplete(turnId, _) =>
      var turn := OrElse(turnId, place.currentTurnId);
      if turn != "" {
        row := OnTaskComplete(table, place, rel, timestamp, event, filter);
        if place.currentTurnId == turn {
          next := place.(currentTurnId := "");
        }
      }
    case TurnAborted(turnId) =>
      var turn := OrElse(turnId, place.currentTurnId);
      if turn != "" {
        table.Pop(PendingKey(place.sessionId, turn));
      }
      if place.currentTurnId == turn {
        next := place.(currentTurnId := "");
      }
    case Ignored =>
  }

  /** One turn of the line loop, for a line that parses. */
  method LoadLine(line: Line, place: Place, rows: seq<Row>, count: nat, table: PendingTable, rel: string,
                  filter: Filter)
    returns (nextPlace: Place, nextRows: seq<Row>, nextCount: nat)
    requires !line.Malformed?
    modifies table
    ensures Reading(nextPlace, table.turns, nextRows, nextCount)
         == ReadLine(Reading(place, old(table.turns), rows, count), line, rel, filter)
  {
    nextPlace, nextRows, nextCount := place, rows, count;
    if line.Entry? {
      nextCount := count + 1;
      var next, row := ReadEntry(table, place, rel, line.timestamp, line.event, filter);
      nextPlace := next;
      if row.Some? {
        nextRows := rows + [row.value];
      }
    }
  }

  lemma ReadLinesStep(st: Reading, lines: seq<Line>, i: nat, rel: string, filter: Filter)
    requires i < |lines|
    ensures ReadLines(st, lines[..i + 1], rel, filter)
         == ReadLine(ReadLines(st, lines[..i], rel, filter), lines[i], rel, filter)
  {
    assert lines[..i + 1][..i] == lines[..i];
  }

  lemma FirstMalformedIs(lines: seq<Line>, i: nat)
    requires i <= |lines| && forall k :: 0 <= k < i ==> !lines[k].Malformed?
    requires i == |lines| || lines[i].Malformed?
    ensures FirstMalformed(lines) == i
  {
  }

  lemma FileIsRead(file: SessionFile, prior: Option<FileState>, table: Pending, filter: Filter, end: Reading)
    requires var unread := Unread(file, prior);
             && (forall i :: 0 <= i < |unread| ==> !unread[i].Malformed?)
             && end == ReadLines(Reading(Restore(file, prior), table, [], 0), unread, file.rel, filter)
    ensures var line := if file.lines == [] then StartLine(prior) else |file.lines|;
            ReadFile(file, prior, table, filter)
            == Success((FileRead(file.rel, end.rows, end.count, FileState(line, end.place)), end.table))
  {
    FirstMalformedIs(Unread(file, prior), |Unread(file, prior)|);
  }

  lemma FileFails(file: SessionFile, prior: Option<FileState>, table: Pending, filter: Filter, bad: nat)
    requires var unread := Unread(file, prior);
             bad < |unread| && unread[bad].Malformed? && forall i :: 0 <= i < bad ==> !unread[i].Malformed?
    ensures ReadFile(file, prior, table, filter) == Failure(BadLine(file.rel, StartLine(prior) + bad + 1))
  {
    FirstMalformedIs(Unread(file, prior), bad);
  }

  /** The line loop over one file. */
  method LoadFile(file: SessionFile, prior: Option<FileState>, table: PendingTable, filter: Filter)
    returns (r: Result<FileRead, PollError>)
    modifies table
    ensures match ReadFile(file, prior, old(table.turns), filter)
            case Failure(e) => r == Failure(e)
            case Success((fileRead, turns)) => r == Success(fileRead) && table.turns == turns
  {
    var startLine := StartLine(prior);
    var place := Restore(file, prior);
    var rows, inputRows, totalLines := [], 0, startLine;
    ghost var unread := Unread(file, prior);
    ghost var start := Reading(place, table.turns, rows, inputRows);
    ghost var done: nat := 0;
    for index := 0 to |file.lines|
      invariant totalLines == if index == 0 then startLine else index
      invariant done == if startLine <= index then index - startLine else 0
      invariant forall i :: 0 <= i < done ==> !unread[i].Malformed?
      invariant Reading(place, table.turns, rows, inputRows) == ReadLines(start, unread[..done], file.rel, filter)
    {
      totalLines := index + 1;
      if index < startLine {
        continue;
      }
      var line := file.lines[index];
      assert line == unread[done];
      if line.Malformed? {
        FileFails(file, prior, old(table.turns), filter, done);
        return Failure(BadLine(file.rel, index + 1));
      }
      place, rows, inputRows := LoadLine(line, place, rows, inputRows, table, file.rel, filter);
      assert Reading(place, table.turns, rows, inputRows) == ReadLines(start, unread[..done + 1], file.rel, filter) by {
        ReadLinesStep(start, unread, done, file.rel, filter);
      }
      done := done + 1;
    }
    assert unread[..done] == unread;
    FileIsRead(file, prior, old(table.turns), filter, Reading(place, table.turns, rows, inputRows));
    r := Success(FileRead(file.rel, rows, inputRows, FileState(totalLines, place)));
  }

  /** One poll over the candidate files, from a saved cursor. */
  method LoadRows(files: seq<SessionFile>, cursor: Cursor, filter: Filter)
    returns (r: Result<PollOutput, PollError>)
    ensures r == Poll(files, cursor, filter)
  {
    var table := new PendingTable(cursor.pending);
    var rows, inputRows := [], 0;
    var nextFileStates: map<string, FileState> := map[];
    ghost var done: seq<FileRead> := [];
    for i := 0 to |files|
      invariant fresh(table)
      invariant ReadFiles(files[..i], cursor, filter) == Success((done, table.turns))
      invariant rows == AllRows(done) && inputRows == InputRows(done) && nextFileStates == NextFiles(done)
    {
      var file := files[i];
      ReadFilesStep(files, i, cursor, filter);
      var fileRead := LoadFile(file, FileStateOf(cursor.files, file.rel), table, filter);
      if fileRead.Failure? {
        FailureSpreads(files, i + 1, cursor, filter);
        return Failure(fileRead.error);
      }
      rows := rows + fileRead.value.rows;
      inputRows := inputRows + fileRead.value.count;
      nextFileStates := nextFileStates[file.rel := fileRead.value.state];
      OneMoreRead(done, fileRead.value);
      done := done + [fileRead.value];
    }
    assert files[..|files|] == files;
    r := Success(PollOutput(rows, inputRows, Cursor(nextFileStates, table.turns)));
  }

  lemma OneMoreRead(done: seq<FileRead>, last: FileRead)
    ensures AllRows(done + [last]) == AllRows(done) + last.rows
    ensures InputRows(done + [last]) == InputRows(done) + last.count
    ensures NextFiles(done + [last]) == NextFiles(done)[last.rel := last.state]
  {
    assert (done + [last])[..|done|] == done;
  }

  lemma ReadFilesStep(files: seq<SessionFile>, i: nat, cursor: Cursor, filter: Filter)
    requires i < |files|
    requires ReadFiles(files[..i], cursor, filter).Success?
    ensures ReadFiles(files[..i + 1], cursor, filter)
         == PlusFile(ReadFiles(files[..i], cursor, filter).value, files[i], cursor, filter)
  {
    assert files[..i + 1][..i] == files[..i];
  }

  /** The first failing file fails the poll. */
  lemma {:induction false} FailureSpreads(files: seq<SessionFile>, i: nat, cursor: Cursor, filter: Filter)
    requires i <= |files|
    requires ReadFiles(files[..i], cursor, filter).Failure?
    ensures ReadFiles(files, cursor, filter) == ReadFiles(files[..i], cursor, filter)
    decreases |files|
  {
    if i == |files| {
      assert files[..i] == files;
    } else {
      assert files[..|files| - 1][..i] == files[..i];
      FailureSpreads(files[..|files| - 1], i, cursor, filter);
    }
  }
}
