/** Session, directory and current turn, told from the log alone: by the last line
    that names them, with no variable carried from line to line. */
module CodexLivePlace {
  import opened Basics
  import opened CodexLive
  import opened CodexLiveProofs
  import opened CodexLiveInvariants

  /** The last line whose entry is of the given kind, or -1. */
  function LastLine(lines: seq<Line>, kind: Event -> bool): (i: int)
    ensures -1 <= i < |lines|
    ensures i >= 0 ==> lines[i].Entry? && kind(lines[i].event)
    ensures forall j :: i < j < |lines| && lines[j].Entry? ==> !kind(lines[j].event)
  {
    if lines == [] then -1
    else
      var last := lines[|lines| - 1];
      if last.Entry? && kind(last.event) then |lines| - 1 else LastLine(lines[..|lines| - 1], kind)
  }

  predicate NamesSession(event: Event) {
    event.SessionMeta? && event.id != ""
  }

  predicate NamesDirectory(event: Event) {
    event.SessionMeta? && event.cwd != ""
  }

  predicate StartsTask(event: Event) {
    event.TaskStarted?
  }

  /** Completes or aborts the turn, by name or as the current one. */
  function Ends(turn: string): Event -> bool {
    (event: Event) => (event.TaskComplete? || event.TurnAborted?) && (event.turnId == "" || event.turnId == turn)
  }

  /** The id of the last session_meta that has one, else the file's own. */
  function SessionBy(file: SessionFile, lines: seq<Line>): string {
    var i := LastLine(lines, NamesSession);
    if i < 0 then file.defaultSession else lines[i].event.id
  }

  function DirectoryBy(lines: seq<Line>): string {
    var i := LastLine(lines, NamesDirectory);
    if i < 0 then "" else lines[i].event.cwd
  }

  /** The turn of the last task_started, unless it has ended since. */
  function CurrentTurnBy(lines: seq<Line>): string {
    var i := LastLine(lines, StartsTask);
    if i < 0 || LastLine(lines, Ends(lines[i].event.turnId)) > i then "" else lines[i].event.turnId
  }

  /** The turn that an entry after these lines is about: the one it names; for a
      message, a completion or an abort that names none, the current one. */
  function TurnBy(lines: seq<Line>, event: Event): string {
    match event
    case SessionMeta(_, _) => ""
    case Ignored => ""
    case TurnContext(turnId, _) => turnId
    case TaskStarted(turnId) => turnId
    case UserMessage(turnId, _) => if turnId == "" then CurrentTurnBy(lines) else turnId
    case TaskComplete(turnId, _) => if turnId == "" then CurrentTurnBy(lines) else turnId
    case TurnAborted(turnId) => if turnId == "" then CurrentTurnBy(lines) else turnId
  }

  function PlaceBy(file: SessionFile, lines: seq<Line>): Place {
    Place(SessionBy(file, lines), DirectoryBy(lines), CurrentTurnBy(lines))
  }

  /** Does the line after `before` belong to the turn filed under the key? */
  predicate IsAbout(file: SessionFile, before: seq<Line>, line: Line, key: string) {
    && line.Entry?
    && TurnBy(before, line.event) != ""
    && key == PendingKey(SessionBy(file, before), TurnBy(before, line.event))
  }

  // ----- The reader keeps what the log tells ----------------------------------------

  lemma LastLineStep(lines: seq<Line>, last: Line, kind: Event -> bool)
    ensures LastLine(lines + [last], kind)
         == if last.Entry? && kind(last.event) then |lines| else LastLine(lines, kind)
  {
    assert (lines + [last])[..|lines|] == lines;
  }

  lemma SessionStep(file: SessionFile, lines: seq<Line>, last: Line)
    ensures SessionBy(file, lines + [last])
         == if last.Entry? && NamesSession(last.event) then last.event.id else SessionBy(file, lines)
  {
    LastLineStep(lines, last, NamesSession);
  }

  lemma DirectoryStep(lines: seq<Line>, last: Line)
    ensures DirectoryBy(lines + [last])
         == if last.Entry? && NamesDirectory(last.event) then last.event.cwd else DirectoryBy(lines)
  {
    LastLineStep(lines, last, NamesDirectory);
  }

  lemma CurrentTurnStep(lines: seq<Line>, last: Line)
    ensures CurrentTurnBy(lines + [last])
         == if !last.Entry? then CurrentTurnBy(lines)
            else if StartsTask(last.event) then last.event.turnId
            else if Ends(CurrentTurnBy(lines))(last.event) then ""
            else CurrentTurnBy(lines)
  {
    LastLineStep(lines, last, StartsTask);
    var more := lines + [last];
    var i := LastLine(more, StartsTask);
    if i >= 0 {
      LastLineStep(lines, last, Ends(more[i].event.turnId));
    }
  }

  lemma {:induction false} PlaceIsTold(file: SessionFile, lines: seq<Line>)
    ensures PlaceAfter(FreshReading(file).place, lines) == PlaceBy(file, lines)
  {
    if lines != [] {
      var init, last := lines[..|lines| - 1], lines[|lines| - 1];
      assert lines == init + [last];
      PlaceIsTold(file, init);
      SessionStep(file, init, last);
      DirectoryStep(init, last);
      CurrentTurnStep(init, last);
    }
  }

  /** A line without an id of its own counts for the current turn. */
  lemma KeyIsTold(file: SessionFile, before: seq<Line>, line: Line, key: string)
    ensures key in KeyOfLine(PlaceAfter(FreshReading(file).place, before), line) <==> IsAbout(file, before, line, key)
  {
    PlaceIsTold(file, before);
  }

  /** What the cursor saves for a file, over any schedule. */
  lemma CursorTellsThePlace(logs: Logs, snaps: seq<Snapshot>, filter: Filter, rel: string)
    requires WellKept(logs) && Schedule(logs, snaps) && rel in Consumed(snaps)
    ensures rel in logs && rel in RunPolls(snaps, filter).cursor.files
    ensures var n := Consumed(snaps)[rel];
            RunPolls(snaps, filter).cursor.files[rel]
            == FileState(n, PlaceBy(logs[rel], Prefix(logs[rel].lines, n)))
  {
    var solo := SoloReader(logs, filter);
    ScheduleKeepsCanon(logs, snaps, solo, filter);
    var file, n := logs[rel], Consumed(snaps)[rel];
    var start, lines := FreshReading(file), Prefix(file.lines, n);
    assert RunPolls(snaps, filter).cursor.files[rel] == FileState(n, Solo(file, n, filter).place);
    Frame(start, start, lines, KeysTouched(start.place, lines), [], 0, file.rel, filter);
    PlaceIsTold(file, lines);
  }

  /** The keys a file can touch: those some line of it is about. */
  lemma {:induction false} OwnedIsTold(file: SessionFile, n: nat, key: string)
    requires n <= |file.lines|
    ensures key in KeysTouched(FreshReading(file).place, file.lines[..n])
       <==> exists i :: 0 <= i < n && IsAbout(file, file.lines[..i], file.lines[i], key)
  {
    if n > 0 {
      OwnedIsTold(file, n - 1, key);
      assert file.lines[..n][..n - 1] == file.lines[..n - 1];
      KeyIsTold(file, file.lines[..n - 1], file.lines[n - 1], key);
    }
  }

  // ----- What a poll counts and lists ------------------------------------------------

  function Entries(lines: seq<Line>): nat {
    |set i | 0 <= i < |lines| && lines[i].Entry?|
  }

  lemma EntriesStep(lines: seq<Line>, last: Line)
    ensures Entries(lines + [last]) == Entries(lines) + if last.Entry? then 1 else 0
  {
    var before := set i | 0 <= i < |lines| && lines[i].Entry?;
    var after := set i | 0 <= i < |lines + [last]| && (lines + [last])[i].Entry?;
    assert after == if last.Entry? then before + {|lines|} else before;
  }

  /** Blank lines are not counted; every decoded entry is, whatever it says. */
  lemma {:induction false} EveryEntryCounts(st: Reading, lines: seq<Line>, rel: string, filter: Filter)
    ensures ReadLines(st, lines, rel, filter).count == st.count + Entries(lines)
  {
    if lines != [] {
      var init, last := lines[..|lines| - 1], lines[|lines| - 1];
      assert lines == init + [last];
      EveryEntryCounts(st, init, rel, filter);
      EntriesStep(init, last);
    }
  }

  ghost function EntryCounts(logs: Logs, seen: map<string, nat>): map<string, int>
    requires seen.Keys <= logs.Keys
  {
    map rel | rel in seen :: Entries(Prefix(logs[rel].lines, seen[rel]))
  }

  lemma SoloCounts(logs: Logs, solo: Solos, filter: Filter, rel: string, n: nat)
    requires ReadsAlone(logs, solo, filter) && rel in logs
    ensures solo(rel, n).count == Entries(Prefix(logs[rel].lines, n))
  {
    assert solo(rel, n) == Solo(logs[rel], n, filter);
    EveryEntryCounts(FreshReading(logs[rel]), Prefix(logs[rel].lines, n), logs[rel].rel, filter);
  }

  lemma CountsAreEntries(logs: Logs, seen: map<string, nat>, solo: Solos, filter: Filter)
    requires ReadsAlone(logs, solo, filter) && seen.Keys <= logs.Keys
    ensures CanonCounts(seen, solo) == EntryCounts(logs, seen)
  {
    forall rel | rel in seen
      ensures solo(rel, seen[rel]).count == Entries(Prefix(logs[rel].lines, seen[rel]))
    {
      SoloCounts(logs, solo, filter, rel, seen[rel]);
    }
  }

  /** Over any schedule, the input count is that of the entries consumed. */
  lemma RunCountsEveryEntry(logs: Logs, snaps: seq<Snapshot>, filter: Filter)
    requires WellKept(logs) && Schedule(logs, snaps)
    ensures Consumed(snaps).Keys <= logs.Keys
    ensures RunPolls(snaps, filter).inputRows == Total(EntryCounts(logs, Consumed(snaps)))
  {
    var solo := SoloReader(logs, filter);
    ScheduleKeepsCanon(logs, snaps, solo, filter);
    CountsAreEntries(logs, Consumed(snaps), solo, filter);
  }

  /** A poll's rows and count: file by file, in the order of the files. */
  lemma {:induction false} FilesInOrder(first: seq<FileRead>, second: seq<FileRead>)
    ensures AllRows(first + second) == AllRows(first) + AllRows(second)
    ensures InputRows(first + second) == InputRows(first) + InputRows(second)
  {
    if second == [] {
      assert first + second == first;
    } else {
      var init := second[..|second| - 1];
      assert (first + second)[..|first + second| - 1] == first + init;
      FilesInOrder(first, init);
    }
  }

  lemma OneFileAlone(fileRead: FileRead)
    ensures AllRows([fileRead]) == fileRead.rows && InputRows([fileRead]) == fileRead.count
  {
    assert [fileRead][..0] == [];
  }

  // ----- Lines that do not parse -------------------------------------------------------

  /** The first line of the file that a poll reads. */
  function FirstUnread(file: SessionFile, cursor: Cursor): nat {
    if file.rel in cursor.files then cursor.files[file.rel].line else 0
  }

  ghost predicate Readable(file: SessionFile, cursor: Cursor) {
    forall l :: FirstUnread(file, cursor) <= l < |file.lines| ==> !file.lines[l].Malformed?
  }

  /** The error names the first unread line of the file that does not parse,
      counting from 1. */
  ghost predicate NamesBadLine(error: PollError, file: SessionFile, cursor: Cursor) {
    var start, l := FirstUnread(file, cursor), error.line - 1;
    && error.rel == file.rel && start <= l < |file.lines| && file.lines[l].Malformed?
    && forall m :: start <= m < l ==> !file.lines[m].Malformed?
  }

  /** The lines that a poll reads of a file. */
  ghost predicate IsUnread(file: SessionFile, cursor: Cursor, unread: seq<Line>) {
    unread == if FirstUnread(file, cursor) <= |file.lines| then file.lines[FirstUnread(file, cursor)..] else []
  }

  lemma FirstBadLine(file: SessionFile, cursor: Cursor, unread: seq<Line>, bad: nat)
    requires IsUnread(file, cursor, unread)
    requires bad < |unread| && unread[bad].Malformed? && forall i :: 0 <= i < bad ==> !unread[i].Malformed?
    ensures !Readable(file, cursor)
    ensures NamesBadLine(BadLine(file.rel, FirstUnread(file, cursor) + bad + 1), file, cursor)
  {
    var start := FirstUnread(file, cursor);
    assert file.lines[start + bad] == unread[bad];
    forall m | start <= m < start + bad
      ensures !file.lines[m].Malformed?
    {
      assert !unread[m - start].Malformed?;
    }
  }

  lemma NoBadLine(file: SessionFile, cursor: Cursor, unread: seq<Line>)
    requires IsUnread(file, cursor, unread) && forall i :: 0 <= i < |unread| ==> !unread[i].Malformed?
    ensures Readable(file, cursor)
  {
    var start := FirstUnread(file, cursor);
    forall l | start <= l < |file.lines|
      ensures !file.lines[l].Malformed?
    {
      assert !unread[l - start].Malformed?;
    }
  }

  lemma UnreadIs(file: SessionFile, cursor: Cursor)
    ensures IsUnread(file, cursor, Unread(file, FileStateOf(cursor.files, file.rel)))
  {
  }

  ghost predicate FailsIffUnreadable(file: SessionFile, cursor: Cursor, r: Result<(FileRead, Pending), PollError>) {
    (r.Success? <==> Readable(file, cursor)) && (r.Failure? ==> NamesBadLine(r.error, file, cursor))
  }

  /** Place `bad` is the first that does not parse, or the end; r says so. */
  ghost predicate FailsAtFirst(file: SessionFile, cursor: Cursor, unread: seq<Line>, bad: nat,
                               r: Result<(FileRead, Pending), PollError>) {
    && bad <= |unread| && (bad < |unread| ==> unread[bad].Malformed?)
    && (forall i :: 0 <= i < bad ==> !unread[i].Malformed?)
    && (r.Success? <==> bad == |unread|)
    && (r.Failure? ==> r == Failure(BadLine(file.rel, FirstUnread(file, cursor) + bad + 1)))
  }

  lemma OutcomeDecides(file: SessionFile, cursor: Cursor, unread: seq<Line>, bad: nat,
                       r: Result<(FileRead, Pending), PollError>)
    requires IsUnread(file, cursor, unread) && FailsAtFirst(file, cursor, unread, bad, r)
    ensures FailsIffUnreadable(file, cursor, r)
  {
    if bad < |unread| {
      FirstBadLine(file, cursor, unread, bad);
    } else {
      NoBadLine(file, cursor, unread);
    }
  }

  lemma OutcomeOfFile(file: SessionFile, cursor: Cursor, table: Pending, filter: Filter)
    ensures var prior := FileStateOf(cursor.files, file.rel);
            FailsAtFirst(file, cursor, Unread(file, prior), FirstMalformed(Unread(file, prior)),
                         ReadFile(file, prior, table, filter))
  {
  }

  lemma OutcomeTold(file: SessionFile, cursor: Cursor, table: Pending, filter: Filter)
    returns (unread: seq<Line>, bad: nat)
    ensures IsUnread(file, cursor, unread)
    ensures FailsAtFirst(file, cursor, unread, bad, ReadFile(file, FileStateOf(cursor.files, file.rel), table, filter))
  {
    var prior := FileStateOf(cursor.files, file.rel);
    unread, bad := Unread(file, prior), FirstMalformed(Unread(file, prior));
    UnreadIs(file, cursor);
    OutcomeOfFile(file, cursor, table, filter);
  }

  lemma FileFailsIffUnreadable(file: SessionFile, cursor: Cursor, table: Pending, filter: Filter)
    ensures FailsIffUnreadable(file, cursor, ReadFile(file, FileStateOf(cursor.files, file.rel), table, filter))
  {
    var unread, bad := OutcomeTold(file, cursor, table, filter);
    OutcomeDecides(file, cursor, unread, bad, ReadFile(file, FileStateOf(cursor.files, file.rel), table, filter));
  }

  ghost predicate AllReadable(files: seq<SessionFile>, cursor: Cursor) {
    forall i :: 0 <= i < |files| ==> Readable(files[i], cursor)
  }

  ghost predicate FirstUnreadable(error: PollError, files: seq<SessionFile>, cursor: Cursor) {
    exists i :: 0 <= i < |files| && AllReadable(files[..i], cursor) && NamesBadLine(error, files[i], cursor)
  }

  lemma StaysFirstUnreadable(error: PollError, files: seq<SessionFile>, last: SessionFile, cursor: Cursor)
    requires FirstUnreadable(error, files, cursor)
    ensures FirstUnreadable(error, files + [last], cursor)
  {
    var i :| 0 <= i < |files| && AllReadable(files[..i], cursor) && NamesBadLine(error, files[i], cursor);
    assert (files + [last])[..i] == files[..i];
  }

  lemma NowFirstUnreadable(error: PollError, files: seq<SessionFile>, last: SessionFile, cursor: Cursor)
    requires AllReadable(files, cursor) && NamesBadLine(error, last, cursor)
    ensures FirstUnreadable(error, files + [last], cursor)
  {
    assert (files + [last])[..|files|] == files;
    assert (files + [last])[|files|] == last;
  }

  lemma {:induction false} FilesFailIffUnreadable(files: seq<SessionFile>, cursor: Cursor, filter: Filter)
    ensures ReadFiles(files, cursor, filter).Success? <==> AllReadable(files, cursor)
    ensures ReadFiles(files, cursor, filter).Failure? ==>
              FirstUnreadable(ReadFiles(files, cursor, filter).error, files, cursor)
  {
    if files != [] {
      var init, last := files[..|files| - 1], files[|files| - 1];
      assert files == init + [last];
      FilesFailIffUnreadable(init, cursor, filter);
      var before := ReadFiles(init, cursor, filter);
      if before.Failure? {
        StaysFirstUnreadable(before.error, init, last, cursor);
      } else {
        FileFailsIffUnreadable(last, cursor, before.value.1, filter);
        var r := ReadFile(last, FileStateOf(cursor.files, last.rel), before.value.1, filter);
        if r.Failure? {
          NowFirstUnreadable(r.error, init, last, cursor);
        }
      }
    }
  }

  /** A poll fails exactly when some unread line does not parse, and then names the
      first such line of the first such file. */
  lemma PollFailsAtTheFirstBadLine(files: seq<SessionFile>, cursor: Cursor, filter: Filter)
    ensures Poll(files, cursor, filter).Success? <==> AllReadable(files, cursor)
    ensures Poll(files, cursor, filter).Failure? ==>
              FirstUnreadable(Poll(files, cursor, filter).error, files, cursor)
  {
    FilesFailIffUnreadable(files, cursor, filter);
  }
}
