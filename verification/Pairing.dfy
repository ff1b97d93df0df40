/** Pairing a conversation into turns: `_pair_items_to_turns` of
    `scripts/conversation_to_turns.py`.

    The loop is proved against a definition that says, for each item by itself,
    which turn it belongs to: a spoken item to the turn numbered by the
    assistant-to-user changes up to it, any other item to the turn numbered by
    the assistant blocks begun before it (or to the last turn). */
module Pairing {
  import opened Basics

  /** A canonical item: role and text are stripped, the role is normalised. */
  datatype Item = Item(role: string, text: string, timestamp: string)

  datatype Turn = Turn(userText: string, assistantText: string, observations: seq<string>, timestamp: string)

  const USER := "user"
  const ASSISTANT := "assistant"

  predicate IsUser(item: Item) {
    item.text != "" && item.role == USER
  }

  predicate IsAssistant(item: Item) {
    item.text != "" && item.role == ASSISTANT
  }

  predicate IsOther(item: Item) {
    item.text != "" && item.role != USER && item.role != ASSISTANT
  }

  /** `"\n".join(parts)`. */
  function Join(parts: seq<string>): string {
    if parts == [] then ""
    else if |parts| == 1 then parts[0]
    else Join(parts[..|parts| - 1]) + "\n" + parts[|parts| - 1]
  }

  // ----- The turn of each item ---------------------------------------------------

  datatype Speaker = Nobody | TheUser | TheAssistant

  function LastSpeaker(items: seq<Item>): Speaker {
    if items == [] then Nobody
    else
      var last := items[|items| - 1];
      if IsUser(last) then TheUser
      else if IsAssistant(last) then TheAssistant
      else LastSpeaker(items[..|items| - 1])
  }

  /** How often a user spoke right after an assistant. */
  function Switches(items: seq<Item>): nat {
    if items == [] then 0
    else
      var init := items[..|items| - 1];
      Switches(init) + if IsUser(items[|items| - 1]) && LastSpeaker(init) == TheAssistant then 1 else 0
  }

  /** How many blocks of assistant items have begun. */
  function AssistantRuns(items: seq<Item>): nat {
    if items == [] then 0
    else
      var init := items[..|items| - 1];
      AssistantRuns(init) + if IsAssistant(items[|items| - 1]) && LastSpeaker(init) != TheAssistant then 1 else 0
  }

  function UserParts(items: seq<Item>, k: nat): seq<string> {
    if items == [] then []
    else
      var last := items[|items| - 1];
      UserParts(items[..|items| - 1], k) + if IsUser(last) && Switches(items) == k then [last.text] else []
  }

  function AssistantParts(items: seq<Item>, k: nat): seq<string> {
    if items == [] then []
    else
      var last := items[|items| - 1];
      AssistantParts(items[..|items| - 1], k) + if IsAssistant(last) && Switches(items) == k then [last.text] else []
  }

  /** Other texts that came with exactly `k` assistant blocks begun. */
  function Asides(items: seq<Item>, k: nat): seq<string> {
    if items == [] then []
    else
      var init, last := items[..|items| - 1], items[|items| - 1];
      Asides(init, k) + if IsOther(last) && AssistantRuns(init) == k then [last.text] else []
  }

  /** A turn takes its time from spoken items, and from asides between its first
      user item and its first assistant item. */
  predicate Dates(init: seq<Item>, last: Item) {
    IsUser(last) || IsAssistant(last) || (IsOther(last) && LastSpeaker(init) == TheUser)
  }

  function TimestampOf(items: seq<Item>, k: nat): string {
    if items == [] then ""
    else
      var init, last := items[..|items| - 1], items[|items| - 1];
      var before := TimestampOf(init, k);
      if before == "" && Dates(init, last) && Switches(items) == k then last.timestamp else before
  }

  function TurnCount(items: seq<Item>): nat {
    if LastSpeaker(items) != Nobody then Switches(items) + 1
    else if Asides(items, 0) != [] then 1
    else 0
  }

  function ObservationsOf(items: seq<Item>, k: nat): seq<string> {
    Asides(items, k) + if k + 1 == TurnCount(items) then Asides(items, k + 1) else []
  }

  function TurnAt(items: seq<Item>, k: nat, rowTimestamp: string): Turn {
    Turn(Join(UserParts(items, k)), Join(AssistantParts(items, k)), ObservationsOf(items, k),
         OrElse(TimestampOf(items, k), rowTimestamp))
  }

  function TurnsOf(items: seq<Item>, rowTimestamp: string): seq<Turn> {
    seq(TurnCount(items), k requires 0 <= k < TurnCount(items) => TurnAt(items, k, rowTimestamp))
  }

  // ----- Facts about the numbering ---------------------------------------------------

  lemma {:induction false} RunsFollowSwitches(items: seq<Item>)
    ensures match LastSpeaker(items)
            case Nobody => AssistantRuns(items) == Switches(items) == 0
            case TheUser => AssistantRuns(items) == Switches(items)
            case TheAssistant => AssistantRuns(items) == Switches(items) + 1
  {
    if items != [] {
      RunsFollowSwitches(items[..|items| - 1]);
    }
  }

  /** Nothing belongs to a turn that has not begun. */
  lemma {:induction false} NothingBeyond(items: seq<Item>, k: nat)
    ensures k > Switches(items) ==> UserParts(items, k) == [] && AssistantParts(items, k) == []
    ensures k > Switches(items) ==> TimestampOf(items, k) == ""
    ensures k > AssistantRuns(items) ==> Asides(items, k) == []
  {
    if items != [] {
      NothingBeyond(items[..|items| - 1], k);
    }
  }

  lemma {:induction false} NobodySpoke(items: seq<Item>, k: nat)
    requires LastSpeaker(items) == Nobody
    ensures UserParts(items, k) == [] && AssistantParts(items, k) == [] && TimestampOf(items, k) == ""
    ensures k > 0 ==> Asides(items, k) == []
  {
    RunsFollowSwitches(items);
    NothingBeyond(items, k);
    if items != [] {
      NobodySpoke(items[..|items| - 1], k);
    }
  }

  // ----- The pairing loop --------------------------------------------------------------

  /** The turn being built: the dict `current`. */
  datatype Draft = Draft(userParts: seq<string>, assistantParts: seq<string>, observations: seq<string>,
                         timestamp: string)

  function Finished(draft: Draft, rowTimestamp: string): Turn {
    Turn(Join(draft.userParts), Join(draft.assistantParts), draft.observations, OrElse(draft.timestamp, rowTimestamp))
  }

  function DraftAt(items: seq<Item>, k: nat): Draft {
    Draft(UserParts(items, k), AssistantParts(items, k), Asides(items, k), TimestampOf(items, k))
  }

  /** The loop's view of the items read so far: who spoke last, the turns that are
      over, the turn being built, and the asides waiting for the next one. */
  datatype Progress = Progress(speaker: Speaker, over: seq<Draft>, draft: Draft, late: seq<string>)

  function DraftsUpTo(items: seq<Item>, n: nat): seq<Draft> {
    seq(n, k requires 0 <= k < n => DraftAt(items, k))
  }

  function ProgressOf(items: seq<Item>): Progress {
    var n := Switches(items);
    Progress(LastSpeaker(items), DraftsUpTo(items, n), DraftAt(items, n), Asides(items, n + 1))
  }

  /** One more item, told without recounting the ones before it. */
  function Advance(p: Progress, item: Item): Progress {
    var dated := p.draft.(timestamp := OrElse(p.draft.timestamp, item.timestamp));
    if IsUser(item) then
      if p.speaker == TheAssistant then
        Progress(TheUser, p.over + [p.draft], Draft([item.text], [], p.late, item.timestamp), [])
      else p.(speaker := TheUser, draft := dated.(userParts := dated.userParts + [item.text]))
    else if IsAssistant(item) then
      p.(speaker := TheAssistant, draft := dated.(assistantParts := dated.assistantParts + [item.text]))
    else if IsOther(item) then
      match p.speaker
      case Nobody => p.(draft := p.draft.(observations := p.draft.observations + [item.text]))
      case TheUser => p.(draft := dated.(observations := dated.observations + [item.text]))
      case TheAssistant => p.(late := p.late + [item.text])
    else p
  }

  /** What one more item does to the turn `k` it may belong to. */
  lemma DraftStep(items: seq<Item>, item: Item, k: nat)
    ensures var next := DraftAt(items + [item], k);
            var s := Switches(items + [item]);
            && LastSpeaker(items + [item])
               == (if IsUser(item) then TheUser else if IsAssistant(item) then TheAssistant else LastSpeaker(items))
            && s == Switches(items) + (if IsUser(item) && LastSpeaker(items) == TheAssistant then 1 else 0)
            && next.userParts == (if IsUser(item) && s == k then UserParts(items, k) + [item.text]
                                  else UserParts(items, k))
            && next.assistantParts == (if IsAssistant(item) && s == k then AssistantParts(items, k) + [item.text]
                                       else AssistantParts(items, k))
            && next.observations == (if IsOther(item) && AssistantRuns(items) == k then Asides(items, k) + [item.text]
                                     else Asides(items, k))
            && next.timestamp == (if TimestampOf(items, k) == "" && Dates(items, item) && s == k then item.timestamp
                                  else TimestampOf(items, k))
  {
    assert (items + [item])[..|items|] == items;
  }

  /** The open turn and the waiting asides, as `Advance` says. */
  ghost predicate Follows(items: seq<Item>, item: Item) {
    var n := Switches(items + [item]);
    var next := Advance(ProgressOf(items), item);
    && LastSpeaker(items + [item]) == next.speaker
    && DraftAt(items + [item], n) == next.draft
    && Asides(items + [item], n + 1) == next.late
  }

  /** Only an aside joins the asides. */
  lemma OnlyOthersWait(items: seq<Item>, item: Item, k: nat)
    requires !IsOther(item)
    ensures Asides(items + [item], k) == Asides(items, k)
  {
    assert (items + [item])[..|items|] == items;
  }

  lemma ContinuedByUser(items: seq<Item>, item: Item)
    requires IsUser(item) && LastSpeaker(items) != TheAssistant
    ensures Switches(items + [item]) == Switches(items) && LastSpeaker(items + [item]) == TheUser
    ensures var before := DraftAt(items, Switches(items));
            DraftAt(items + [item], Switches(items))
            == before.(userParts := before.userParts + [item.text],
                       timestamp := OrElse(before.timestamp, item.timestamp))
  {
    DraftStep(items, item, Switches(items));
  }

  lemma UserContinues(items: seq<Item>, item: Item)
    requires IsUser(item) && LastSpeaker(items) != TheAssistant
    ensures Follows(items, item)
  {
    ContinuedByUser(items, item);
    OnlyOthersWait(items, item, Switches(items) + 1);
  }

  /** A user after an assistant opens a turn, with the asides that waited. */
  lemma OpenedTurn(items: seq<Item>, item: Item)
    requires IsUser(item) && LastSpeaker(items) == TheAssistant
    ensures Switches(items + [item]) == Switches(items) + 1 && LastSpeaker(items + [item]) == TheUser
    ensures DraftAt(items + [item], Switches(items) + 1)
         == Draft([item.text], [], Asides(items, Switches(items) + 1), item.timestamp)
  {
    var m := Switches(items) + 1;
    DraftStep(items, item, m);
    NothingBeyond(items, m);
  }

  lemma NothingWaits(items: seq<Item>, item: Item)
    requires IsUser(item) && LastSpeaker(items) == TheAssistant
    ensures Asides(items + [item], Switches(items) + 2) == []
  {
    RunsFollowSwitches(items);
    OnlyOthersWait(items, item, Switches(items) + 2);
    NothingBeyond(items, Switches(items) + 2);
  }

  lemma UserOpensTurn(items: seq<Item>, item: Item)
    requires IsUser(item) && LastSpeaker(items) == TheAssistant
    ensures Follows(items, item)
  {
    OpenedTurn(items, item);
    NothingWaits(items, item);
  }

  lemma ContinuedByAssistant(items: seq<Item>, item: Item)
    requires IsAssistant(item)
    ensures Switches(items + [item]) == Switches(items) && LastSpeaker(items + [item]) == TheAssistant
    ensures var before := DraftAt(items, Switches(items));
            DraftAt(items + [item], Switches(items))
            == before.(assistantParts := before.assistantParts + [item.text],
                       timestamp := OrElse(before.timestamp, item.timestamp))
  {
    DraftStep(items, item, Switches(items));
  }

  lemma AssistantFollows(items: seq<Item>, item: Item)
    requires IsAssistant(item)
    ensures Follows(items, item)
  {
    ContinuedByAssistant(items, item);
    OnlyOthersWait(items, item, Switches(items) + 1);
  }

  /** An aside before the answer joins the open turn, one after it waits. */
  lemma ContinuedByOther(items: seq<Item>, item: Item)
    requires IsOther(item)
    ensures Switches(items + [item]) == Switches(items) && LastSpeaker(items + [item]) == LastSpeaker(items)
    ensures var before := DraftAt(items, Switches(items));
            DraftAt(items + [item], Switches(items))
            == match LastSpeaker(items)
               case Nobody => before.(observations := before.observations + [item.text])
               case TheUser => before.(observations := before.observations + [item.text],
                                       timestamp := OrElse(before.timestamp, item.timestamp))
               case TheAssistant => before
  {
    RunsFollowSwitches(items);
    DraftStep(items, item, Switches(items));
  }

  lemma OtherWaits(items: seq<Item>, item: Item)
    requires IsOther(item)
    ensures Asides(items + [item], Switches(items) + 1)
         == Asides(items, Switches(items) + 1) + if LastSpeaker(items) == TheAssistant then [item.text] else []
  {
    RunsFollowSwitches(items);
    assert (items + [item])[..|items|] == items;
  }

  lemma OtherFollows(items: seq<Item>, item: Item)
    requires IsOther(item)
    ensures Follows(items, item)
  {
    ContinuedByOther(items, item);
    OtherWaits(items, item);
  }

  lemma BlankChangesNothing(items: seq<Item>, item: Item)
    requires item.text == ""
    ensures Switches(items + [item]) == Switches(items) && LastSpeaker(items + [item]) == LastSpeaker(items)
    ensures DraftAt(items + [item], Switches(items)) == DraftAt(items, Switches(items))
  {
    DraftStep(items, item, Switches(items));
  }

  lemma BlankFollows(items: seq<Item>, item: Item)
    requires item.text == ""
    ensures Follows(items, item)
  {
    BlankChangesNothing(items, item);
    OnlyOthersWait(items, item, Switches(items) + 1);
  }

  /** A turn is over, and stays as it is, once a later one has begun. */
  lemma TurnIsOver(items: seq<Item>, item: Item, k: nat)
    requires k < Switches(items + [item])
    ensures DraftAt(items + [item], k) == DraftAt(items, k)
  {
    RunsFollowSwitches(items);
    DraftStep(items, item, k);
  }

  lemma SwitchesStep(items: seq<Item>, item: Item)
    ensures Switches(items + [item])
         == Switches(items) + if IsUser(item) && LastSpeaker(items) == TheAssistant then 1 else 0
  {
    assert (items + [item])[..|items|] == items;
  }

  lemma OverFollows(items: seq<Item>, item: Item)
    ensures DraftsUpTo(items + [item], Switches(items + [item])) == Advance(ProgressOf(items), item).over
  {
    var n, m := Switches(items), Switches(items + [item]);
    SwitchesStep(items, item);
    forall k | 0 <= k < m
      ensures DraftAt(items + [item], k) == DraftAt(items, k)
    {
      TurnIsOver(items, item, k);
    }
    assert DraftsUpTo(items + [item], m) == DraftsUpTo(items, m);
    assert m > n ==> DraftsUpTo(items, m) == DraftsUpTo(items, n) + [DraftAt(items, n)];
  }

  /** Counting afresh and going on from the count before agree. */
  lemma ProgressStep(items: seq<Item>, item: Item)
    ensures ProgressOf(items + [item]) == Advance(ProgressOf(items), item)
  {
    OverFollows(items, item);
    assert Follows(items, item) by {
      if IsUser(item) {
        if LastSpeaker(items) == TheAssistant {
          UserOpensTurn(items, item);
        } else {
          UserContinues(items, item);
        }
      } else if IsAssistant(item) {
        AssistantFollows(items, item);
      } else if IsOther(item) {
        OtherFollows(items, item);
      } else {
        BlankFollows(items, item);
      }
    }
  }

  /** What the loop variables hold. */
  ghost predicate Building(p: Progress, rowTimestamp: string, turns: seq<Turn>, current: Option<Draft>,
                           pending: seq<string>)
  {
    && |turns| == |p.over|
    && (forall k :: 0 <= k < |turns| ==> turns[k] == Finished(p.over[k], rowTimestamp))
    && match p.speaker
       case Nobody => current == None && p.draft == Draft([], [], pending, "") && p.late == []
       case TheUser => current == Some(p.draft) && pending == p.late == [] && p.draft.assistantParts == []
       case TheAssistant => current == Some(p.draft) && pending == p.late && p.draft.assistantParts != []
  }

  method OnUser(ghost p: Progress, item: Item, rowTimestamp: string, turns: seq<Turn>, current: Option<Draft>,
                pending: seq<string>)
    returns (turns': seq<Turn>, current': Option<Draft>, pending': seq<string>)
    requires Building(p, rowTimestamp, turns, current, pending) && IsUser(item)
    ensures Building(Advance(p, item), rowTimestamp, turns', current', pending')
  {
    turns', current', pending' := turns, current, pending;
    if current.None? {
      current' := Some(Draft([], [], pending, item.timestamp));
      pending' := [];
    } else if current.value.assistantParts != [] {
      turns' := turns + [Finished(current.value, rowTimestamp)];
      current' := Some(Draft([], [], pending, item.timestamp));
      pending' := [];
    }
    var draft := current'.value;
    assert [] + [item.text] == [item.text];
    draft := draft.(userParts := draft.userParts + [item.text]);
    if draft.timestamp == "" {
      draft := draft.(timestamp := item.timestamp);
    }
    current' := Some(draft);
  }

  method OnAssistant(ghost p: Progress, item: Item, rowTimestamp: string, turns: seq<Turn>, current: Option<Draft>,
                     pending: seq<string>)
    returns (current': Option<Draft>, pending': seq<string>)
    requires Building(p, rowTimestamp, turns, current, pending) && IsAssistant(item)
    ensures Building(Advance(p, item), rowTimestamp, turns, current', pending')
  {
    current', pending' := current, pending;
    if current.None? {
      current' := Some(Draft([], [], pending, item.timestamp));
      pending' := [];
    }
    var draft := current'.value;
    draft := draft.(assistantParts := draft.assistantParts + [item.text]);
    if draft.timestamp == "" {
      draft := draft.(timestamp := item.timestamp);
    }
    current' := Some(draft);
  }

  /** A blank item, or one that is neither user nor assistant. */
  method OnOther(ghost p: Progress, item: Item, rowTimestamp: string, turns: seq<Turn>, current: Option<Draft>,
                 pending: seq<string>)
    returns (current': Option<Draft>, pending': seq<string>)
    requires Building(p, rowTimestamp, turns, current, pending) && !IsUser(item) && !IsAssistant(item)
    ensures Building(Advance(p, item), rowTimestamp, turns, current', pending')
  {
    current', pending' := current, pending;
    if item.text != "" {
      if current.Some? && current.value.assistantParts == [] {
        var draft := current.value;
        draft := draft.(observations := draft.observations + [item.text]);
        if draft.timestamp == "" {
          draft := draft.(timestamp := item.timestamp);
        }
        current' := Some(draft);
      } else {
        pending' := pending + [item.text];
      }
    }
  }

  /** `_pair_items_to_turns`. */
  method PairItemsToTurns(items: seq<Item>, rowTimestamp: string) returns (turns: seq<Turn>)
    ensures turns == TurnsOf(items, rowTimestamp)
  {
    turns := [];
    var pending: seq<string>, current: Option<Draft> := [], None;
    for i := 0 to |items|
      invariant Building(ProgressOf(items[..i]), rowTimestamp, turns, current, pending)
    {
      ghost var p := ProgressOf(items[..i]);
      ProgressStep(items[..i], items[i]);
      assert items[..i] + [items[i]] == items[..i + 1];
      if items[i].text != "" && items[i].role == USER {
        turns, current, pending := OnUser(p, items[i], rowTimestamp, turns, current, pending);
      } else if items[i].text != "" && items[i].role == ASSISTANT {
        current, pending := OnAssistant(p, items[i], rowTimestamp, turns, current, pending);
      } else {
        current, pending := OnOther(p, items[i], rowTimestamp, turns, current, pending);
      }
    }
    assert items[..|items|] == items;
    RunsFollowSwitches(items);
    turns := Finish(ProgressOf(items), rowTimestamp, turns, current, pending);
    ClosedAreTheTurns(items, rowTimestamp, turns);
  }

  /** The turns once no item is left: late asides go to the last one. */
  ghost predicate Closed(p: Progress, rowTimestamp: string, all: seq<Turn>) {
    if p.speaker == Nobody && p.draft.observations == [] then all == []
    else
      && |all| == |p.over| + 1
      && (forall k :: 0 <= k < |p.over| ==> all[k] == Finished(p.over[k], rowTimestamp))
      && all[|p.over|] == Finished(p.draft.(observations := p.draft.observations + p.late), rowTimestamp)
  }

  /** After the loop: the open turn is closed and late observations are attached. */
  method Finish(ghost p: Progress, rowTimestamp: string, turns: seq<Turn>, current: Option<Draft>, pending: seq<string>)
    returns (all: seq<Turn>)
    requires Building(p, rowTimestamp, turns, current, pending) && (p.speaker == Nobody ==> p.over == [])
    ensures Closed(p, rowTimestamp, all)
  {
    all := turns;
    if current.Some? {
      all := all + [Finished(current.value, rowTimestamp)];
    }
    if pending != [] {
      if all != [] {
        var last := all[|all| - 1];
        all := all[|all| - 1 := last.(observations := last.observations + pending)];
      } else {
        all := [Turn("", "", pending, rowTimestamp)];
      }
    }
  }

  lemma ClosedAreTheTurns(items: seq<Item>, rowTimestamp: string, all: seq<Turn>)
    requires Closed(ProgressOf(items), rowTimestamp, all)
    ensures all == TurnsOf(items, rowTimestamp)
  {
    var n := Switches(items);
    RunsFollowSwitches(items);
    if LastSpeaker(items) == Nobody {
      NobodySpoke(items, 0);
      NobodySpoke(items, 1);
    }
    assert |all| == TurnCount(items);
    forall k | 0 <= k < |all|
      ensures all[k] == TurnAt(items, k, rowTimestamp)
    {
      assert k < n ==> ProgressOf(items).over[k] == DraftAt(items, k);
    }
  }
}
