/** When a turn happened and which asides it holds, told from the places of the
    items alone. */
module PairingPlaces {
  import opened Basics
  import opened Pairing
  import opened PairingTheorems

  // ----- Places in a conversation ------------------------------------------------

  /** The last to speak before item i was a user. */
  ghost predicate AfterUser(items: seq<Item>, i: nat) {
    exists h: nat :: h < i && h < |items| && IsUser(items[h]) && NoneBetween(items, h, i, IsAssistant)
  }

  ghost predicate AfterAssistant(items: seq<Item>, i: nat) {
    exists h: nat :: h < i && h < |items| && IsAssistant(items[h]) && NoneBetween(items, h, i, IsUser)
  }

  predicate NoneBetween(items: seq<Item>, h: nat, i: nat, kind: Item -> bool) {
    forall m :: h < m < i && m < |items| ==> !kind(items[m])
  }

  /** Item j is a user's, and an assistant was the last to speak before. */
  ghost predicate Opens(items: seq<Item>, j: nat) {
    j < |items| && IsUser(items[j]) && AfterAssistant(items, j)
  }

  /** Item j is an assistant's, and an assistant was not the last to speak before. */
  ghost predicate Answers(items: seq<Item>, j: nat) {
    j < |items| && IsAssistant(items[j]) && !AfterAssistant(items, j)
  }

  ghost function OpenersBefore(items: seq<Item>, i: nat): nat {
    |Below(i, (j: nat) => Opens(items, j))|
  }

  ghost function AnswersBefore(items: seq<Item>, i: nat): nat {
    |Below(i, (j: nat) => Answers(items, j))|
  }

  /** The number of the turn that is open once item i has been read. */
  ghost function TurnNumber(items: seq<Item>, i: nat): nat {
    OpenersBefore(items, i + 1)
  }

  /** An aside belongs to the first turn with no assistant item before it, or to
      the last turn. */
  ghost predicate HeldBy(items: seq<Item>, i: nat, k: nat, turns: nat) {
    && i < |items| && IsOther(items[i])
    && (AnswersBefore(items, i) == k || (k + 1 == turns && AnswersBefore(items, i) > k))
  }

  /** Item i can date turn k: it is said in the turn, or it is an aside between the
      turn's first user item and its first assistant item. */
  ghost predicate CanDate(items: seq<Item>, i: nat, k: nat) {
    && i < |items| && items[i].timestamp != "" && TurnNumber(items, i) == k
    && (IsUser(items[i]) || IsAssistant(items[i]) || (IsOther(items[i]) && AfterUser(items, i)))
  }

  /** The time of the first of the first n items that can date turn k, if any. */
  ghost predicate DatedBy(items: seq<Item>, n: nat, k: nat, time: string) {
    if time == "" then forall i: nat :: i < n ==> !CanDate(items, i, k)
    else
      exists i: nat :: i < n && CanDate(items, i, k) && items[i].timestamp == time
                       && forall j: nat :: j < i ==> !CanDate(items, j, k)
  }

  // ----- The definitions of the pairing, by places ----------------------------------

  ghost predicate SpeakerTold(items: seq<Item>, i: nat, speaker: Speaker) {
    (speaker == TheUser <==> AfterUser(items, i)) && (speaker == TheAssistant <==> AfterAssistant(items, i))
  }

  lemma AfterUserStep(items: seq<Item>, i: nat)
    requires i < |items|
    ensures AfterUser(items, i + 1) <==> IsUser(items[i]) || (AfterUser(items, i) && !IsAssistant(items[i]))
  {
    if IsUser(items[i]) {
      assert NoneBetween(items, i, i + 1, IsAssistant);
    } else if AfterUser(items, i) && !IsAssistant(items[i]) {
      var h: nat :| h < i && IsUser(items[h]) && NoneBetween(items, h, i, IsAssistant);
      assert NoneBetween(items, h, i + 1, IsAssistant);
    }
    if AfterUser(items, i + 1) {
      var h: nat :| h < i + 1 && IsUser(items[h]) && NoneBetween(items, h, i + 1, IsAssistant);
      assert NoneBetween(items, h, i, IsAssistant);
    }
  }

  lemma AfterAssistantStep(items: seq<Item>, i: nat)
    requires i < |items|
    ensures AfterAssistant(items, i + 1) <==> IsAssistant(items[i]) || (AfterAssistant(items, i) && !IsUser(items[i]))
  {
    if IsAssistant(items[i]) {
      assert NoneBetween(items, i, i + 1, IsUser);
    } else if AfterAssistant(items, i) && !IsUser(items[i]) {
      var h: nat :| h < i && IsAssistant(items[h]) && NoneBetween(items, h, i, IsUser);
      assert NoneBetween(items, h, i + 1, IsUser);
    }
    if AfterAssistant(items, i + 1) {
      var h: nat :| h < i + 1 && IsAssistant(items[h]) && NoneBetween(items, h, i + 1, IsUser);
      assert NoneBetween(items, h, i, IsUser);
    }
  }

  lemma {:induction false} SpeakerIsTold(items: seq<Item>, i: nat)
    requires i <= |items|
    ensures SpeakerTold(items, i, LastSpeaker(items[..i]))
  {
    if i > 0 {
      SpeakerIsTold(items, i - 1);
      AfterUserStep(items, i - 1);
      AfterAssistantStep(items, i - 1);
      assert items[..i][..i - 1] == items[..i - 1];
    }
  }

  lemma OpenersStep(items: seq<Item>, i: nat)
    ensures OpenersBefore(items, i + 1) == OpenersBefore(items, i) + if Opens(items, i) then 1 else 0
    ensures OpenersBefore(items, 0) == 0
  {
    BelowStep(i, (j: nat) => Opens(items, j));
  }

  lemma AnswersStep(items: seq<Item>, i: nat)
    ensures AnswersBefore(items, i + 1) == AnswersBefore(items, i) + if Answers(items, i) then 1 else 0
    ensures AnswersBefore(items, 0) == 0
  {
    BelowStep(i, (j: nat) => Answers(items, j));
  }

  lemma CountStep(items: seq<Item>, i: nat)
    requires i < |items|
    ensures Switches(items[..i + 1]) == Switches(items[..i]) + if Opens(items, i) then 1 else 0
    ensures AssistantRuns(items[..i + 1]) == AssistantRuns(items[..i]) + if Answers(items, i) then 1 else 0
  {
    assert LastSpeaker(items[..i]) == TheAssistant <==> AfterAssistant(items, i) by {
      SpeakerIsTold(items, i);
    }
    assert items[..i + 1][..i] == items[..i];
  }

  lemma {:induction false} SwitchesAreTold(items: seq<Item>, i: nat)
    requires i <= |items|
    ensures Switches(items[..i]) == OpenersBefore(items, i)
  {
    if i == 0 {
      OpenersStep(items, 0);
    } else {
      SwitchesAreTold(items, i - 1);
      CountStep(items, i - 1);
      OpenersStep(items, i - 1);
    }
  }

  lemma {:induction false} RunsAreTold(items: seq<Item>, i: nat)
    requires i <= |items|
    ensures AssistantRuns(items[..i]) == AnswersBefore(items, i)
  {
    if i == 0 {
      AnswersStep(items, 0);
    } else {
      RunsAreTold(items, i - 1);
      CountStep(items, i - 1);
      AnswersStep(items, i - 1);
    }
  }

  // ----- The time of a turn -----------------------------------------------------------

  lemma DatedStep(items: seq<Item>, n: nat, k: nat, time: string)
    requires n < |items| && DatedBy(items, n, k, time)
    ensures DatedBy(items, n + 1, k, if time == "" && CanDate(items, n, k) then items[n].timestamp else time)
  {
    if time == "" && CanDate(items, n, k) {
      assert forall j: nat :: j < n ==> !CanDate(items, j, k);
    }
  }

  lemma TimestampStep(items: seq<Item>, i: nat, k: nat)
    requires i < |items|
    ensures var before := TimestampOf(items[..i], k);
            TimestampOf(items[..i + 1], k)
            == if before == "" && CanDate(items, i, k) then items[i].timestamp else before
  {
    assert LastSpeaker(items[..i]) == TheUser <==> AfterUser(items, i) by {
      SpeakerIsTold(items, i);
    }
    assert Switches(items[..i + 1]) == TurnNumber(items, i) by {
      SwitchesAreTold(items, i + 1);
    }
    assert items[..i + 1][..i] == items[..i];
  }

  lemma {:induction false} TimeIsTold(items: seq<Item>, n: nat, k: nat)
    requires n <= |items|
    ensures DatedBy(items, n, k, TimestampOf(items[..n], k))
  {
    if n > 0 {
      TimeIsTold(items, n - 1, k);
      TimestampStep(items, n - 1, k);
      DatedStep(items, n - 1, k, TimestampOf(items[..n - 1], k));
    }
  }

  /** A turn has the time of the first item that can date it, and the row's time
      only when no item can. */
  lemma TurnIsDated(items: seq<Item>, rowTimestamp: string, k: nat)
    requires k < |TurnsOf(items, rowTimestamp)|
    ensures exists time :: DatedBy(items, |items|, k, time)
                           && TurnsOf(items, rowTimestamp)[k].timestamp == if time != "" then time else rowTimestamp
  {
    TimeIsTold(items, |items|, k);
    assert items[..|items|] == items;
    assert TurnsOf(items, rowTimestamp)[k] == TurnAt(items, k, rowTimestamp);
  }

  // ----- The asides of a turn ------------------------------------------------------------

  ghost function TextAt(items: seq<Item>): nat -> string {
    (i: nat) => if i < |items| then items[i].text else ""
  }

  ghost function AfterAnswers(items: seq<Item>, from: nat, to: nat): nat -> bool {
    (i: nat) => i < |items| && IsOther(items[i]) && from <= AnswersBefore(items, i) <= to
  }

  lemma AsideStep(items: seq<Item>, i: nat, k: nat)
    requires i < |items|
    ensures Asides(items[..i + 1], k)
         == Asides(items[..i], k)
            + if IsOther(items[i]) && AnswersBefore(items, i) == k then [items[i].text] else []
    ensures AnswersBefore(items, i) < k ==> Asides(items[..i], k) == []
  {
    RunsAreTold(items, i);
    NothingBeyond(items[..i], k);
    assert items[..i + 1][..i] == items[..i];
  }

  lemma {:induction false} AsidesAreTold(items: seq<Item>, n: nat, k: nat)
    requires n <= |items|
    ensures Kept(n, AfterAnswers(items, k, k), TextAt(items)) == Asides(items[..n], k)
  {
    if n > 0 {
      AsidesAreTold(items, n - 1, k);
      AsideStep(items, n - 1, k);
    }
  }

  lemma LateStep<T>(a: seq<T>, b: seq<T>, x: seq<T>, y: seq<T>)
    requires x == [] || (y == [] && b == [])
    ensures (a + x) + (b + y) == (a + b) + (x + y)
  {
  }

  /** Asides after k answers come before those after k + 1. */
  lemma {:induction false} LateAsidesAreTold(items: seq<Item>, n: nat, k: nat)
    requires n <= |items|
    ensures Kept(n, AfterAnswers(items, k, k + 1), TextAt(items)) == Asides(items[..n], k) + Asides(items[..n], k + 1)
  {
    if n > 0 {
      var i := n - 1;
      var early := if IsOther(items[i]) && AnswersBefore(items, i) == k then [items[i].text] else [];
      var late := if IsOther(items[i]) && AnswersBefore(items, i) == k + 1 then [items[i].text] else [];
      LateAsidesAreTold(items, i, k);
      AsideStep(items, i, k);
      AsideStep(items, i, k + 1);
      LateStep(Asides(items[..i], k), Asides(items[..i], k + 1), early, late);
      assert early + late == if AfterAnswers(items, k, k + 1)(i) then [items[i].text] else [];
    }
  }

  lemma {:induction false} AnswersGrow(items: seq<Item>, i: nat, n: nat)
    requires i <= n <= |items|
    ensures AnswersBefore(items, i) <= AnswersBefore(items, n)
    decreases n
  {
    if i < n {
      AnswersGrow(items, i, n - 1);
      AnswersStep(items, n - 1);
    }
  }

  ghost function Held(items: seq<Item>, k: nat, turns: nat): nat -> bool {
    (i: nat) => HeldBy(items, i, k, turns)
  }

  lemma AnswersBound(items: seq<Item>, i: nat)
    requires i <= |items|
    ensures AnswersBefore(items, i) <= AssistantRuns(items) <= Switches(items) + 1
  {
    RunsFollowSwitches(items);
    RunsAreTold(items, |items|);
    AnswersGrow(items, i, |items|);
    assert items[..|items|] == items;
  }

  lemma {:induction false} LastTurnHolds(items: seq<Item>, n: nat, k: nat)
    requires n <= |items| && Switches(items) == k
    ensures Kept(n, AfterAnswers(items, k, k + 1), TextAt(items)) == Kept(n, Held(items, k, k + 1), TextAt(items))
  {
    if n > 0 {
      LastTurnHolds(items, n - 1, k);
      AnswersBound(items, n - 1);
    }
  }

  lemma {:induction false} EarlierTurnHolds(items: seq<Item>, n: nat, k: nat, turns: nat)
    requires n <= |items| && k + 1 < turns
    ensures Kept(n, AfterAnswers(items, k, k), TextAt(items)) == Kept(n, Held(items, k, turns), TextAt(items))
  {
    if n > 0 {
      EarlierTurnHolds(items, n - 1, k, turns);
    }
  }

  lemma LastAsidesArePlaced(items: seq<Item>, k: nat, turns: nat)
    requires Switches(items) == k && turns == k + 1
    ensures Kept(|items|, Held(items, k, turns), TextAt(items)) == Asides(items, k) + Asides(items, turns)
  {
    LateAsidesAreTold(items, |items|, k);
    LastTurnHolds(items, |items|, k);
    assert items[..|items|] == items;
  }

  lemma AsidesArePlaced(items: seq<Item>, k: nat)
    requires k < TurnCount(items)
    ensures ObservationsOf(items, k) == Kept(|items|, Held(items, k, TurnCount(items)), TextAt(items))
  {
    var n, turns := |items|, TurnCount(items);
    assert items[..n] == items;
    if k + 1 == turns {
      RunsFollowSwitches(items);
      LastAsidesArePlaced(items, k, turns);
    } else {
      AsidesAreTold(items, n, k);
      EarlierTurnHolds(items, n, k, turns);
    }
  }

  /** A turn's observations are the texts of the asides that belong to it. */
  lemma TurnHoldsItsAsides(items: seq<Item>, rowTimestamp: string, k: nat)
    requires k < |TurnsOf(items, rowTimestamp)|
    ensures var turns := TurnsOf(items, rowTimestamp);
            turns[k].observations == Kept(|items|, Held(items, k, |turns|), TextAt(items))
  {
    assert TurnsOf(items, rowTimestamp)[k] == TurnAt(items, k, rowTimestamp);
    AsidesArePlaced(items, k);
  }

  lemma NobodyDates(items: seq<Item>)
    requires LastSpeaker(items) == Nobody
    ensures DatedBy(items, |items|, 0, "")
  {
    assert TimestampOf(items, 0) == "" by {
      NobodySpoke(items, 0);
    }
    TimeIsTold(items, |items|, 0);
    assert items[..|items|] == items;
  }

  lemma NobodyHolds(items: seq<Item>)
    requires LastSpeaker(items) == Nobody && Asides(items, 0) == []
    ensures Kept(|items|, Held(items, 0, 1), TextAt(items)) == []
  {
    assert Asides(items, 1) == [] by {
      NobodySpoke(items, 1);
    }
    assert Switches(items) == 0 by {
      RunsFollowSwitches(items);
    }
    LastAsidesArePlaced(items, 0, 1);
  }

  /** With no turn there is neither a time nor an aside. */
  lemma NoTurnHoldsNothing(items: seq<Item>)
    requires TurnCount(items) == 0
    ensures DatedBy(items, |items|, 0, "") && Kept(|items|, Held(items, 0, 1), TextAt(items)) == []
  {
    NobodyDates(items);
    NobodyHolds(items);
  }
}
