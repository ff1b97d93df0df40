/** Pairing loses nothing, repeats nothing, and is the only way to cut the
    dialogue into user-then-assistant turns. */
module PairingTheorems {
  import opened Basics
  import opened Pairing

  // ----- Reading parts across the turns -----------------------------------------

  lemma {:induction false} FlatSame<T>(f: nat -> seq<T>, g: nat -> seq<T>, n: nat)
    requires forall k: nat :: k < n ==> f(k) == g(k)
    ensures Flat(f, n) == Flat(g, n)
  {
    if n > 0 {
      FlatSame(f, g, n - 1);
    }
  }

  lemma {:induction false} FlatPadding<T>(f: nat -> seq<T>, m: nat, n: nat)
    requires m <= n && forall k: nat :: m <= k < n ==> f(k) == []
    ensures Flat(f, n) == Flat(f, m)
  {
    if m < n {
      FlatPadding(f, m, n - 1);
    }
  }

  /** Adding at the last non-empty part adds at the end. */
  lemma FlatAppend<T>(f: nat -> seq<T>, g: nat -> seq<T>, m: nat, n: nat, added: seq<T>)
    requires m < n && g(m) == f(m) + added
    requires forall k: nat :: k < n && k != m ==> g(k) == f(k)
    requires forall k: nat :: m < k < n ==> f(k) == []
    ensures Flat(g, n) == Flat(f, n) + added
  {
    FlatSame(f, g, m);
    FlatPadding(f, m + 1, n);
    FlatPadding(g, m + 1, n);
  }

  /** Two parts merged into one read the same. */
  lemma FlatMergeLast<T>(f: nat -> seq<T>, g: nat -> seq<T>, n: nat)
    requires n > 0 && f(n - 1) == g(n - 1) + g(n)
    requires forall k: nat :: k < n - 1 ==> f(k) == g(k)
    ensures Flat(f, n) == Flat(g, n + 1)
  {
    FlatSame(f, g, n - 1);
    var before := Flat(g, n - 1);
    assert Flat(g, n) == before + g(n - 1);
    assert before + (g(n - 1) + g(n)) == (before + g(n - 1)) + g(n);
  }

  function UsersOf(items: seq<Item>): nat -> seq<string> {
    (k: nat) => UserParts(items, k)
  }

  function AssistantsOf(items: seq<Item>): nat -> seq<string> {
    (k: nat) => AssistantParts(items, k)
  }

  function AsidesOf(items: seq<Item>): nat -> seq<string> {
    (k: nat) => Asides(items, k)
  }

  // ----- Nothing lost, repeated or reordered --------------------------------------

  function Texts(items: seq<Item>, wanted: Item -> bool): seq<string> {
    if items == [] then []
    else
      var last := items[|items| - 1];
      Texts(items[..|items| - 1], wanted) + if wanted(last) then [last.text] else []
  }

  lemma {:induction false} UsersAcrossTurns(items: seq<Item>, n: nat)
    requires n > Switches(items)
    ensures Flat(UsersOf(items), n) == Texts(items, IsUser)
  {
    if items == [] {
      FlatPadding(UsersOf(items), 0, n);
    } else {
      var init, last := items[..|items| - 1], items[|items| - 1];
      UsersAcrossTurns(init, n);
      forall k: nat {
        NothingBeyond(init, k);
      }
      if IsUser(last) {
        FlatAppend(UsersOf(init), UsersOf(items), Switches(items), n, [last.text]);
      } else {
        FlatSame(UsersOf(init), UsersOf(items), n);
      }
    }
  }

  lemma {:induction false} AssistantsAcrossTurns(items: seq<Item>, n: nat)
    requires n > Switches(items)
    ensures Flat(AssistantsOf(items), n) == Texts(items, IsAssistant)
  {
    if items == [] {
      FlatPadding(AssistantsOf(items), 0, n);
    } else {
      var init, last := items[..|items| - 1], items[|items| - 1];
      AssistantsAcrossTurns(init, n);
      forall k: nat {
        NothingBeyond(init, k);
      }
      if IsAssistant(last) {
        FlatAppend(AssistantsOf(init), AssistantsOf(items), Switches(items), n, [last.text]);
      } else {
        FlatSame(AssistantsOf(init), AssistantsOf(items), n);
      }
    }
  }

  lemma {:induction false} AsidesAcrossRuns(items: seq<Item>, n: nat)
    requires n > AssistantRuns(items)
    ensures Flat(AsidesOf(items), n) == Texts(items, IsOther)
  {
    if items == [] {
      FlatPadding(AsidesOf(items), 0, n);
    } else {
      var init, last := items[..|items| - 1], items[|items| - 1];
      AsidesAcrossRuns(init, n);
      forall k: nat {
        NothingBeyond(init, k);
      }
      if IsOther(last) {
        FlatAppend(AsidesOf(init), AsidesOf(items), AssistantRuns(init), n, [last.text]);
      } else {
        FlatSame(AsidesOf(init), AsidesOf(items), n);
      }
    }
  }

  function AllObservations(turns: seq<Turn>): seq<string> {
    if turns == [] then [] else AllObservations(turns[..|turns| - 1]) + turns[|turns| - 1].observations
  }

  lemma {:induction false} ObservationsFlat(turns: seq<Turn>, f: nat -> seq<string>)
    requires forall k: nat :: k < |turns| ==> turns[k].observations == f(k)
    ensures AllObservations(turns) == Flat(f, |turns|)
  {
    if turns != [] {
      ObservationsFlat(turns[..|turns| - 1], f);
    }
  }

  function ObservationsFn(items: seq<Item>): nat -> seq<string> {
    (k: nat) => ObservationsOf(items, k)
  }

  /** The last turn takes the asides that came after its assistant block began. */
  lemma ObservationsFlatAsides(items: seq<Item>)
    ensures Flat(ObservationsFn(items), TurnCount(items)) == Texts(items, IsOther)
  {
    var n := TurnCount(items);
    RunsFollowSwitches(items);
    AsidesAcrossRuns(items, n + 1);
    if n == 0 {
      assert Flat(AsidesOf(items), 1) == Flat(AsidesOf(items), 0) + Asides(items, 0);
    } else {
      FlatMergeLast(ObservationsFn(items), AsidesOf(items), n);
    }
  }

  /** The observations, read across the turns, are the texts of the items that
      are neither user nor assistant, in order, each once. */
  lemma ObservationsAreConserved(items: seq<Item>, rowTimestamp: string)
    ensures AllObservations(TurnsOf(items, rowTimestamp)) == Texts(items, IsOther)
  {
    ObservationsFlat(TurnsOf(items, rowTimestamp), ObservationsFn(items));
    ObservationsFlatAsides(items);
  }

  // ----- Joined texts ---------------------------------------------------------------

  ghost predicate NoneBlank(parts: seq<string>) {
    forall i :: 0 <= i < |parts| ==> parts[i] != ""
  }

  lemma {:induction false} JoinConcat(a: seq<string>, b: seq<string>)
    requires a != [] && b != []
    ensures Join(a + b) == Join(a) + "\n" + Join(b)
  {
    var b' := b[..|b| - 1];
    assert (a + b)[..|a + b| - 1] == a + b';
    if b' == [] {
      assert a + b' == a;
    } else {
      JoinConcat(a, b');
    }
  }

  lemma JoinBlank(parts: seq<string>)
    requires NoneBlank(parts)
    ensures Join(parts) == "" <==> parts == []
  {
  }

  /** The non-blank ones among texts(0), ..., texts(n - 1). */
  function Present(texts: nat -> string, n: nat): seq<string> {
    if n == 0 then [] else Present(texts, n - 1) + if texts(n - 1) == "" then [] else [texts(n - 1)]
  }

  /** Joining each turn's parts and then the turns is joining all parts. */
  lemma {:induction false} JoinOfJoins(parts: nat -> seq<string>, texts: nat -> string, n: nat)
    requires forall k: nat :: k < n ==> NoneBlank(parts(k)) && texts(k) == Join(parts(k))
    ensures Join(Present(texts, n)) == Join(Flat(parts, n))
    ensures Present(texts, n) == [] <==> Flat(parts, n) == []
  {
    if n > 0 {
      JoinOfJoins(parts, texts, n - 1);
      JoinBlank(parts(n - 1));
      var before, all := Present(texts, n - 1), Flat(parts, n - 1);
      if parts(n - 1) == [] {
        assert Present(texts, n) == before && Flat(parts, n) == all;
      } else if before == [] {
        assert Present(texts, n) == [texts(n - 1)] && Flat(parts, n) == parts(n - 1);
      } else {
        JoinConcat(before, [texts(n - 1)]);
        JoinConcat(all, parts(n - 1));
      }
    }
  }

  lemma {:induction false} PartsAreNotBlank(items: seq<Item>, k: nat)
    ensures NoneBlank(UserParts(items, k)) && NoneBlank(AssistantParts(items, k))
  {
    if items != [] {
      PartsAreNotBlank(items[..|items| - 1], k);
    }
  }

  function UserTexts(turns: seq<Turn>): nat -> string {
    (k: nat) => if k < |turns| then turns[k].userText else ""
  }

  function AssistantTexts(turns: seq<Turn>): nat -> string {
    (k: nat) => if k < |turns| then turns[k].assistantText else ""
  }

  /** Joined across the turns, the user texts are the user items joined, and
      likewise the assistant texts. */
  lemma SpokenTextIsConserved(items: seq<Item>, rowTimestamp: string)
    ensures var turns := TurnsOf(items, rowTimestamp);
            && Join(Present(UserTexts(turns), |turns|)) == Join(Texts(items, IsUser))
            && Join(Present(AssistantTexts(turns), |turns|)) == Join(Texts(items, IsAssistant))
  {
    var turns := TurnsOf(items, rowTimestamp);
    var users, assistants := UserTexts(turns), AssistantTexts(turns);
    forall k: nat | k < |turns|
      ensures NoneBlank(UsersOf(items)(k)) && users(k) == Join(UsersOf(items)(k))
      ensures NoneBlank(AssistantsOf(items)(k)) && assistants(k) == Join(AssistantsOf(items)(k))
    {
      PartsAreNotBlank(items, k);
      assert turns[k] == TurnAt(items, k, rowTimestamp);
    }
    PartsOfAllTurns(items, |turns|);
    JoinOfJoins(UsersOf(items), users, |turns|);
    JoinOfJoins(AssistantsOf(items), assistants, |turns|);
  }

  lemma PartsOfAllTurns(items: seq<Item>, n: nat)
    requires n == TurnCount(items)
    ensures Flat(UsersOf(items), n) == Texts(items, IsUser)
    ensures Flat(AssistantsOf(items), n) == Texts(items, IsAssistant)
  {
    if n > Switches(items) {
      UsersAcrossTurns(items, n);
      AssistantsAcrossTurns(items, n);
    } else {
      RunsFollowSwitches(items);
      NobodySpoke(items, 0);
      UsersAcrossTurns(items, 1);
      AssistantsAcrossTurns(items, 1);
      FlatPadding(UsersOf(items), 0, 1);
      FlatPadding(AssistantsOf(items), 0, 1);
    }
  }

  // ----- The shape of the turns -------------------------------------------------------

  lemma {:induction false} PartsShape(items: seq<Item>, k: nat)
    ensures k < Switches(items) ==> AssistantParts(items, k) != []
    ensures 0 < k <= Switches(items) ==> UserParts(items, k) != []
    ensures LastSpeaker(items) == TheAssistant <==> AssistantParts(items, Switches(items)) != []
    ensures LastSpeaker(items) == TheUser ==> UserParts(items, Switches(items)) != []
  {
    if items != [] {
      var init := items[..|items| - 1];
      PartsShape(init, k);
      PartsShape(init, Switches(init));
      NothingBeyond(init, Switches(init) + 1);
    }
  }

  /** Every turn but the first has user text, every turn but the last has
      assistant text, and if anybody spoke every turn has one or the other. */
  lemma TurnShape(items: seq<Item>, rowTimestamp: string, k: nat)
    requires k < TurnCount(items)
    ensures var turns := TurnsOf(items, rowTimestamp);
            && (k > 0 ==> turns[k].userText != "")
            && (k + 1 < |turns| ==> turns[k].assistantText != "")
            && (LastSpeaker(items) != Nobody ==> turns[k].userText != "" || turns[k].assistantText != "")
            && (LastSpeaker(items) == Nobody ==> |turns| == 1 && turns[k].observations != [])
  {
    PartsShape(items, k);
    PartsAreNotBlank(items, k);
    JoinBlank(UserParts(items, k));
    JoinBlank(AssistantParts(items, k));
  }

  // ----- The only segmentation ----------------------------------------------------------

  datatype Block = Block(users: seq<string>, assistants: seq<string>)

  type Dialogue = seq<(Speaker, string)>

  function Said(speaker: Speaker, texts: seq<string>): Dialogue {
    seq(|texts|, i requires 0 <= i < |texts| => (speaker, texts[i]))
  }

  function BlockSaid(block: Block): Dialogue {
    Said(TheUser, block.users) + Said(TheAssistant, block.assistants)
  }

  function BlocksSaid(blocks: seq<Block>): Dialogue {
    if blocks == [] then [] else BlocksSaid(blocks[..|blocks| - 1]) + BlockSaid(blocks[|blocks| - 1])
  }

  /** Who said what, in order. */
  function DialogueOf(items: seq<Item>): Dialogue {
    if items == [] then []
    else
      var last := items[|items| - 1];
      DialogueOf(items[..|items| - 1])
      + if IsUser(last) then [(TheUser, last.text)]
        else if IsAssistant(last) then [(TheAssistant, last.text)]
        else []
  }

  /** User blocks then assistant blocks, neither missing except at the two ends. */
  ghost predicate Segmentation(blocks: seq<Block>, dialogue: Dialogue) {
    && BlocksSaid(blocks) == dialogue
    && (forall k :: 0 <= k < |blocks| ==> blocks[k].users != [] || blocks[k].assistants != [])
    && (forall k :: 0 < k < |blocks| ==> blocks[k].users != [])
    && (forall k :: 0 <= k < |blocks| - 1 ==> blocks[k].assistants != [])
  }

  lemma SegmentationInit(blocks: seq<Block>, dialogue: Dialogue)
    requires Segmentation(blocks, dialogue) && blocks != []
    ensures Segmentation(blocks[..|blocks| - 1], BlocksSaid(blocks[..|blocks| - 1]))
    ensures var d := BlocksSaid(blocks[..|blocks| - 1]);
            d != [] ==> d[|d| - 1].0 == TheAssistant && blocks[|blocks| - 1].users != []
  {
    var init := blocks[..|blocks| - 1];
    if init != [] {
      var before := init[|init| - 1];
      assert before == blocks[|blocks| - 2];
      var said := Said(TheAssistant, before.assistants);
      assert said[|said| - 1].0 == TheAssistant;
    }
  }

  /** The last part not by the speaker ends the prefix; only they follow it. */
  lemma SuffixStartsAfter(a: Dialogue, texts: seq<string>, speaker: Speaker)
    requires a == [] || a[|a| - 1].0 != speaker
    ensures a != [] ==> (a + Said(speaker, texts))[|a| - 1].0 != speaker
    ensures forall i :: |a| <= i < |a| + |texts| ==> (a + Said(speaker, texts))[i].0 == speaker
  {
  }

  lemma SuffixesAgree(a1: Dialogue, a2: Dialogue, t1: seq<string>, t2: seq<string>, speaker: Speaker)
    requires a1 + Said(speaker, t1) == a2 + Said(speaker, t2)
    requires a1 == [] || a1[|a1| - 1].0 != speaker
    requires a2 == [] || a2[|a2| - 1].0 != speaker
    ensures a1 == a2 && t1 == t2
  {
    var d1, d2 := a1 + Said(speaker, t1), a2 + Said(speaker, t2);
    assert |a1| + |t1| == |d1| == |d2| == |a2| + |t2|;
    SuffixStartsAfter(a1, t1, speaker);
    SuffixStartsAfter(a2, t2, speaker);
    assert |a1| == |a2|;
    assert a1 == d1[..|a1|] && a2 == d2[..|a2|];
    forall i | 0 <= i < |t1|
      ensures t1[i] == t2[i]
    {
      assert d1[|a1| + i] == (speaker, t1[i]) && d2[|a1| + i] == (speaker, t2[i]);
    }
  }

  lemma UsersEndIsNotAssistant(d: Dialogue, users: seq<string>)
    requires d != [] ==> users != []
    ensures var e := d + Said(TheUser, users);
            e == [] || e[|e| - 1].0 != TheAssistant
  {
    if users != [] {
      var said := Said(TheUser, users);
      assert (d + said)[|d + said| - 1] == said[|said| - 1];
    }
  }

  lemma LastBlocksAgree(b1: seq<Block>, b2: seq<Block>, dialogue: Dialogue)
    requires Segmentation(b1, dialogue) && Segmentation(b2, dialogue) && b1 != [] && b2 != []
    ensures b1[|b1| - 1] == b2[|b2| - 1]
    ensures BlocksSaid(b1[..|b1| - 1]) == BlocksSaid(b2[..|b2| - 1])
  {
    var i1, l1, i2, l2 := b1[..|b1| - 1], b1[|b1| - 1], b2[..|b2| - 1], b2[|b2| - 1];
    SegmentationInit(b1, dialogue);
    SegmentationInit(b2, dialogue);
    var d1, d2 := BlocksSaid(i1), BlocksSaid(i2);
    var e1, e2 := d1 + Said(TheUser, l1.users), d2 + Said(TheUser, l2.users);
    assert dialogue == e1 + Said(TheAssistant, l1.assistants) == e2 + Said(TheAssistant, l2.assistants);
    UsersEndIsNotAssistant(d1, l1.users);
    UsersEndIsNotAssistant(d2, l2.users);
    SuffixesAgree(e1, e2, l1.assistants, l2.assistants, TheAssistant);
    SuffixesAgree(d1, d2, l1.users, l2.users, TheUser);
  }

  /** A dialogue has at most one segmentation. */
  lemma {:induction false} SegmentationIsUnique(b1: seq<Block>, b2: seq<Block>, dialogue: Dialogue)
    requires Segmentation(b1, dialogue) && Segmentation(b2, dialogue)
    ensures b1 == b2
    decreases |b1|
  {
    if b1 != [] && b2 != [] {
      var i1, l1, i2, l2 := b1[..|b1| - 1], b1[|b1| - 1], b2[..|b2| - 1], b2[|b2| - 1];
      LastBlocksAgree(b1, b2, dialogue);
      SegmentationInit(b1, dialogue);
      SegmentationInit(b2, dialogue);
      SegmentationIsUnique(i1, i2, BlocksSaid(i1));
      assert b1 == i1 + [l1] && b2 == i2 + [l2];
    } else {
      EmptySaysNothing(b1);
      EmptySaysNothing(b2);
    }
  }

  lemma EmptySaysNothing(blocks: seq<Block>)
    requires Segmentation(blocks, BlocksSaid(blocks))
    ensures BlocksSaid(blocks) == [] <==> blocks == []
  {
    if blocks != [] {
      var last := blocks[|blocks| - 1];
      assert |BlockSaid(last)| == |last.users| + |last.assistants| > 0;
    }
  }

  /** The parts that the pairing puts into its turns. */
  function PairedBlocks(items: seq<Item>): seq<Block> {
    if LastSpeaker(items) == Nobody then []
    else seq(Switches(items) + 1, k requires 0 <= k <= Switches(items) => BlockAt(items, k))
  }

  function BlockAt(items: seq<Item>, k: nat): Block {
    Block(UserParts(items, k), AssistantParts(items, k))
  }

  function SaidBy(items: seq<Item>): nat -> Dialogue {
    (k: nat) => BlockSaid(BlockAt(items, k))
  }

  lemma {:induction false} BlocksSaidUpTo(items: seq<Item>, n: nat)
    requires LastSpeaker(items) != Nobody && n <= Switches(items) + 1
    ensures BlocksSaid(PairedBlocks(items)[..n]) == Flat(SaidBy(items), n)
  {
    if n > 0 {
      BlocksSaidUpTo(items, n - 1);
      assert PairedBlocks(items)[..n][..n - 1] == PairedBlocks(items)[..n - 1];
    }
  }

  /** What one more item adds to the block of its turn, and to no other. */
  lemma SaidStep(items: seq<Item>, k: nat)
    requires items != []
    ensures var init, last, s := items[..|items| - 1], items[|items| - 1], Switches(items);
            && (IsUser(last) && s == k ==> SaidBy(items)(k) == SaidBy(init)(k) + [(TheUser, last.text)])
            && (IsAssistant(last) && s == k ==> SaidBy(items)(k) == SaidBy(init)(k) + [(TheAssistant, last.text)])
            && (!(IsUser(last) || IsAssistant(last)) || s != k ==> SaidBy(items)(k) == SaidBy(init)(k))
  {
    var init, last, s := items[..|items| - 1], items[|items| - 1], Switches(items);
    PartsShape(init, 0);
    NothingBeyond(init, s);
    if IsUser(last) && s == k {
      assert AssistantParts(init, s) == [];
      assert Said(TheUser, UserParts(items, s)) == Said(TheUser, UserParts(init, s)) + [(TheUser, last.text)];
    } else if IsAssistant(last) && s == k {
      assert Said(TheAssistant, AssistantParts(items, s))
          == Said(TheAssistant, AssistantParts(init, s)) + [(TheAssistant, last.text)];
    }
  }

  lemma {:induction false} DialogueAcrossTurns(items: seq<Item>, n: nat)
    requires n > Switches(items)
    ensures Flat(SaidBy(items), n) == DialogueOf(items)
  {
    if items == [] {
      forall k: nat
        ensures SaidBy(items)(k) == []
      {
        assert BlockAt(items, k) == Block([], []);
      }
      FlatPadding(SaidBy(items), 0, n);
    } else {
      var init, last, s := items[..|items| - 1], items[|items| - 1], Switches(items);
      DialogueAcrossTurns(init, n);
      forall k: nat {
        SaidStep(items, k);
      }
      forall k: nat | k > Switches(init)
        ensures SaidBy(init)(k) == []
      {
        NothingBeyond(init, k);
        assert BlockAt(init, k) == Block([], []);
      }
      if IsUser(last) || IsAssistant(last) {
        var added := [(if IsUser(last) then TheUser else TheAssistant, last.text)];
        FlatAppend(SaidBy(init), SaidBy(items), s, n, added);
      } else {
        FlatSame(SaidBy(init), SaidBy(items), n);
      }
    }
  }

  lemma PairedBlocksSay(items: seq<Item>)
    ensures BlocksSaid(PairedBlocks(items)) == DialogueOf(items)
  {
    var paired := PairedBlocks(items);
    DialogueAcrossTurns(items, Switches(items) + 1);
    if paired == [] {
      RunsFollowSwitches(items);
      NobodySpoke(items, 0);
      assert BlockSaid(BlockAt(items, 0)) == [];
      FlatPadding(SaidBy(items), 0, 1);
    } else {
      BlocksSaidUpTo(items, |paired|);
      assert paired[..|paired|] == paired;
    }
  }

  lemma PairedIsSegmentation(items: seq<Item>)
    ensures Segmentation(PairedBlocks(items), DialogueOf(items))
  {
    var paired := PairedBlocks(items);
    PairedBlocksSay(items);
    forall k | 0 <= k < |paired|
      ensures k > 0 ==> paired[k].users != []
      ensures k < |paired| - 1 ==> paired[k].assistants != []
      ensures paired[k].users != [] || paired[k].assistants != []
    {
      PartsShape(items, k);
    }
  }

  /** Pairing cuts the dialogue into user-then-assistant turns, and no other cut
      does. */
  lemma PairingIsTheSegmentation(items: seq<Item>, blocks: seq<Block>)
    ensures Segmentation(blocks, DialogueOf(items)) <==> blocks == PairedBlocks(items)
  {
    PairedIsSegmentation(items);
    if Segmentation(blocks, DialogueOf(items)) {
      SegmentationIsUnique(blocks, PairedBlocks(items), DialogueOf(items));
    }
  }

  /** The turns hold the joined blocks of that segmentation, one turn a block. */
  lemma TurnsHoldTheSegmentation(items: seq<Item>, rowTimestamp: string, blocks: seq<Block>)
    requires Segmentation(blocks, DialogueOf(items))
    ensures var turns := TurnsOf(items, rowTimestamp);
            && |turns| == (if blocks == [] && Texts(items, IsOther) != [] then 1 else |blocks|)
            && forall k :: 0 <= k < |blocks| ==>
                 turns[k].userText == Join(blocks[k].users) && turns[k].assistantText == Join(blocks[k].assistants)
  {
    PairingIsTheSegmentation(items, blocks);
    if blocks == [] {
      RunsFollowSwitches(items);
      AsidesAcrossRuns(items, 1);
      assert Flat(AsidesOf(items), 1) == Flat(AsidesOf(items), 0) + Asides(items, 0);
    }
  }
}
