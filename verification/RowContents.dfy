/** What the turns of a converted row say, told from the row's own lists. */
module RowContents {
  import opened Basics
  import opened Pairing
  import opened PairingTheorems
  import opened PairingPlaces
  import opened RowConversion

  // ----- Items and observations that are kept --------------------------------------

  predicate MeansUser(role: string) {
    role == "user" || role == "human" || role == "customer" || role == "prompt"
  }

  predicate MeansAssistant(role: string) {
    || role == "assistant" || role == "model" || role == "ai" || role == "bot"
    || role == "chatgpt" || role == "claude" || role == "gemini"
  }

  predicate Usable(item: RawItem) {
    item.RawItem? && item.role != "" && item.text != ""
  }

  /** An item says its text, at its time, as a user, an assistant, or in its own role. */
  predicate SaysAs(item: Item, raw: RawItem) {
    && raw.RawItem? && item.text == raw.text && item.timestamp == raw.timestamp
    && (MeansUser(raw.role) ==> item.role == "user")
    && (MeansAssistant(raw.role) ==> item.role == "assistant")
    && (!MeansUser(raw.role) && !MeansAssistant(raw.role) ==> item.role == raw.role)
  }

  function UsableAt(items: seq<RawItem>): nat -> bool {
    (i: nat) => i < |items| && Usable(items[i])
  }

  /** The canonical items are the usable ones, one by one and in order. */
  lemma {:induction false} CanonicalIsTold(items: seq<RawItem>, n: nat)
    requires n <= |items|
    ensures var at, out := KeptPlaces(n, UsableAt(items)), Canonical(items[..n]);
            |out| == |at| && forall k :: 0 <= k < |at| ==> at[k] < n && SaysAs(out[k], items[at[k]])
  {
    if n > 0 {
      CanonicalIsTold(items, n - 1);
      assert items[..n][..n - 1] == items[..n - 1];
    }
  }

  function PresentAt(values: seq<string>): nat -> bool {
    (i: nat) => i < |values| && values[i] != ""
  }

  function ValueAt(values: seq<string>): nat -> string {
    (i: nat) => if i < |values| then values[i] else ""
  }

  lemma {:induction false} NormalizedIsTold(values: seq<string>, n: nat)
    requires n <= |values|
    ensures Normalized(values[..n]) == Kept(n, PresentAt(values), ValueAt(values))
  {
    if n > 0 {
      NormalizedIsTold(values, n - 1);
      assert values[..n][..n - 1] == values[..n - 1];
    }
  }

  function NonBlankOnes(values: seq<string>): seq<string> {
    Kept(|values|, PresentAt(values), ValueAt(values))
  }

  // ----- The turns of a row with items ----------------------------------------------

  ghost function AsidesHeld(items: seq<Item>, k: nat, turns: nat): seq<string> {
    Kept(|items|, Held(items, k, turns), TextAt(items))
  }

  /** The time and the observations of a turn with this number. */
  ghost predicate Dressed(timestamp: string, observations: seq<string>, row: InputRow, k: nat, turns: nat) {
    var items := Canonical(row.items);
    && (exists time :: DatedBy(items, |items|, k, time)
                       && timestamp == if time != "" then time else row.timestamp)
    && observations == (if k == 0 then NonBlankOnes(row.observations) else []) + AsidesHeld(items, k, turns)
  }

  lemma PairedIsDressed(row: InputRow, k: nat)
    requires k < |Paired(row)|
    ensures var items := Canonical(row.items);
            && |Paired(row)| == TurnCount(items)
            && (exists time :: DatedBy(items, |items|, k, time)
                               && Paired(row)[k].timestamp == if time != "" then time else row.timestamp)
            && Paired(row)[k].observations == AsidesHeld(items, k, |Paired(row)|)
            && NoneBlank(Paired(row)[k].observations)
  {
    var items := Canonical(row.items);
    FromTurnsReads(TurnsOf(items, row.timestamp));
    TurnIsDated(items, row.timestamp, k);
    TurnHoldsItsAsides(items, row.timestamp, k);
    PairedIsTidy(row);
  }

  lemma NormalizedIsNonBlankOnes(values: seq<string>)
    ensures Normalized(values) == NonBlankOnes(values)
  {
    NormalizedIsTold(values, |values|);
    assert values[..|values|] == values;
  }

  lemma NoTurnsWithExtra(row: InputRow)
    requires Paired(row) == []
    ensures Dressed(row.timestamp, Normalized(row.observations), row, 0, 1)
  {
    NormalizedIsNonBlankOnes(row.observations);
    FromTurnsReads(TurnsOf(Canonical(row.items), row.timestamp));
    NoTurnHoldsNothing(Canonical(row.items));
  }

  lemma TurnWithExtra(row: InputRow, k: nat)
    requires k < |Paired(row)|
    ensures var extra, turn := Normalized(row.observations), Paired(row)[k];
            && Normalized(turn.observations) == turn.observations
            && Dressed(turn.timestamp, (if k == 0 then extra else []) + turn.observations, row, k, |Paired(row)|)
  {
    NormalizedIsNonBlankOnes(row.observations);
    PairedIsDressed(row, k);
    NormalizedIsIdentity(Paired(row)[k].observations);
  }

  lemma WithExtraIsDressed(row: InputRow, k: nat)
    requires k < |WithExtra(Paired(row), Normalized(row.observations), row.timestamp)|
    ensures var turns := WithExtra(Paired(row), Normalized(row.observations), row.timestamp);
            Dressed(turns[k].timestamp, turns[k].observations, row, k, |turns|)
  {
    var paired, extra := Paired(row), Normalized(row.observations);
    if paired == [] {
      NoTurnsWithExtra(row);
    } else {
      TurnWithExtra(row, k);
      assert k == 0 && extra == [] ==> extra + paired[0].observations == paired[0].observations;
      assert k > 0 ==> [] + paired[k].observations == paired[k].observations;
    }
  }

  /** Each turn of a row with items: its time is that of the first item that can
      date it, else the row's; its observations are the asides that belong to it,
      after the row's own in the first turn. */
  lemma RowTurnsAreDressed(rows: seq<InputRow>, i: nat, defaults: Defaults, k: nat)
    requires i < |rows| && rows[i].items != [] && k < |RowOutput(rows, i, defaults)|
    ensures var out := RowOutput(rows, i, defaults);
            Dressed(out[k].timestamp, out[k].observations, rows[i], k, |out|)
  {
    var row, turns := rows[i], PartialTurns(rows[i]);
    OutputsDress(turns, row, defaults, Minted(rows[..i]));
    var before := WithExtra(Paired(row), Normalized(row.observations), row.timestamp);
    assert |turns| == |before| && turns[k].timestamp == before[k].timestamp
        && turns[k].observations == before[k].observations;
    WithExtraIsDressed(row, k);
    RowObservations(row);
    NormalizedIsIdentity(turns[k].observations);
  }

  predicate DressedAs(out: OutputTurn, turn: PartialTurn, row: InputRow) {
    && out.timestamp == (if turn.timestamp != "" then turn.timestamp else row.timestamp)
    && out.observations == Normalized(turn.observations)
  }

  lemma OutputIsDressed(turn: PartialTurn, row: InputRow, defaults: Defaults, index: nat)
    ensures DressedAs(Output(turn, row, defaults, index), turn, row)
  {
  }

  lemma {:induction false} OutputsDress(turns: seq<PartialTurn>, row: InputRow, defaults: Defaults, minted: nat)
    ensures |Outputs(turns, row, defaults, minted)| == |turns|
    ensures forall k :: 0 <= k < |turns| ==> DressedAs(Outputs(turns, row, defaults, minted)[k], turns[k], row)
  {
    if turns != [] {
      var init, last := turns[..|turns| - 1], turns[|turns| - 1];
      OutputsDress(init, row, defaults, minted);
      OutputIsDressed(last, row, defaults, minted + Nameless(init) + 1);
      assert forall k :: 0 <= k < |init| ==> turns[k] == init[k];
    }
  }

  // ----- A row without items ------------------------------------------------------------

  /** It comes out as one turn that says what the row says. */
  lemma PlainRowIsOneTurn(rows: seq<InputRow>, i: nat, defaults: Defaults)
    requires i < |rows| && rows[i].items == []
    ensures var row, out := rows[i], RowOutput(rows, i, defaults);
            && |out| == 1
            && out[0].userText == row.userText && out[0].assistantText == row.assistantText
            && out[0].timestamp == row.timestamp && out[0].observations == NonBlankOnes(row.observations)
            && out[0].sessionId == (if row.sessionId != "" then row.sessionId else defaults.sessionId)
            && out[0].threadId == (if row.threadId != "" then row.threadId else defaults.threadId)
            && (row.turnId != "" ==> out[0].turnId == row.turnId)
  {
    var row := rows[i];
    NormalizedIsNonBlankOnes(row.observations);
    NormalizedNoneBlank(row.observations);
    NormalizedIsIdentity(Normalized(row.observations));
    var turn := PartialTurn(row.turnId, row.userText, row.assistantText, Normalized(row.observations), row.timestamp);
    assert PartialTurns(row) == [turn];
    OutputsRead([turn], row, defaults, Minted(rows[..i]));
    OutputsDress([turn], row, defaults, Minted(rows[..i]));
  }

  // ----- All rows -------------------------------------------------------------------------

  function OutputOf(rows: seq<InputRow>, defaults: Defaults): nat -> seq<OutputTurn> {
    (i: nat) => if i < |rows| then RowOutput(rows, i, defaults) else []
  }

  lemma ConvertedStep(rows: seq<InputRow>, i: nat, defaults: Defaults)
    requires i < |rows|
    ensures Converted(rows[..i + 1], defaults) == Converted(rows[..i], defaults) + OutputOf(rows, defaults)(i)
  {
    var first := rows[..i + 1];
    assert first[..i] == rows[..i];
    assert RowOutput(first, i, defaults) == RowOutput(rows, i, defaults);
  }

  /** The rows come out one after the other. */
  lemma {:induction false} RowsComeOutInOrder(rows: seq<InputRow>, n: nat, defaults: Defaults)
    requires n <= |rows|
    ensures Converted(rows[..n], defaults) == Flat(OutputOf(rows, defaults), n)
  {
    if n > 0 {
      RowsComeOutInOrder(rows, n - 1, defaults);
      ConvertedStep(rows, n - 1, defaults);
    }
  }

  function NamelessUpTo(turns: seq<PartialTurn>, k: nat): set<nat> {
    set j: nat | j < k && j < |turns| && turns[j].turnId == ""
  }

  lemma NamelessUpToStep(turns: seq<PartialTurn>, k: nat)
    requires k < |turns|
    ensures |NamelessUpTo(turns, k + 1)| == |NamelessUpTo(turns, k)| + if turns[k].turnId == "" then 1 else 0
  {
    assert NamelessUpTo(turns, k + 1) == NamelessUpTo(turns, k) + if turns[k].turnId == "" then {k} else {};
  }

  lemma {:induction false} NamelessIsCount(turns: seq<PartialTurn>, k: nat)
    requires k <= |turns|
    ensures Nameless(turns[..k]) == |NamelessUpTo(turns, k)|
  {
    if k == 0 {
      assert NamelessUpTo(turns, 0) == {};
    } else {
      NamelessIsCount(turns, k - 1);
      NamelessUpToStep(turns, k - 1);
      assert turns[..k][..k - 1] == turns[..k - 1];
    }
  }

  lemma MintedAt(turns: seq<PartialTurn>, out: seq<OutputTurn>, name: nat -> string, k: nat)
    requires Numbered(turns, out, 0, name) && k < |turns| && turns[k].turnId == ""
    ensures out[k].turnId == name(|NamelessUpTo(turns, k + 1)|)
  {
    NamelessIsCount(turns, k);
    NamelessUpToStep(turns, k);
    assert out[k].turnId == IdAt(turns, k, 0, name);
  }

  /** The n-th nameless turn over all rows gets the n-th id. */
  lemma IdsAreMintedInOrder(rows: seq<InputRow>, defaults: Defaults, k: nat)
    requires k < |AllPartial(rows)| && AllPartial(rows)[k].turnId == ""
    ensures |Converted(rows, defaults)| == |AllPartial(rows)|
    ensures Converted(rows, defaults)[k].turnId == BridgeId(|NamelessUpTo(AllPartial(rows), k + 1)|)
  {
    ConvertedMints(rows, defaults);
    MintedAt(AllPartial(rows), Converted(rows, defaults), BridgeId, k);
  }

  // ----- The form of a minted id -------------------------------------------------------

  ghost predicate AllDigits(s: string) {
    forall i :: 0 <= i < |s| ==> '0' <= s[i] <= '9'
  }

  lemma {:induction false} DecimalGrows(m: nat, n: nat)
    requires m <= n
    ensures |Decimal(m)| <= |Decimal(n)| && AllDigits(Decimal(n))
    decreases n
  {
    if n >= 10 {
      DecimalGrows(m / 10, n / 10);
    }
  }

  lemma {:induction false} ZerosAre(n: nat)
    ensures |Zeros(n)| == n && AllDigits(Zeros(n))
  {
    if n > 0 {
      ZerosAre(n - 1);
    }
  }

  lemma FourOrFive()
    ensures |Decimal(9999)| == 4 && |Decimal(10000)| == 5
  {
    assert |Decimal(9)| == 1 && |Decimal(99)| == 2 && |Decimal(999)| == 3;
    assert |Decimal(1)| == 1 && |Decimal(10)| == 2 && |Decimal(100)| == 3 && |Decimal(1000)| == 4;
  }

  lemma DecimalLength(n: nat)
    ensures |Decimal(n)| <= 4 <==> n < 10000
  {
    FourOrFive();
    if n < 10000 {
      DecimalGrows(n, 9999);
    } else {
      DecimalGrows(10000, n);
    }
  }

  function Padded(n: nat): string {
    (if |Decimal(n)| < 4 then Zeros(4 - |Decimal(n)|) else "") + Decimal(n)
  }

  lemma PaddedForm(n: nat)
    ensures |Padded(n)| >= 4 && AllDigits(Padded(n))
    ensures |Padded(n)| == 4 <==> |Decimal(n)| <= 4
    ensures |Decimal(n)| >= 4 ==> Padded(n) == Decimal(n)
  {
    DecimalGrows(n, n);
    if |Decimal(n)| < 4 {
      ZerosAre(4 - |Decimal(n)|);
    }
  }

  lemma BridgeIsPadded(n: nat)
    ensures BridgeId(n) == "bridge-" + Padded(n)
  {
  }

  /** "bridge-" and the number, padded to four digits and no further. */
  lemma BridgeIdIsTold(n: nat)
    ensures |BridgeId(n)| >= 11 && BridgeId(n)[..7] == "bridge-" && AllDigits(BridgeId(n)[7..])
    ensures Numeral(BridgeId(n)[7..]) == n
    ensures |BridgeId(n)| == 11 <==> n < 10000
    ensures n >= 10000 ==> BridgeId(n)[7..] == Decimal(n)
  {
    BridgeIdNumeral(n);
    DecimalLength(n);
    PaddedForm(n);
    var digits := Padded(n);
    assert BridgeId(n) == "bridge-" + digits by {
      BridgeIsPadded(n);
    }
    assert BridgeId(n)[7..] == digits;
  }
}
