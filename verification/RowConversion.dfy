/** Rows into turns: `_canonical_items` and `_convert_rows` of
    `scripts/conversation_to_turns.py`, with the shared counter that mints ids
    for turns that have none. */
module RowConversion {
  import opened Basics
  import opened Pairing
  import opened PairingTheorems

  /** An element of a row's item list; roles and texts are stripped. */
  datatype RawItem = RawItem(role: string, text: string, timestamp: string) | NotAnObject

  datatype InputRow = InputRow(
    sessionId: string, threadId: string, turnId: string, timestamp: string, observations: seq<string>,
    items: seq<RawItem>, userText: string, assistantText: string)

  datatype PartialTurn = PartialTurn(
    turnId: string, userText: string, assistantText: string, observations: seq<string>, timestamp: string)

  datatype OutputTurn = OutputTurn(
    sessionId: string, threadId: string, turnId: string, userText: string, assistantText: string,
    observations: seq<string>, timestamp: string)

  const USER_ROLES := {"user", "human", "customer", "prompt"}
  const ASSISTANT_ROLES := {"assistant", "model", "ai", "bot", "chatgpt", "claude", "gemini"}

  /** `role` is already in lower case. */
  function NormalizeRole(role: string): string {
    if role in USER_ROLES then USER else if role in ASSISTANT_ROLES then ASSISTANT else role
  }

  function Canonical(items: seq<RawItem>): seq<Item> {
    if items == [] then []
    else
      var last := items[|items| - 1];
      Canonical(items[..|items| - 1])
      + if last.RawItem? && NormalizeRole(last.role) != "" && last.text != ""
        then [Item(NormalizeRole(last.role), last.text, last.timestamp)] else []
  }

  method CanonicalItems(items: seq<RawItem>) returns (out: seq<Item>)
    ensures out == Canonical(items)
  {
    out := [];
    for i := 0 to |items|
      invariant out == Canonical(items[..i])
    {
      assert items[..i + 1][..i] == items[..i];
      if items[i].NotAnObject? {
        continue;
      }
      var role := NormalizeRole(items[i].role);
      if role == "" || items[i].text == "" {
        continue;
      }
      out := out + [Item(role, items[i].text, items[i].timestamp)];
    }
    assert items[..|items|] == items;
  }

  /** The non-blank observations, in order. */
  function Normalized(values: seq<string>): seq<string> {
    if values == [] then []
    else
      var last := values[|values| - 1];
      Normalized(values[..|values| - 1]) + if last == "" then [] else [last]
  }

  method NormalizeObservations(values: seq<string>) returns (out: seq<string>)
    ensures out == Normalized(values)
  {
    out := [];
    for i := 0 to |values|
      invariant out == Normalized(values[..i])
    {
      assert values[..i + 1][..i] == values[..i];
      if values[i] != "" {
        out := out + [values[i]];
      }
    }
    assert values[..|values|] == values;
  }

  // ----- The turns of one row, before ids are minted ----------------------------

  function FromTurn(turn: Turn): PartialTurn {
    PartialTurn("", turn.userText, turn.assistantText, turn.observations, turn.timestamp)
  }

  function FromTurns(turns: seq<Turn>): seq<PartialTurn> {
    if turns == [] then [] else FromTurns(turns[..|turns| - 1]) + [FromTurn(turns[|turns| - 1])]
  }

  function Paired(row: InputRow): seq<PartialTurn> {
    FromTurns(TurnsOf(Canonical(row.items), row.timestamp))
  }

  /** The row's own observations go in front of its first turn. */
  function WithExtra(turns: seq<PartialTurn>, extra: seq<string>, timestamp: string): seq<PartialTurn> {
    if extra == [] then turns
    else if turns == [] then [PartialTurn("", "", "", extra, timestamp)]
    else turns[0 := turns[0].(observations := extra + Normalized(turns[0].observations))]
  }

  function WithRowId(turns: seq<PartialTurn>, turnId: string): seq<PartialTurn> {
    if turnId != "" && |turns| == 1 && turns[0].turnId == "" then [turns[0].(turnId := turnId)] else turns
  }

  function PartialTurns(row: InputRow): seq<PartialTurn> {
    var turns :=
      if row.items == [] then
        [PartialTurn(row.turnId, row.userText, row.assistantText, Normalized(row.observations), row.timestamp)]
      else WithExtra(Paired(row), Normalized(row.observations), row.timestamp);
    WithRowId(turns, row.turnId)
  }

  // ----- Minted ids -----------------------------------------------------------------

  function Zeros(n: nat): string {
    if n == 0 then "" else "0" + Zeros(n - 1)
  }

  /** `f"bridge-{n:04d}"`. */
  function BridgeId(n: nat): string {
    "bridge-" + (if |Decimal(n)| < 4 then Zeros(4 - |Decimal(n)|) else "") + Decimal(n)
  }

  lemma {:induction false} ZerosCountNothing(n: nat, s: string)
    ensures Numeral(Zeros(n) + s) == Numeral(s)
    decreases n, |s|
  {
    if s != "" {
      assert (Zeros(n) + s)[..|Zeros(n) + s| - 1] == Zeros(n) + s[..|s| - 1];
      ZerosCountNothing(n, s[..|s| - 1]);
    } else {
      assert Zeros(n) + s == Zeros(n);
      if n > 0 {
        ZerosAtEnd(n - 1);
        assert Zeros(n)[..|Zeros(n)| - 1] == Zeros(n - 1) == Zeros(n - 1) + "";
        ZerosCountNothing(n - 1, "");
      }
    }
  }

  lemma {:induction false} ZerosAtEnd(n: nat)
    ensures "0" + Zeros(n) == Zeros(n) + "0"
  {
    if n > 0 {
      ZerosAtEnd(n - 1);
      assert "0" + ("0" + Zeros(n - 1)) == "0" + (Zeros(n - 1) + "0") == ("0" + Zeros(n - 1)) + "0";
    }
  }

  /** Different numbers give different ids, beyond four digits too. */
  lemma BridgeIdsDiffer(m: nat, n: nat)
    ensures BridgeId(m) == BridgeId(n) <==> m == n
  {
    if BridgeId(m) == BridgeId(n) {
      assert BridgeId(m)[7..] == BridgeId(n)[7..];
      BridgeIdNumeral(m);
      BridgeIdNumeral(n);
    }
  }

  lemma BridgeIdNumeral(n: nat)
    ensures |BridgeId(n)| >= 7 && Numeral(BridgeId(n)[7..]) == n
  {
    var zeros := if |Decimal(n)| < 4 then 4 - |Decimal(n)| else 0;
    assert BridgeId(n)[7..] == Zeros(zeros) + Decimal(n);
    ZerosCountNothing(zeros, Decimal(n));
    DecimalRoundTrip(n);
  }

  /** The closure over `bridge_index`. */
  class TurnIds {
    var bridgeIndex: nat

    constructor ()
      ensures bridgeIndex == 0
    {
      bridgeIndex := 0;
    }

    method NextTurnId() returns (id: string)
      modifies this
      ensures bridgeIndex == old(bridgeIndex) + 1 && id == BridgeId(bridgeIndex)
    {
      bridgeIndex := bridgeIndex + 1;
      id := BridgeId(bridgeIndex);
    }
  }

  // ----- Converting -------------------------------------------------------------------

  datatype Defaults = Defaults(sessionId: string, threadId: string)

  /** Turns without an id of their own. */
  function Nameless(turns: seq<PartialTurn>): nat {
    if turns == [] then 0
    else Nameless(turns[..|turns| - 1]) + if turns[|turns| - 1].turnId == "" then 1 else 0
  }

  function Output(turn: PartialTurn, row: InputRow, defaults: Defaults, index: nat): OutputTurn {
    OutputTurn(OrElse(row.sessionId, defaults.sessionId), OrElse(row.threadId, defaults.threadId),
               OrElse(turn.turnId, BridgeId(index)), turn.userText, turn.assistantText,
               Normalized(turn.observations), OrElse(turn.timestamp, row.timestamp))
  }

  /** The output of a row when `minted` ids have been handed out before it. */
  function Outputs(turns: seq<PartialTurn>, row: InputRow, defaults: Defaults, minted: nat): seq<OutputTurn> {
    if turns == [] then []
    else
      var init, last := turns[..|turns| - 1], turns[|turns| - 1];
      Outputs(init, row, defaults, minted) + [Output(last, row, defaults, minted + Nameless(init) + 1)]
  }

  function Minted(rows: seq<InputRow>): nat {
    if rows == [] then 0 else Minted(rows[..|rows| - 1]) + Nameless(PartialTurns(rows[|rows| - 1]))
  }

  function RowOutput(rows: seq<InputRow>, i: nat, defaults: Defaults): seq<OutputTurn>
    requires i < |rows|
  {
    Outputs(PartialTurns(rows[i]), rows[i], defaults, Minted(rows[..i]))
  }

  function Converted(rows: seq<InputRow>, defaults: Defaults): seq<OutputTurn> {
    if rows == [] then []
    else Converted(rows[..|rows| - 1], defaults) + RowOutput(rows, |rows| - 1, defaults)
  }

  method PartialTurnsOfRow(row: InputRow) returns (turns: seq<PartialTurn>)
    ensures turns == PartialTurns(row)
  {
    var extra := NormalizeObservations(row.observations);
    if row.items != [] {
      var items := CanonicalItems(row.items);
      var paired := PairItemsToTurns(items, row.timestamp);
      turns := FromTurns(paired);
    } else {
      turns := [PartialTurn(row.turnId, row.userText, row.assistantText, extra, row.timestamp)];
      extra := [];
    }
    if extra != [] {
      if turns != [] {
        var first := NormalizeObservations(turns[0].observations);
        turns := turns[0 := turns[0].(observations := extra + first)];
      } else {
        turns := [PartialTurn("", "", "", extra, row.timestamp)];
      }
    }
    if row.turnId != "" && |turns| == 1 && turns[0].turnId == "" {
      turns := [turns[0].(turnId := row.turnId)];
    }
  }

  lemma OutputsStep(turns: seq<PartialTurn>, i: nat, row: InputRow, defaults: Defaults, minted: nat)
    requires i < |turns|
    ensures Outputs(turns[..i + 1], row, defaults, minted)
         == Outputs(turns[..i], row, defaults, minted)
            + [Output(turns[i], row, defaults, minted + Nameless(turns[..i]) + 1)]
    ensures Nameless(turns[..i + 1]) == Nameless(turns[..i]) + if turns[i].turnId == "" then 1 else 0
  {
    assert turns[..i + 1][..i] == turns[..i];
  }

  method EmitTurns(turns: seq<PartialTurn>, row: InputRow, defaults: Defaults, ids: TurnIds)
    returns (out: seq<OutputTurn>)
    modifies ids
    ensures out == Outputs(turns, row, defaults, old(ids.bridgeIndex))
    ensures ids.bridgeIndex == old(ids.bridgeIndex) + Nameless(turns)
  {
    out := [];
    ghost var minted := ids.bridgeIndex;
    for i := 0 to |turns|
      invariant out == Outputs(turns[..i], row, defaults, minted)
      invariant ids.bridgeIndex == minted + Nameless(turns[..i])
    {
      OutputsStep(turns, i, row, defaults, minted);
      var turn := turns[i];
      var turnId := turn.turnId;
      if turnId == "" {
        turnId := ids.NextTurnId();
      }
      var observations := NormalizeObservations(turn.observations);
      out := out + [OutputTurn(OrElse(row.sessionId, defaults.sessionId), OrElse(row.threadId, defaults.threadId),
                               turnId, turn.userText, turn.assistantText, observations,
                               OrElse(turn.timestamp, row.timestamp))];
    }
    assert turns[..|turns|] == turns;
  }

  /** `_convert_rows`. */
  method ConvertRows(rows: seq<InputRow>, defaults: Defaults) returns (converted: seq<OutputTurn>)
    ensures converted == Converted(rows, defaults)
  {
    converted := [];
    var ids := new TurnIds();
    for i := 0 to |rows|
      invariant fresh(ids)
      invariant converted == Converted(rows[..i], defaults) && ids.bridgeIndex == Minted(rows[..i])
    {
      assert rows[..i + 1][..i] == rows[..i];
      var turns := PartialTurnsOfRow(rows[i]);
      var out := EmitTurns(turns, rows[i], defaults, ids);
      converted := converted + out;
    }
    assert rows[..|rows|] == rows;
  }

  // ----- Observations are conserved, row by row ------------------------------------------

  function PartialObservations(turns: seq<PartialTurn>): seq<string> {
    if turns == [] then []
    else PartialObservations(turns[..|turns| - 1]) + turns[|turns| - 1].observations
  }

  function OutputObservations(turns: seq<OutputTurn>): seq<string> {
    if turns == [] then []
    else OutputObservations(turns[..|turns| - 1]) + turns[|turns| - 1].observations
  }

  lemma {:induction false} NormalizedIsIdentity(values: seq<string>)
    requires NoneBlank(values)
    ensures Normalized(values) == values
  {
    if values != [] {
      NormalizedIsIdentity(values[..|values| - 1]);
      assert values == values[..|values| - 1] + [values[|values| - 1]];
    }
  }

  lemma {:induction false} NormalizedNoneBlank(values: seq<string>)
    ensures NoneBlank(Normalized(values))
  {
    if values != [] {
      NormalizedNoneBlank(values[..|values| - 1]);
    }
  }

  ghost predicate Tidy(turns: seq<PartialTurn>) {
    forall i :: 0 <= i < |turns| ==> NoneBlank(turns[i].observations)
  }

  lemma {:induction false} AsidesNoneBlank(items: seq<Item>, k: nat)
    ensures NoneBlank(Asides(items, k))
  {
    if items != [] {
      AsidesNoneBlank(items[..|items| - 1], k);
    }
  }

  lemma {:induction false} FromTurnsReads(turns: seq<Turn>)
    ensures |FromTurns(turns)| == |turns|
    ensures forall i :: 0 <= i < |turns| ==> FromTurns(turns)[i] == FromTurn(turns[i])
    ensures PartialObservations(FromTurns(turns)) == AllObservations(turns)
  {
    if turns != [] {
      FromTurnsReads(turns[..|turns| - 1]);
    }
  }

  lemma TurnObservationsNoneBlank(items: seq<Item>, rowTimestamp: string, i: nat)
    requires i < TurnCount(items)
    ensures NoneBlank(TurnsOf(items, rowTimestamp)[i].observations)
  {
    AsidesNoneBlank(items, i);
    AsidesNoneBlank(items, i + 1);
    assert TurnsOf(items, rowTimestamp)[i] == TurnAt(items, i, rowTimestamp);
  }

  lemma TidyFromTurns(turns: seq<Turn>)
    requires forall i :: 0 <= i < |turns| ==> NoneBlank(turns[i].observations)
    ensures Tidy(FromTurns(turns)) && PartialObservations(FromTurns(turns)) == AllObservations(turns)
  {
    FromTurnsReads(turns);
  }

  lemma PairedIsTidy(row: InputRow)
    ensures Tidy(Paired(row))
    ensures PartialObservations(Paired(row)) == Texts(Canonical(row.items), IsOther)
  {
    var items := Canonical(row.items);
    ObservationsAreConserved(items, row.timestamp);
    forall i | 0 <= i < TurnCount(items)
      ensures NoneBlank(TurnsOf(items, row.timestamp)[i].observations)
    {
      TurnObservationsNoneBlank(items, row.timestamp, i);
    }
    TidyFromTurns(TurnsOf(items, row.timestamp));
  }

  lemma {:induction false} ChangeFirst(turns: seq<PartialTurn>, first: PartialTurn, extra: seq<string>)
    requires turns != [] && first.observations == extra + turns[0].observations
    ensures PartialObservations(turns[0 := first]) == extra + PartialObservations(turns)
  {
    var changed := turns[0 := first];
    if |turns| == 1 {
      OneTurnObservations(turns[0]);
      OneTurnObservations(first);
      assert turns == [turns[0]] && changed == [first];
    } else {
      var init := turns[..|turns| - 1];
      assert changed[..|turns| - 1] == init[0 := first];
      ChangeFirst(init, first, extra);
    }
  }

  lemma OneTurnObservations(turn: PartialTurn)
    ensures PartialObservations([turn]) == turn.observations
  {
    assert [turn][..0] == [];
    assert PartialObservations([turn][..0]) == [];
  }

  lemma ExtraGoesFirst(turns: seq<PartialTurn>, extra: seq<string>, timestamp: string)
    requires Tidy(turns) && NoneBlank(extra)
    ensures Tidy(WithExtra(turns, extra, timestamp))
    ensures PartialObservations(WithExtra(turns, extra, timestamp)) == extra + PartialObservations(turns)
  {
    var all := WithExtra(turns, extra, timestamp);
    if extra != [] && turns != [] {
      NormalizedIsIdentity(turns[0].observations);
      ChangeFirst(turns, all[0], extra);
    } else if extra != [] {
      OneTurnObservations(all[0]);
    }
  }

  lemma RowObservations(row: InputRow)
    ensures Tidy(PartialTurns(row))
    ensures PartialObservations(PartialTurns(row))
         == Normalized(row.observations) + Texts(Canonical(row.items), IsOther)
  {
    var extra := Normalized(row.observations);
    NormalizedNoneBlank(row.observations);
    if row.items == [] {
      var one := PartialTurn(row.turnId, row.userText, row.assistantText, extra, row.timestamp);
      OneTurnObservations(one);
      RowIdKeepsObservations([one], row.turnId);
    } else {
      PairedIsTidy(row);
      ExtraGoesFirst(Paired(row), extra, row.timestamp);
      RowIdKeepsObservations(WithExtra(Paired(row), extra, row.timestamp), row.turnId);
    }
  }

  lemma RowIdKeepsObservations(turns: seq<PartialTurn>, turnId: string)
    ensures PartialObservations(WithRowId(turns, turnId)) == PartialObservations(turns)
    ensures Tidy(turns) ==> Tidy(WithRowId(turns, turnId))
  {
    if |turns| == 1 {
      assert turns == [turns[0]];
      OneTurnObservations(turns[0]);
      OneTurnObservations(WithRowId(turns, turnId)[0]);
    }
  }

  lemma {:induction false} OutputsKeepObservations(turns: seq<PartialTurn>, row: InputRow, defaults: Defaults,
                                                   minted: nat)
    requires Tidy(turns)
    ensures OutputObservations(Outputs(turns, row, defaults, minted)) == PartialObservations(turns)
  {
    if turns != [] {
      OutputsKeepObservations(turns[..|turns| - 1], row, defaults, minted);
      NormalizedIsIdentity(turns[|turns| - 1].observations);
    }
  }

  /** For each row, the observations over its output turns are the row's own
      followed by the texts of its other-role items, each once. */
  lemma RowConversionConserves(rows: seq<InputRow>, i: nat, defaults: Defaults)
    requires i < |rows|
    ensures OutputObservations(RowOutput(rows, i, defaults))
         == Normalized(rows[i].observations) + Texts(Canonical(rows[i].items), IsOther)
  {
    RowObservations(rows[i]);
    OutputsKeepObservations(PartialTurns(rows[i]), rows[i], defaults, Minted(rows[..i]));
  }

  // ----- What is said stays in the row, in its turns ---------------------------------------

  /** An output turn says what the turn says, under the ids of the row. */
  predicate Filed(out: OutputTurn, turn: PartialTurn, row: InputRow, defaults: Defaults) {
    && out.userText == turn.userText && out.assistantText == turn.assistantText
    && out.sessionId == OrElse(row.sessionId, defaults.sessionId)
    && out.threadId == OrElse(row.threadId, defaults.threadId)
    && (turn.turnId != "" ==> out.turnId == turn.turnId)
  }

  lemma OutputReads(turn: PartialTurn, row: InputRow, defaults: Defaults, index: nat)
    ensures Filed(Output(turn, row, defaults, index), turn, row, defaults)
  {
  }

  lemma {:induction false} OutputsRead(turns: seq<PartialTurn>, row: InputRow, defaults: Defaults, minted: nat)
    ensures |Outputs(turns, row, defaults, minted)| == |turns|
    ensures forall k :: 0 <= k < |turns| ==> Filed(Outputs(turns, row, defaults, minted)[k], turns[k], row, defaults)
  {
    if turns != [] {
      var init, last := turns[..|turns| - 1], turns[|turns| - 1];
      OutputsRead(init, row, defaults, minted);
      OutputReads(last, row, defaults, minted + Nameless(init) + 1);
      assert forall k :: 0 <= k < |init| ==> turns[k] == init[k];
    }
  }

  /** The later turns say, from the start, what the earlier ones say. */
  ghost predicate SaysAll(turns: seq<PartialTurn>, later: seq<PartialTurn>) {
    && |turns| <= |later|
    && forall k :: 0 <= k < |turns| ==>
         later[k].userText == turns[k].userText && later[k].assistantText == turns[k].assistantText
  }

  lemma ExtraKeepsTexts(turns: seq<PartialTurn>, extra: seq<string>, timestamp: string)
    ensures SaysAll(turns, WithExtra(turns, extra, timestamp))
    ensures |WithExtra(turns, extra, timestamp)| == if turns == [] && extra != [] then 1 else |turns|
    ensures Unnamed(turns) ==> Unnamed(WithExtra(turns, extra, timestamp))
  {
  }

  ghost predicate Unnamed(turns: seq<PartialTurn>) {
    forall k :: 0 <= k < |turns| ==> turns[k].turnId == ""
  }

  lemma RowIdKeepsTexts(turns: seq<PartialTurn>, turnId: string)
    requires Unnamed(turns)
    ensures SaysAll(turns, WithRowId(turns, turnId)) && |WithRowId(turns, turnId)| == |turns|
    ensures |turns| == 1 && turnId != "" ==> WithRowId(turns, turnId)[0].turnId == turnId
  {
  }

  lemma PairedIsUnnamed(row: InputRow)
    ensures Unnamed(Paired(row))
  {
    FromTurnsReads(TurnsOf(Canonical(row.items), row.timestamp));
  }

  lemma PartialTurnsRead(row: InputRow)
    requires row.items != []
    ensures SaysAll(Paired(row), PartialTurns(row))
    ensures |PartialTurns(row)| == if Paired(row) == [] && Normalized(row.observations) != [] then 1 else |Paired(row)|
    ensures |PartialTurns(row)| == 1 && row.turnId != "" ==> PartialTurns(row)[0].turnId == row.turnId
  {
    var extra := Normalized(row.observations);
    PairedIsUnnamed(row);
    ExtraKeepsTexts(Paired(row), extra, row.timestamp);
    RowIdKeepsTexts(WithExtra(Paired(row), extra, row.timestamp), row.turnId);
  }

  ghost predicate HoldsBlocks(turns: seq<PartialTurn>, blocks: seq<Block>) {
    && |blocks| <= |turns|
    && forall k :: 0 <= k < |blocks| ==>
         turns[k].userText == Join(blocks[k].users) && turns[k].assistantText == Join(blocks[k].assistants)
  }

  lemma FromTurnsHold(turns: seq<Turn>, blocks: seq<Block>)
    requires |blocks| <= |turns|
    requires forall k :: 0 <= k < |blocks| ==>
               turns[k].userText == Join(blocks[k].users) && turns[k].assistantText == Join(blocks[k].assistants)
    ensures HoldsBlocks(FromTurns(turns), blocks) && |FromTurns(turns)| == |turns|
  {
    FromTurnsReads(turns);
  }

  lemma PairedReads(row: InputRow, blocks: seq<Block>)
    requires Segmentation(blocks, DialogueOf(Canonical(row.items)))
    ensures |Paired(row)| == if blocks == [] && Texts(Canonical(row.items), IsOther) != [] then 1 else |blocks|
    ensures HoldsBlocks(Paired(row), blocks)
  {
    TurnsHoldTheSegmentation(Canonical(row.items), row.timestamp, blocks);
    FromTurnsHold(TurnsOf(Canonical(row.items), row.timestamp), blocks);
  }

  /** A row with items comes out as the one segmentation of what is said in it, a
      turn a block, under the row's session and thread and, if it makes one turn
      only, the row's turn id. */
  lemma RowHoldsTheSegmentation(rows: seq<InputRow>, i: nat, defaults: Defaults, blocks: seq<Block>)
    requires i < |rows| && rows[i].items != []
    requires Segmentation(blocks, DialogueOf(Canonical(rows[i].items)))
    ensures var row, out := rows[i], RowOutput(rows, i, defaults);
            var noted := Normalized(row.observations) + Texts(Canonical(row.items), IsOther);
            && |out| == (if blocks == [] && noted != [] then 1 else |blocks|)
            && (forall k :: 0 <= k < |blocks| ==>
                  out[k].userText == Join(blocks[k].users) && out[k].assistantText == Join(blocks[k].assistants))
            && (forall k :: 0 <= k < |out| ==>
                  && out[k].sessionId == OrElse(row.sessionId, defaults.sessionId)
                  && out[k].threadId == OrElse(row.threadId, defaults.threadId))
            && (|out| == 1 && row.turnId != "" ==> out[0].turnId == row.turnId)
  {
    var row := rows[i];
    PairedReads(row, blocks);
    PartialTurnsRead(row);
    OutputsRead(PartialTurns(row), row, defaults, Minted(rows[..i]));
  }

  // ----- Minted ids are distinct, over all rows -------------------------------------------

  function AllPartial(rows: seq<InputRow>): seq<PartialTurn> {
    if rows == [] then [] else AllPartial(rows[..|rows| - 1]) + PartialTurns(rows[|rows| - 1])
  }

  /** The id of the turn at place k, when `minted` ids are out before the first and
      `name` gives the id of a number. */
  function IdAt(turns: seq<PartialTurn>, k: nat, minted: nat, name: nat -> string): string
    requires k < |turns|
  {
    OrElse(turns[k].turnId, name(minted + Nameless(turns[..k]) + 1))
  }

  ghost predicate Numbered(turns: seq<PartialTurn>, out: seq<OutputTurn>, minted: nat, name: nat -> string) {
    |out| == |turns| && forall k :: 0 <= k < |turns| ==> out[k].turnId == IdAt(turns, k, minted, name)
  }

  lemma NumberedStep(turns: seq<PartialTurn>, out: seq<OutputTurn>, minted: nat, name: nat -> string, turn: PartialTurn,
                     next: OutputTurn)
    requires Numbered(turns, out, minted, name)
    requires next.turnId == OrElse(turn.turnId, name(minted + Nameless(turns) + 1))
    ensures Numbered(turns + [turn], out + [next], minted, name)
  {
    forall k | 0 <= k <= |turns|
      ensures (out + [next])[k].turnId == IdAt(turns + [turn], k, minted, name)
    {
      assert (turns + [turn])[..k] == turns[..k];
      assert turns[..|turns|] == turns;
    }
  }

  lemma {:induction false} OutputsNumbered(turns: seq<PartialTurn>, row: InputRow, defaults: Defaults, minted: nat)
    ensures Numbered(turns, Outputs(turns, row, defaults, minted), minted, BridgeId)
  {
    if turns != [] {
      var init, last := turns[..|turns| - 1], turns[|turns| - 1];
      OutputsNumbered(init, row, defaults, minted);
      NumberedStep(init, Outputs(init, row, defaults, minted), minted, BridgeId, last,
                   Output(last, row, defaults, minted + Nameless(init) + 1));
      assert turns == init + [last];
    }
  }

  lemma {:induction false} NamelessConcat(a: seq<PartialTurn>, b: seq<PartialTurn>)
    ensures Nameless(a + b) == Nameless(a) + Nameless(b)
  {
    if b == [] {
      assert a + b == a;
    } else {
      assert (a + b)[..|a + b| - 1] == a + b[..|b| - 1];
      NamelessConcat(a, b[..|b| - 1]);
    }
  }

  lemma {:induction false} MintedCounts(rows: seq<InputRow>)
    ensures Minted(rows) == Nameless(AllPartial(rows))
  {
    if rows != [] {
      MintedCounts(rows[..|rows| - 1]);
      NamelessConcat(AllPartial(rows[..|rows| - 1]), PartialTurns(rows[|rows| - 1]));
    }
  }

  /** The numbering goes on where it stopped. */
  lemma NumberedConcat(a: seq<PartialTurn>, oa: seq<OutputTurn>, b: seq<PartialTurn>, ob: seq<OutputTurn>,
                       name: nat -> string)
    requires Numbered(a, oa, 0, name) && Numbered(b, ob, Nameless(a), name)
    ensures Numbered(a + b, oa + ob, 0, name)
  {
    forall k | 0 <= k < |a + b|
      ensures (oa + ob)[k].turnId == IdAt(a + b, k, 0, name)
    {
      if k < |a| {
        assert (a + b)[..k] == a[..k];
      } else {
        assert (a + b)[..k] == a + b[..k - |a|];
        NamelessConcat(a, b[..k - |a|]);
      }
    }
  }

  /** Over all rows, the ids are those of one numbering. */
  lemma {:induction false} ConvertedMints(rows: seq<InputRow>, defaults: Defaults)
    ensures Numbered(AllPartial(rows), Converted(rows, defaults), 0, BridgeId)
  {
    if rows != [] {
      var init, last := rows[..|rows| - 1], rows[|rows| - 1];
      ConvertedMints(init, defaults);
      MintedCounts(init);
      OutputsNumbered(PartialTurns(last), last, defaults, Minted(init));
      NumberedConcat(AllPartial(init), Converted(init, defaults), PartialTurns(last),
                     Outputs(PartialTurns(last), last, defaults, Minted(init)), BridgeId);
    }
  }

  lemma NamelessGrows(turns: seq<PartialTurn>, i: nat, j: nat)
    requires i < j <= |turns|
    ensures Nameless(turns[..i]) + (if turns[i].turnId == "" then 1 else 0) <= Nameless(turns[..j])
    decreases j
  {
    assert turns[..j][..j - 1] == turns[..j - 1];
    if i < j - 1 {
      NamelessGrows(turns, i, j - 1);
    }
  }

  /** A turn with an id of its own keeps it; the others get minted ids, all
      different, numbered from 1 up to as many as there are. */
  ghost predicate MintedOnce(turns: seq<PartialTurn>, out: seq<OutputTurn>, name: nat -> string) {
    && |out| == |turns|
    && (forall i :: 0 <= i < |turns| && turns[i].turnId != "" ==> out[i].turnId == turns[i].turnId)
    && (forall i :: 0 <= i < |turns| && turns[i].turnId == "" ==>
          exists n :: 1 <= n <= Nameless(turns) && out[i].turnId == name(n))
    && (forall i, j :: 0 <= i < j < |turns| && turns[i].turnId == "" && turns[j].turnId == "" ==>
          out[i].turnId != out[j].turnId)
  }

  lemma NumberingIsDistinct(turns: seq<PartialTurn>, out: seq<OutputTurn>, name: nat -> string)
    requires Numbered(turns, out, 0, name) && forall m: nat, n: nat :: name(m) == name(n) ==> m == n
    ensures MintedOnce(turns, out, name)
  {
    forall i | 0 <= i < |turns| && turns[i].turnId == ""
      ensures exists n :: 1 <= n <= Nameless(turns) && out[i].turnId == name(n)
    {
      NamelessGrows(turns, i, |turns|);
      assert turns[..|turns|] == turns;
      assert out[i].turnId == name(Nameless(turns[..i]) + 1);
    }
    forall i, j | 0 <= i < j < |turns| && turns[i].turnId == "" && turns[j].turnId == ""
      ensures out[i].turnId != out[j].turnId
    {
      NamelessGrows(turns, i, j);
      assert out[i].turnId == name(Nameless(turns[..i]) + 1) && out[j].turnId == name(Nameless(turns[..j]) + 1);
    }
  }

  /** Over all rows: exactly the turns without an id get a minted one, and no two
      minted ids are equal. */
  lemma MintedIdsAreDistinct(rows: seq<InputRow>, defaults: Defaults)
    ensures MintedOnce(AllPartial(rows), Converted(rows, defaults), BridgeId)
  {
    ConvertedMints(rows, defaults);
    forall m: nat, n: nat | BridgeId(m) == BridgeId(n)
      ensures m == n
    {
      BridgeIdsDiffer(m, n);
    }
    NumberingIsDistinct(AllPartial(rows), Converted(rows, defaults), BridgeId);
  }

  // ----- When exactly all ids are distinct ------------------------------------------------

  /** Ids of their own differ, and none looks like one of the ids to be minted. */
  ghost predicate OwnIdsApart(turns: seq<PartialTurn>, name: nat -> string) {
    && (forall i, j :: 0 <= i < j < |turns| && turns[i].turnId != "" ==> turns[i].turnId != turns[j].turnId)
    && (forall i, n: nat :: 0 <= i < |turns| && turns[i].turnId != "" && 1 <= n <= Nameless(turns) ==>
          turns[i].turnId != name(n))
  }

  ghost predicate DistinctIds(out: seq<OutputTurn>) {
    forall i, j :: 0 <= i < j < |out| ==> out[i].turnId != out[j].turnId
  }

  lemma {:induction false} EveryNumberIsMinted(turns: seq<PartialTurn>, n: nat) returns (i: nat)
    requires 1 <= n <= Nameless(turns)
    ensures i < |turns| && turns[i].turnId == "" && Nameless(turns[..i]) + 1 == n
  {
    var init := turns[..|turns| - 1];
    if n <= Nameless(init) {
      i := EveryNumberIsMinted(init, n);
      assert init[..i] == turns[..i];
    } else {
      i := |init|;
    }
  }

  lemma ApartIdsAreDistinct(turns: seq<PartialTurn>, out: seq<OutputTurn>, name: nat -> string)
    requires MintedOnce(turns, out, name) && OwnIdsApart(turns, name)
    ensures DistinctIds(out)
  {
    forall i, j | 0 <= i < j < |out|
      ensures out[i].turnId != out[j].turnId
    {
      if turns[i].turnId == "" && turns[j].turnId != "" {
        var n :| 1 <= n <= Nameless(turns) && out[i].turnId == name(n);
        assert turns[j].turnId != name(n);
      } else if turns[i].turnId != "" && turns[j].turnId == "" {
        var n :| 1 <= n <= Nameless(turns) && out[j].turnId == name(n);
        assert turns[i].turnId != name(n);
      }
    }
  }

  lemma DistinctIdsAreApart(turns: seq<PartialTurn>, out: seq<OutputTurn>, name: nat -> string)
    requires Numbered(turns, out, 0, name) && DistinctIds(out)
    ensures OwnIdsApart(turns, name)
  {
    forall i, j | 0 <= i < j < |turns| && turns[i].turnId != ""
      ensures turns[i].turnId != turns[j].turnId
    {
      assert out[i].turnId == IdAt(turns, i, 0, name) && out[j].turnId == IdAt(turns, j, 0, name);
    }
    forall i, n: nat | 0 <= i < |turns| && turns[i].turnId != "" && 1 <= n <= Nameless(turns)
      ensures turns[i].turnId != name(n)
    {
      var k := EveryNumberIsMinted(turns, n);
      assert out[i].turnId == IdAt(turns, i, 0, name) && out[k].turnId == IdAt(turns, k, 0, name);
      assert out[i].turnId != out[k].turnId;
    }
  }

  /** All output turns have different ids if and only if the ids that the rows bring
      along differ and none is "bridge-NNNN" for a number up to the count of turns
      without an id. */
  lemma IdsAreDistinctIffOwnIdsApart(rows: seq<InputRow>, defaults: Defaults)
    ensures DistinctIds(Converted(rows, defaults)) <==> OwnIdsApart(AllPartial(rows), BridgeId)
  {
    var turns, out := AllPartial(rows), Converted(rows, defaults);
    MintedIdsAreDistinct(rows, defaults);
    ConvertedMints(rows, defaults);
    if OwnIdsApart(turns, BridgeId) {
      ApartIdsAreDistinct(turns, out, BridgeId);
    }
    if DistinctIds(out) {
      DistinctIdsAreApart(turns, out, BridgeId);
    }
  }

  lemma FirstMintedId()
    ensures BridgeId(1) == "bridge-0001"
  {
    assert Decimal(1) == "1";
    assert Zeros(0) == "" && Zeros(1) == "0" && Zeros(2) == "00" && Zeros(3) == "000";
  }

  lemma PlainRowMakesOneTurn(row: InputRow)
    requires row.items == []
    ensures |PartialTurns(row)| == 1 && PartialTurns(row)[0].turnId == row.turnId
  {
  }

  lemma AllPartialStep(rows: seq<InputRow>, row: InputRow)
    ensures AllPartial(rows + [row]) == AllPartial(rows) + PartialTurns(row)
  {
    assert (rows + [row])[..|rows|] == rows;
  }

  lemma GatheredFromTwo(all: seq<InputRow> -> seq<PartialTurn>, one: InputRow -> seq<PartialTurn>, first: InputRow,
                        second: InputRow)
    requires all([]) == []
    requires all([] + [first]) == all([]) + one(first) && all([first] + [second]) == all([first]) + one(second)
    ensures all([first, second]) == one(first) + one(second)
  {
    assert [] + [first] == [first] && [first] + [second] == [first, second];
  }

  lemma AllPartialOfTwo(first: InputRow, second: InputRow)
    ensures AllPartial([first, second]) == PartialTurns(first) + PartialTurns(second)
  {
    AllPartialStep([], first);
    AllPartialStep([first], second);
    GatheredFromTwo(AllPartial, PartialTurns, first, second);
  }

  lemma LookalikeIsNotApart(turns: seq<PartialTurn>, name: nat -> string)
    requires |turns| == 2 && turns[0].turnId == name(1) != "" && turns[1].turnId == ""
    ensures !OwnIdsApart(turns, name)
  {
    assert 1 <= Nameless(turns);
  }

  /** A row without items that brings the turn id "bridge-0001", followed by the same
      row without a turn id: two output turns with one id. */
  lemma LookalikeIdIsRepeated(row: InputRow, defaults: Defaults)
    requires row.items == []
    ensures !DistinctIds(Converted([row.(turnId := "bridge-0001"), row.(turnId := "")], defaults))
  {
    var own, none := row.(turnId := "bridge-0001"), row.(turnId := "");
    FirstMintedId();
    PlainRowMakesOneTurn(own);
    PlainRowMakesOneTurn(none);
    AllPartialOfTwo(own, none);
    LookalikeIsNotApart(AllPartial([own, none]), BridgeId);
    IdsAreDistinctIffOwnIdsApart([own, none], defaults);
  }
}
