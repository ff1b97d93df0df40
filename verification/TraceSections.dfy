/** The loops of the compaction trace validator,
    `scripts/compaction_trace_validate.py`.

    Two payloads are read loop by loop into sets and dicts, and cross-checked.
    Each loop is a method that says which of its checks fail when, and what it
    collects.  Fields hold what `to_int(.., default=-1)` and `to_str(..).strip()` give;
    a value of the wrong JSON shape is `NotDict` or `NotList`. */
module TraceSections {
  import opened Basics

  // ----- Payloads ------------------------------------------------------------

  datatype Dict<T> = Dict(fields: T) | NotDict

  datatype List<T> = Items(items: seq<T>) | NotList

  /** A JSON scalar; `asInt` is what Python's int() makes of a text, if anything. */
  datatype Scalar = Missing | Number(value: int) | Text(text: string, asInt: Option<int>)

  datatype RunInfo = RunInfo(runId: Scalar, retainDays: Scalar, eventRetainDays: Scalar, candidateClaims: Scalar,
                             archivedClaims: Scalar, deletedEvents: Scalar)

  datatype SummaryNode = SummaryNode(id: string, claimIds: List<int>, claimCount: int, citationIds: List<string>,
                                     citationCount: int)

  datatype ClaimNode = ClaimNode(claimId: int, id: string, summaryId: string, citationIds: List<string>)

  datatype CitationNode = CitationNode(citationId: int, id: string)

  datatype Edge = Edge(kind: string, from: string, to: string)

  datatype SummaryRow = SummaryRow(summaryId: string, claimIds: List<int>, sourceCitations: List<Dict<Scalar>>)

  datatype LineageRow = LineageRow(claimId: int, summaryId: string, citations: List<Dict<Scalar>>)

  datatype Nodes = Nodes(summaries: List<Dict<SummaryNode>>, claims: List<Dict<ClaimNode>>,
                         citations: List<Dict<CitationNode>>)

  datatype SummaryGraph = SummaryGraph(artifactType: string, run: Dict<RunInfo>, nodes: Dict<Nodes>,
                                       edges: List<Dict<Edge>>)

  datatype Traceability = Traceability(artifactType: string, run: Dict<RunInfo>,
                                       summaryToSource: List<Dict<SummaryRow>>,
                                       claimLineage: List<Dict<LineageRow>>)

  // What an empty object reads as.
  const NO_RUN := RunInfo(Missing, Missing, Missing, Missing, Missing, Missing)
  const NO_NODES := Nodes(NotList, NotList, NotList)
  const NO_SUMMARY := SummaryNode("", NotList, -1, NotList, -1)
  const NO_CLAIM := ClaimNode(-1, "", "", NotList)
  const NO_CITATION := CitationNode(-1, "")
  const NO_EDGE := Edge("", "", "")
  const NO_SUMMARY_ROW := SummaryRow("", NotList, NotList)
  const NO_LINEAGE_ROW := LineageRow(-1, "", NotList)

  function FieldsOr<T>(d: Dict<T>, empty: T): T {
    if d.Dict? then d.fields else empty
  }

  function ItemsOf<T>(l: List<T>): seq<T> {
    if l.Items? then l.items else []
  }

  function ToInt(value: Scalar): int {
    match value
    case Missing => -1
    case Number(n) => n
    case Text(_, asInt) => if asInt.Some? then asInt.value else -1
  }

  function NonNegative(items: seq<int>): set<int> {
    set x | x in items && x >= 0
  }

  function NonBlank(items: seq<string>): set<string> {
    set x | x in items && x != ""
  }

  function ClaimNodeId(claimId: int): string {
    if claimId >= 0 then "claim:" + Decimal(claimId) else ""
  }

  function CitationNodeId(citationId: int): string {
    if citationId >= 0 then "citation:" + Decimal(citationId) else ""
  }

  /** `_citation_node_id_from_any`: a node id, an integer, or a text for one. */
  function CitationNodeIdFromAny(value: Scalar): string {
    match value
    case Missing => ""
    case Number(n) => CitationNodeId(n)
    case Text(text, asInt) => if "citation:" <= text then text else CitationNodeId(ToInt(value))
  }

  // ----- The report object ------------------------------------------------------

  datatype Severity = Error | Warning

  datatype Check = Check(name: string, ok: bool, severity: Severity)

  function Failed(checks: seq<Check>, severity: Severity): seq<string> {
    if checks == [] then []
    else
      var last := checks[|checks| - 1];
      Failed(checks[..|checks| - 1], severity)
      + if !last.ok && last.severity == severity then [last.name] else []
  }

  class Validation {
    var checks: seq<Check>
    var errors: seq<string>
    var warnings: seq<string>

    /** Errors and warnings are the failed checks of that severity, in order. */
    ghost predicate Valid()
      reads this
    {
      errors == Failed(checks, Error) && warnings == Failed(checks, Warning)
    }

    predicate Passed()
      reads this
    {
      errors == []
    }

    constructor ()
      ensures Valid() && checks == [] && Passed() && warnings == []
    {
      checks, errors, warnings := [], [], [];
    }

    method Add(name: string, ok: bool, severity: Severity := Error)
      requires Valid()
      modifies this
      ensures Valid() && checks == old(checks) + [Check(name, ok, severity)]
      ensures Passed() <==> old(Passed()) && (ok || severity == Warning)
      ensures warnings == old(warnings) + if !ok && severity == Warning then [name] else []
    {
      assert (checks + [Check(name, ok, severity)])[..|checks|] == checks;
      checks := checks + [Check(name, ok, severity)];
      if ok {
        return;
      }
      if severity == Warning {
        warnings := warnings + [name];
        return;
      }
      errors := errors + [name];
    }

    method ExpectDict<T>(d: Dict<T>, place: string, empty: T) returns (fields: T)
      requires Valid()
      modifies this
      ensures fields == FieldsOr(d, empty)
      ensures Valid() && warnings == old(warnings)
      ensures Passed() <==> old(Passed()) && d.Dict?
    {
      if d.Dict? {
        return d.fields;
      }
      Add(place, false);
      fields := empty;
    }

    method ExpectList<T>(l: List<T>, place: string) returns (items: seq<T>)
      requires Valid()
      modifies this
      ensures items == ItemsOf(l)
      ensures Valid() && warnings == old(warnings)
      ensures Passed() <==> old(Passed()) && l.Items?
    {
      if l.Items? {
        return l.items;
      }
      Add(place, false);
      items := [];
    }
  }

  function At(section: string, index: nat): string {
    section + "[" + Decimal(index) + "]"
  }

  /** A stretch of checks that fails exactly when `ok` is false, without warnings. */
  twostate predicate Judged(v: Validation, ok: bool)
    reads v
  {
    v.Valid() && (v.Passed() <==> old(v.Passed()) && ok) && v.warnings == old(v.warnings)
  }

  // ----- Section: summary nodes ---------------------------------------------------

  function Summary(d: Dict<SummaryNode>): SummaryNode {
    FieldsOr(d, NO_SUMMARY)
  }

  function SummaryClaims(d: Dict<SummaryNode>): set<int> {
    NonNegative(ItemsOf(Summary(d).claimIds))
  }

  function SummaryCites(d: Dict<SummaryNode>): set<string> {
    NonBlank(ItemsOf(Summary(d).citationIds))
  }

  ghost predicate SummaryOk(d: Dict<SummaryNode>) {
    && d.Dict?
    && d.fields.id != ""
    && d.fields.claimIds.Items? && d.fields.claimCount == |SummaryClaims(d)|
    && d.fields.citationIds.Items? && d.fields.citationCount == |SummaryCites(d)|
  }

  ghost predicate SummariesOk(rows: seq<Dict<SummaryNode>>) {
    && (forall i :: 0 <= i < |rows| ==> SummaryOk(rows[i]))
    && (forall i, j :: 0 <= i < j < |rows| ==> Summary(rows[i]).id != Summary(rows[j]).id)
  }

  ghost function SummaryIds(rows: seq<Dict<SummaryNode>>): set<string> {
    set i | 0 <= i < |rows| && Summary(rows[i]).id != "" :: Summary(rows[i]).id
  }

  /** `summary_to_claim_ids`: a later row overwrites an earlier one. */
  function ClaimsBySummary(rows: seq<Dict<SummaryNode>>): map<string, set<int>> {
    if rows == [] then map[]
    else
      var last := rows[|rows| - 1];
      ClaimsBySummary(rows[..|rows| - 1])[Summary(last).id := SummaryClaims(last)]
  }

  function CitesBySummary(rows: seq<Dict<SummaryNode>>): map<string, set<string>> {
    if rows == [] then map[]
    else
      var last := rows[|rows| - 1];
      CitesBySummary(rows[..|rows| - 1])[Summary(last).id := SummaryCites(last)]
  }

  lemma SummaryIdsStep(rows: seq<Dict<SummaryNode>>, i: nat)
    requires i < |rows|
    ensures SummaryIds(rows[..i + 1])
         == SummaryIds(rows[..i]) + if Summary(rows[i]).id != "" then {Summary(rows[i]).id} else {}
  {
    var before, after := rows[..i], rows[..i + 1];
    assert after[i] == rows[i];
    forall x | x in SummaryIds(before)
      ensures x in SummaryIds(after)
    {
      var k :| 0 <= k < i && Summary(before[k]).id == x;
      assert Summary(after[k]).id == x;
    }
    forall x | x in SummaryIds(after)
      ensures x in SummaryIds(before) || x == Summary(rows[i]).id
    {
      var k :| 0 <= k < i + 1 && Summary(after[k]).id == x;
      assert k < i ==> Summary(before[k]).id == x;
    }
    assert Summary(rows[i]).id != "" ==> Summary(after[i]).id in SummaryIds(after);
  }

  lemma SummaryDictsStep(rows: seq<Dict<SummaryNode>>, i: nat)
    requires i < |rows|
    ensures ClaimsBySummary(rows[..i + 1]) == ClaimsBySummary(rows[..i])[Summary(rows[i]).id := SummaryClaims(rows[i])]
    ensures CitesBySummary(rows[..i + 1]) == CitesBySummary(rows[..i])[Summary(rows[i]).id := SummaryCites(rows[i])]
  {
    assert rows[..i + 1][..i] == rows[..i];
  }

  lemma SummariesStep(rows: seq<Dict<SummaryNode>>, i: nat)
    requires i < |rows|
    ensures SummariesOk(rows[..i + 1])
       <==> SummariesOk(rows[..i]) && SummaryOk(rows[i]) && Summary(rows[i]).id !in SummaryIds(rows[..i])
  {
    var before, after := rows[..i], rows[..i + 1];
    assert after[i] == rows[i];
    assert forall k :: 0 <= k < i ==> after[k] == before[k];
    if SummariesOk(after) {
      assert Summary(after[i]).id !in SummaryIds(before);
    }
    if SummariesOk(before) && SummaryOk(rows[i]) && Summary(rows[i]).id !in SummaryIds(before) {
      forall k | 0 <= k < i
        ensures Summary(after[k]).id != Summary(after[i]).id
      {
        assert SummaryOk(before[k]) && Summary(before[k]).id in SummaryIds(before);
      }
    }
  }

  method CheckSummaryRow(v: Validation, d: Dict<SummaryNode>, place: string, summaryIds: set<string>)
    returns (row: SummaryNode, claims: set<int>, cites: set<string>)
    requires v.Valid()
    modifies v
    ensures row == Summary(d) && claims == SummaryClaims(d) && cites == SummaryCites(d)
    ensures Judged(v, SummaryOk(d) && row.id !in summaryIds)
  {
    row := v.ExpectDict(d, place, NO_SUMMARY);
    v.Add(place + ".id", row.id != "");
    if row.id != "" {
      v.Add(place + ".id.unique", row.id !in summaryIds);
    }
    var claimIds := v.ExpectList(row.claimIds, place + ".claim_ids");
    claims := NonNegative(claimIds);
    v.Add(place + ".claim_count", row.claimCount == |claims|);
    var citationIds := v.ExpectList(row.citationIds, place + ".citation_ids");
    cites := NonBlank(citationIds);
    v.Add(place + ".citation_count", row.citationCount == |cites|);
  }

  method CheckSummaries(v: Validation, rows: seq<Dict<SummaryNode>>)
    returns (ids: set<string>, claimsBy: map<string, set<int>>, citesBy: map<string, set<string>>)
    requires v.Valid()
    modifies v
    ensures Judged(v, SummariesOk(rows))
    ensures ids == SummaryIds(rows) && claimsBy == ClaimsBySummary(rows) && citesBy == CitesBySummary(rows)
  {
    ids, claimsBy, citesBy := {}, map[], map[];
    for i := 0 to |rows|
      invariant Judged(v, SummariesOk(rows[..i]))
      invariant ids == SummaryIds(rows[..i])
      invariant claimsBy == ClaimsBySummary(rows[..i]) && citesBy == CitesBySummary(rows[..i])
    {
      SummariesStep(rows, i);
      SummaryIdsStep(rows, i);
      SummaryDictsStep(rows, i);
      var row, claims, cites := CheckSummaryRow(v, rows[i], At("summary_graph.nodes.summaries", i), ids);
      if row.id != "" {
        ids := ids + {row.id};
      }
      claimsBy := claimsBy[row.id := claims];
      citesBy := citesBy[row.id := cites];
    }
    assert rows[..|rows|] == rows;
  }

  // ----- Section: claim nodes -----------------------------------------------------

  function Claim(d: Dict<ClaimNode>): ClaimNode {
    FieldsOr(d, NO_CLAIM)
  }

  function ClaimCites(d: Dict<ClaimNode>): set<string> {
    NonBlank(ItemsOf(Claim(d).citationIds))
  }

  ghost predicate ClaimOk(d: Dict<ClaimNode>, summaryIds: set<string>) {
    && d.Dict?
    && d.fields.claimId >= 0
    && d.fields.id == ClaimNodeId(d.fields.claimId)
    && d.fields.summaryId != "" && d.fields.summaryId in summaryIds
    && d.fields.citationIds.Items?
  }

  ghost predicate ClaimsOk(rows: seq<Dict<ClaimNode>>, summaryIds: set<string>) {
    && (forall i :: 0 <= i < |rows| ==> ClaimOk(rows[i], summaryIds))
    && (forall i, j :: 0 <= i < j < |rows| ==> Claim(rows[i]).claimId != Claim(rows[j]).claimId)
  }

  ghost function ClaimIds(rows: seq<Dict<ClaimNode>>): set<int> {
    set i | 0 <= i < |rows| && Claim(rows[i]).claimId >= 0 :: Claim(rows[i]).claimId
  }

  ghost function ClaimNodeIds(rows: seq<Dict<ClaimNode>>): set<string> {
    set i | 0 <= i < |rows| && Claim(rows[i]).id != "" :: Claim(rows[i]).id
  }

  function SummaryByClaim(rows: seq<Dict<ClaimNode>>): map<int, string> {
    if rows == [] then map[]
    else
      var before, row := SummaryByClaim(rows[..|rows| - 1]), Claim(rows[|rows| - 1]);
      if row.claimId >= 0 && row.summaryId != "" then before[row.claimId := row.summaryId] else before
  }

  function CitesByClaim(rows: seq<Dict<ClaimNode>>): map<int, set<string>> {
    if rows == [] then map[]
    else
      var last := rows[|rows| - 1];
      CitesByClaim(rows[..|rows| - 1])[Claim(last).claimId := ClaimCites(last)]
  }

  lemma ClaimIdsStep(rows: seq<Dict<ClaimNode>>, i: nat)
    requires i < |rows|
    ensures ClaimIds(rows[..i + 1])
         == ClaimIds(rows[..i]) + if Claim(rows[i]).claimId >= 0 then {Claim(rows[i]).claimId} else {}
  {
    var before, after := rows[..i], rows[..i + 1];
    assert after[i] == rows[i];
    forall x | x in ClaimIds(before)
      ensures x in ClaimIds(after)
    {
      var k :| 0 <= k < i && Claim(before[k]).claimId == x;
      assert Claim(after[k]).claimId == x;
    }
    forall x | x in ClaimIds(after)
      ensures x in ClaimIds(before) || x == Claim(rows[i]).claimId
    {
      var k :| 0 <= k < i + 1 && Claim(after[k]).claimId == x;
      assert k < i ==> Claim(before[k]).claimId == x;
    }
    assert Claim(rows[i]).claimId >= 0 ==> Claim(after[i]).claimId in ClaimIds(after);
  }

  lemma ClaimsStep(rows: seq<Dict<ClaimNode>>, i: nat, summaryIds: set<string>)
    requires i < |rows|
    ensures ClaimsOk(rows[..i + 1], summaryIds)
       <==> ClaimsOk(rows[..i], summaryIds) && ClaimOk(rows[i], summaryIds)
            && Claim(rows[i]).claimId !in ClaimIds(rows[..i])
  {
    var before, after := rows[..i], rows[..i + 1];
    assert after[i] == rows[i];
    assert forall k :: 0 <= k < i ==> after[k] == before[k];
    if ClaimsOk(after, summaryIds) {
      assert Claim(after[i]).claimId !in ClaimIds(before);
    }
    if ClaimsOk(before, summaryIds) && ClaimOk(rows[i], summaryIds) && Claim(rows[i]).claimId !in ClaimIds(before) {
      forall k | 0 <= k < i
        ensures Claim(after[k]).claimId != Claim(after[i]).claimId
      {
        assert ClaimOk(before[k], summaryIds) && Claim(before[k]).claimId in ClaimIds(before);
      }
    }
  }

  lemma ClaimDictsStep(rows: seq<Dict<ClaimNode>>, i: nat)
    requires i < |rows|
    ensures ClaimNodeIds(rows[..i + 1])
         == ClaimNodeIds(rows[..i]) + if Claim(rows[i]).id != "" then {Claim(rows[i]).id} else {}
    ensures SummaryByClaim(rows[..i + 1])
         == if Claim(rows[i]).claimId >= 0 && Claim(rows[i]).summaryId != ""
            then SummaryByClaim(rows[..i])[Claim(rows[i]).claimId := Claim(rows[i]).summaryId]
            else SummaryByClaim(rows[..i])
    ensures CitesByClaim(rows[..i + 1]) == CitesByClaim(rows[..i])[Claim(rows[i]).claimId := ClaimCites(rows[i])]
  {
    var before, after := rows[..i], rows[..i + 1];
    assert after[..i] == before && after[i] == rows[i];
    forall x | x in ClaimNodeIds(before)
      ensures x in ClaimNodeIds(after)
    {
      var k :| 0 <= k < i && Claim(before[k]).id == x;
      assert Claim(after[k]).id == x;
    }
    forall x | x in ClaimNodeIds(after)
      ensures x in ClaimNodeIds(before) || x == Claim(rows[i]).id
    {
      var k :| 0 <= k < i + 1 && Claim(after[k]).id == x;
      assert k < i ==> Claim(before[k]).id == x;
    }
    assert Claim(rows[i]).id != "" ==> Claim(after[i]).id in ClaimNodeIds(after);
  }

  /** A claim or citation node's id against its number. */
  method CheckNodeId(v: Validation, place: string, id: string, number: int, expected: string)
    requires v.Valid()
    modifies v
    ensures Judged(v, id != "" && (number >= 0 ==> id == expected))
  {
    v.Add(place + ".id", id != "");
    if number >= 0 {
      v.Add(place + ".id.expected", id == expected);
    }
  }

  method CheckClaimRow(v: Validation, d: Dict<ClaimNode>, place: string, summaryIds: set<string>, seen: set<int>)
    returns (row: ClaimNode, cites: set<string>)
    requires v.Valid()
    modifies v
    ensures row == Claim(d) && cites == ClaimCites(d)
    ensures Judged(v, ClaimOk(d, summaryIds) && row.claimId !in seen)
  {
    row := v.ExpectDict(d, place, NO_CLAIM);
    v.Add(place + ".claim_id", row.claimId >= 0);
    if row.claimId >= 0 {
      v.Add(place + ".claim_id.unique", row.claimId !in seen);
    }
    CheckNodeId(v, place, row.id, row.claimId, ClaimNodeId(row.claimId));
    v.Add(place + ".summary_id", row.summaryId != "" && row.summaryId in summaryIds);
    var citationIds := v.ExpectList(row.citationIds, place + ".citation_ids");
    cites := NonBlank(citationIds);
  }

  /** What the loop over the claim nodes has collected. */
  ghost predicate ClaimsGathered(rows: seq<Dict<ClaimNode>>, seen: set<int>, nodeIds: set<string>,
                                 summaryBy: map<int, string>, citesBy: map<int, set<string>>) {
    && seen == ClaimIds(rows) && nodeIds == ClaimNodeIds(rows)
    && summaryBy == SummaryByClaim(rows) && citesBy == CitesByClaim(rows)
  }

  lemma ClaimsGatheredStep(rows: seq<Dict<ClaimNode>>, i: nat, seen: set<int>, nodeIds: set<string>,
                           summaryBy: map<int, string>, citesBy: map<int, set<string>>)
    requires i < |rows| && ClaimsGathered(rows[..i], seen, nodeIds, summaryBy, citesBy)
    ensures var row := Claim(rows[i]);
            ClaimsGathered(rows[..i + 1], seen + (if row.claimId >= 0 then {row.claimId} else {}),
                           nodeIds + (if row.id != "" then {row.id} else {}),
                           if row.claimId >= 0 && row.summaryId != "" then summaryBy[row.claimId := row.summaryId]
                           else summaryBy,
                           citesBy[row.claimId := ClaimCites(rows[i])])
  {
    ClaimIdsStep(rows, i);
    ClaimDictsStep(rows, i);
  }

  method CheckClaims(v: Validation, rows: seq<Dict<ClaimNode>>, summaryIds: set<string>)
    returns (summaryBy: map<int, string>, citesBy: map<int, set<string>>, nodeIds: set<string>)
    requires v.Valid()
    modifies v
    ensures Judged(v, ClaimsOk(rows, summaryIds))
    ensures summaryBy == SummaryByClaim(rows) && citesBy == CitesByClaim(rows) && nodeIds == ClaimNodeIds(rows)
  {
    var seen: set<int> := {};
    summaryBy, citesBy, nodeIds := map[], map[], {};
    for i := 0 to |rows|
      invariant Judged(v, ClaimsOk(rows[..i], summaryIds))
      invariant ClaimsGathered(rows[..i], seen, nodeIds, summaryBy, citesBy)
    {
      ClaimsStep(rows, i, summaryIds);
      ClaimsGatheredStep(rows, i, seen, nodeIds, summaryBy, citesBy);
      var row, cites := CheckClaimRow(v, rows[i], At("summary_graph.nodes.claims", i), summaryIds, seen);
      if row.claimId >= 0 {
        seen := seen + {row.claimId};
      }
      if row.id != "" {
        nodeIds := nodeIds + {row.id};
      }
      if row.claimId >= 0 && row.summaryId != "" {
        summaryBy := summaryBy[row.claimId := row.summaryId];
      }
      citesBy := citesBy[row.claimId := cites];
    }
    assert rows[..|rows|] == rows;
  }

  // ----- Section: citation nodes ---------------------------------------------------

  function Citation(d: Dict<CitationNode>): CitationNode {
    FieldsOr(d, NO_CITATION)
  }

  ghost predicate CitationOk(d: Dict<CitationNode>) {
    d.Dict? && d.fields.citationId >= 0 && d.fields.id == CitationNodeId(d.fields.citationId)
  }

  ghost predicate CitationsOk(rows: seq<Dict<CitationNode>>) {
    && (forall i :: 0 <= i < |rows| ==> CitationOk(rows[i]))
    && (forall i, j :: 0 <= i < j < |rows| ==> Citation(rows[i]).citationId != Citation(rows[j]).citationId)
  }

  ghost function CitationNumbers(rows: seq<Dict<CitationNode>>): set<int> {
    set i | 0 <= i < |rows| && Citation(rows[i]).citationId >= 0 :: Citation(rows[i]).citationId
  }

  ghost function CitationNodeIds(rows: seq<Dict<CitationNode>>): set<string> {
    set i | 0 <= i < |rows| && Citation(rows[i]).id != "" :: Citation(rows[i]).id
  }

  lemma CitationsStep(rows: seq<Dict<CitationNode>>, i: nat)
    requires i < |rows|
    ensures CitationsOk(rows[..i + 1])
       <==> CitationsOk(rows[..i]) && CitationOk(rows[i]) && Citation(rows[i]).citationId !in CitationNumbers(rows[..i])
  {
    var before, after := rows[..i], rows[..i + 1];
    assert after[i] == rows[i];
    assert forall k :: 0 <= k < i ==> after[k] == before[k];
    if CitationsOk(after) {
      assert Citation(after[i]).citationId !in CitationNumbers(before);
    }
    if CitationsOk(before) && CitationOk(rows[i]) && Citation(rows[i]).citationId !in CitationNumbers(before) {
      forall k | 0 <= k < i
        ensures Citation(after[k]).citationId != Citation(after[i]).citationId
      {
        assert CitationOk(before[k]) && Citation(before[k]).citationId in CitationNumbers(before);
      }
    }
  }

  lemma CitationSetsStep(rows: seq<Dict<CitationNode>>, i: nat)
    requires i < |rows|
    ensures CitationNumbers(rows[..i + 1])
         == CitationNumbers(rows[..i])
            + if Citation(rows[i]).citationId >= 0 then {Citation(rows[i]).citationId} else {}
    ensures CitationNodeIds(rows[..i + 1])
         == CitationNodeIds(rows[..i]) + if Citation(rows[i]).id != "" then {Citation(rows[i]).id} else {}
  {
    var before, after := rows[..i], rows[..i + 1];
    assert after[i] == rows[i];
    assert forall k :: 0 <= k < i ==> after[k] == before[k];
    forall x | x in CitationNumbers(before)
      ensures x in CitationNumbers(after)
    {
      var k :| 0 <= k < i && Citation(before[k]).citationId == x;
      assert Citation(after[k]).citationId == x;
    }
    forall x | x in CitationNodeIds(before)
      ensures x in CitationNodeIds(after)
    {
      var k :| 0 <= k < i && Citation(before[k]).id == x;
      assert Citation(after[k]).id == x;
    }
    assert Citation(rows[i]).citationId >= 0 ==> Citation(after[i]).citationId in CitationNumbers(after);
    assert Citation(rows[i]).id != "" ==> Citation(after[i]).id in CitationNodeIds(after);
  }

  method CheckCitationRow(v: Validation, d: Dict<CitationNode>, place: string, seen: set<int>)
    returns (row: CitationNode)
    requires v.Valid()
    modifies v
    ensures row == Citation(d) && Judged(v, CitationOk(d) && row.citationId !in seen)
  {
    row := v.ExpectDict(d, place, NO_CITATION);
    v.Add(place + ".citation_id", row.citationId >= 0);
    if row.citationId >= 0 {
      v.Add(place + ".citation_id.unique", row.citationId !in seen);
    }
    CheckNodeId(v, place, row.id, row.citationId, CitationNodeId(row.citationId));
  }

  method CheckCitations(v: Validation, rows: seq<Dict<CitationNode>>) returns (nodeIds: set<string>)
    requires v.Valid()
    modifies v
    ensures Judged(v, CitationsOk(rows)) && nodeIds == CitationNodeIds(rows)
  {
    var seen: set<int> := {};
    nodeIds := {};
    for i := 0 to |rows|
      invariant Judged(v, CitationsOk(rows[..i]))
      invariant seen == CitationNumbers(rows[..i]) && nodeIds == CitationNodeIds(rows[..i])
    {
      CitationsStep(rows, i);
      CitationSetsStep(rows, i);
      var row := CheckCitationRow(v, rows[i], At("summary_graph.nodes.citations", i), seen);
      if row.citationId >= 0 {
        seen := seen + {row.citationId};
      }
      if row.id != "" {
        nodeIds := nodeIds + {row.id};
      }
    }
    assert rows[..|rows|] == rows;
  }

  // ----- Section: edges ---------------------------------------------------------------

  const SUMMARY_TO_CLAIM := "summary_to_claim"
  const CLAIM_TO_CITATION := "claim_to_citation"

  function EdgeOf(d: Dict<Edge>): Edge {
    FieldsOr(d, NO_EDGE)
  }

  predicate EdgeOk(d: Dict<Edge>, summaryIds: set<string>, claimIds: set<string>, citationIds: set<string>) {
    && d.Dict?
    && d.fields.kind != "" && d.fields.from != "" && d.fields.to != ""
    && (d.fields.kind == SUMMARY_TO_CLAIM ==> d.fields.from in summaryIds && d.fields.to in claimIds)
    && (d.fields.kind == CLAIM_TO_CITATION ==> d.fields.from in claimIds && d.fields.to in citationIds)
  }

  ghost predicate EdgesOk(rows: seq<Dict<Edge>>, summaryIds: set<string>, claimIds: set<string>,
                          citationIds: set<string>)
  {
    forall i :: 0 <= i < |rows| ==> EdgeOk(rows[i], summaryIds, claimIds, citationIds)
  }

  /** The (from, to) pairs of the edges of a kind. */
  ghost function Edges(rows: seq<Dict<Edge>>, kind: string): set<(string, string)> {
    set i | 0 <= i < |rows| && EdgeOf(rows[i]).kind == kind :: (EdgeOf(rows[i]).from, EdgeOf(rows[i]).to)
  }

  predicate KnownKind(kind: string) {
    kind == SUMMARY_TO_CLAIM || kind == CLAIM_TO_CITATION
  }

  /** One warning per edge whose type the validator does not know, in order. */
  function UnknownEdges(rows: seq<Dict<Edge>>): seq<string> {
    if rows == [] then []
    else
      UnknownEdges(rows[..|rows| - 1])
      + if KnownKind(EdgeOf(rows[|rows| - 1]).kind) then []
        else [At("summary_graph.edges", |rows| - 1) + ".known_type"]
  }

  lemma EdgesStep(rows: seq<Dict<Edge>>, i: nat, kind: string)
    requires i < |rows|
    ensures Edges(rows[..i + 1], kind)
         == Edges(rows[..i], kind)
            + if EdgeOf(rows[i]).kind == kind then {(EdgeOf(rows[i]).from, EdgeOf(rows[i]).to)} else {}
    ensures UnknownEdges(rows[..i + 1])
         == UnknownEdges(rows[..i])
            + if KnownKind(EdgeOf(rows[i]).kind) then [] else [At("summary_graph.edges", i) + ".known_type"]
  {
    var before, after := rows[..i], rows[..i + 1];
    assert after[..i] == before && after[i] == rows[i];
    assert forall k :: 0 <= k < i ==> after[k] == before[k];
    forall e | e in Edges(before, kind)
      ensures e in Edges(after, kind)
    {
      var k :| 0 <= k < i && EdgeOf(before[k]).kind == kind && e == (EdgeOf(before[k]).from, EdgeOf(before[k]).to);
      assert EdgeOf(after[k]).kind == kind;
    }
    assert EdgeOf(after[i]).kind == kind ==> (EdgeOf(after[i]).from, EdgeOf(after[i]).to) in Edges(after, kind);
  }

  method CheckEdgeRow(v: Validation, d: Dict<Edge>, place: string, summaryIds: set<string>, claimIds: set<string>,
                      citationIds: set<string>)
    returns (row: Edge)
    requires v.Valid()
    modifies v
    ensures row == EdgeOf(d) && v.Valid()
    ensures v.Passed() <==> old(v.Passed()) && EdgeOk(d, summaryIds, claimIds, citationIds)
    ensures v.warnings == old(v.warnings) + if KnownKind(row.kind) then [] else [place + ".known_type"]
  {
    row := v.ExpectDict(d, place, NO_EDGE);
    v.Add(place + ".type", row.kind != "");
    v.Add(place + ".from", row.from != "");
    v.Add(place + ".to", row.to != "");
    if row.kind == SUMMARY_TO_CLAIM {
      v.Add(place + ".refs", row.from in summaryIds && row.to in claimIds);
    } else if row.kind == CLAIM_TO_CITATION {
      v.Add(place + ".refs", row.from in claimIds && row.to in citationIds);
    } else {
      v.Add(place + ".known_type", false, Warning);
    }
  }

  method CheckEdges(v: Validation, rows: seq<Dict<Edge>>, summaryIds: set<string>, claimIds: set<string>,
                    citationIds: set<string>)
    returns (summaryToClaim: set<(string, string)>, claimToCitation: set<(string, string)>)
    requires v.Valid()
    modifies v
    ensures v.Valid() && (v.Passed() <==> old(v.Passed()) && EdgesOk(rows, summaryIds, claimIds, citationIds))
    ensures v.warnings == old(v.warnings) + UnknownEdges(rows)
    ensures summaryToClaim == Edges(rows, SUMMARY_TO_CLAIM) && claimToCitation == Edges(rows, CLAIM_TO_CITATION)
  {
    summaryToClaim, claimToCitation := {}, {};
    for i := 0 to |rows|
      invariant v.Valid()
      invariant v.Passed() <==> old(v.Passed()) && EdgesOk(rows[..i], summaryIds, claimIds, citationIds)
      invariant v.warnings == old(v.warnings) + UnknownEdges(rows[..i])
      invariant summaryToClaim == Edges(rows[..i], SUMMARY_TO_CLAIM)
      invariant claimToCitation == Edges(rows[..i], CLAIM_TO_CITATION)
    {
      EdgesStep(rows, i, SUMMARY_TO_CLAIM);
      EdgesStep(rows, i, CLAIM_TO_CITATION);
      assert EdgesOk(rows[..i + 1], summaryIds, claimIds, citationIds)
        <==> EdgesOk(rows[..i], summaryIds, claimIds, citationIds) && EdgeOk(rows[i], summaryIds, claimIds, citationIds)
      by {
        EdgesOkStep(rows, i, summaryIds, claimIds, citationIds);
      }
      var row := CheckEdgeRow(v, rows[i], At("summary_graph.edges", i), summaryIds, claimIds, citationIds);
      if row.kind == SUMMARY_TO_CLAIM {
        summaryToClaim := summaryToClaim + {(row.from, row.to)};
      } else if row.kind == CLAIM_TO_CITATION {
        claimToCitation := claimToCitation + {(row.from, row.to)};
      }
    }
    assert rows[..|rows|] == rows;
  }

  lemma EdgesOkStep(rows: seq<Dict<Edge>>, i: nat, summaryIds: set<string>, claimIds: set<string>,
                    citationIds: set<string>)
    requires i < |rows|
    ensures EdgesOk(rows[..i + 1], summaryIds, claimIds, citationIds)
       <==> EdgesOk(rows[..i], summaryIds, claimIds, citationIds) && EdgeOk(rows[i], summaryIds, claimIds, citationIds)
  {
    var before, after := rows[..i], rows[..i + 1];
    assert after[i] == rows[i];
    assert forall k :: 0 <= k < i ==> after[k] == before[k];
  }

  // ----- Citation references, in summary rows and lineage rows ------------------------

  function Reference(d: Dict<Scalar>): string {
    CitationNodeIdFromAny(FieldsOr(d, Missing))
  }

  ghost predicate ReferencesOk(rows: seq<Dict<Scalar>>) {
    forall i :: 0 <= i < |rows| ==> rows[i].Dict? && Reference(rows[i]) != ""
  }

  ghost function References(rows: seq<Dict<Scalar>>): set<string> {
    set i | 0 <= i < |rows| && Reference(rows[i]) != "" :: Reference(rows[i])
  }

  lemma ReferencesStep(rows: seq<Dict<Scalar>>, i: nat)
    requires i < |rows|
    ensures ReferencesOk(rows[..i + 1]) <==> ReferencesOk(rows[..i]) && rows[i].Dict? && Reference(rows[i]) != ""
    ensures References(rows[..i + 1])
         == References(rows[..i]) + if Reference(rows[i]) != "" then {Reference(rows[i])} else {}
  {
    var before, after := rows[..i], rows[..i + 1];
    assert after[i] == rows[i];
    assert forall k :: 0 <= k < i ==> after[k] == before[k];
    forall x | x in References(before)
      ensures x in References(after)
    {
      var k :| 0 <= k < i && Reference(before[k]) == x;
      assert Reference(after[k]) == x;
    }
    assert Reference(after[i]) != "" ==> Reference(after[i]) in References(after);
  }

  method CheckReferences(v: Validation, rows: seq<Dict<Scalar>>, place: string) returns (ids: set<string>)
    requires v.Valid()
    modifies v
    ensures Judged(v, ReferencesOk(rows)) && ids == References(rows)
  {
    ids := {};
    for i := 0 to |rows|
      invariant Judged(v, ReferencesOk(rows[..i])) && ids == References(rows[..i])
    {
      ReferencesStep(rows, i);
      var citation := v.ExpectDict(rows[i], At(place, i), Missing);
      var nodeId := CitationNodeIdFromAny(citation);
      v.Add(At(place, i) + ".citation_id", nodeId != "");
      if nodeId != "" {
        ids := ids + {nodeId};
      }
    }
    assert rows[..|rows|] == rows;
  }

  // ----- Section: summary_to_source rows -----------------------------------------------

  function Get<K, V>(m: map<K, set<V>>, k: K): set<V> {
    if k in m then m[k] else {}
  }

  function SourceRow(d: Dict<SummaryRow>): SummaryRow {
    FieldsOr(d, NO_SUMMARY_ROW)
  }

  ghost predicate SourceRowOk(d: Dict<SummaryRow>, summaryIds: set<string>, claimsBy: map<string, set<int>>,
                              citesBy: map<string, set<string>>)
  {
    && d.Dict?
    && d.fields.summaryId != "" && d.fields.summaryId in summaryIds
    && d.fields.claimIds.Items?
    && NonNegative(d.fields.claimIds.items) == Get(claimsBy, d.fields.summaryId)
    && d.fields.sourceCitations.Items? && ReferencesOk(d.fields.sourceCitations.items)
    && References(d.fields.sourceCitations.items) == Get(citesBy, d.fields.summaryId)
  }

  ghost predicate SourceRowsOk(rows: seq<Dict<SummaryRow>>, summaryIds: set<string>, claimsBy: map<string, set<int>>,
                               citesBy: map<string, set<string>>)
  {
    forall i :: 0 <= i < |rows| ==> SourceRowOk(rows[i], summaryIds, claimsBy, citesBy)
  }

  ghost function SourceIds(rows: seq<Dict<SummaryRow>>): set<string> {
    set i | 0 <= i < |rows| :: SourceRow(rows[i]).summaryId
  }

  lemma SourceRowsStep(rows: seq<Dict<SummaryRow>>, i: nat, summaryIds: set<string>, claimsBy: map<string, set<int>>,
                       citesBy: map<string, set<string>>)
    requires i < |rows|
    ensures SourceRowsOk(rows[..i + 1], summaryIds, claimsBy, citesBy)
       <==> SourceRowsOk(rows[..i], summaryIds, claimsBy, citesBy)
            && SourceRowOk(rows[i], summaryIds, claimsBy, citesBy)
    ensures SourceIds(rows[..i + 1]) == SourceIds(rows[..i]) + {SourceRow(rows[i]).summaryId}
  {
    var before, after := rows[..i], rows[..i + 1];
    assert after[i] == rows[i];
    assert forall k :: 0 <= k < i ==> after[k] == before[k];
    forall x | x in SourceIds(before)
      ensures x in SourceIds(after)
    {
      var k :| 0 <= k < i && SourceRow(before[k]).summaryId == x;
      assert SourceRow(after[k]).summaryId == x;
    }
    assert SourceRow(after[i]).summaryId in SourceIds(after);
  }

  method CheckSourceRow(v: Validation, d: Dict<SummaryRow>, place: string, summaryIds: set<string>,
                        claimsBy: map<string, set<int>>, citesBy: map<string, set<string>>)
    returns (row: SummaryRow)
    requires v.Valid()
    modifies v
    ensures row == SourceRow(d) && Judged(v, SourceRowOk(d, summaryIds, claimsBy, citesBy))
  {
    row := v.ExpectDict(d, place, NO_SUMMARY_ROW);
    v.Add(place + ".summary_id", row.summaryId != "" && row.summaryId in summaryIds);
    var claimIds := v.ExpectList(row.claimIds, place + ".claim_ids");
    v.Add(place + ".claim_ids.match", NonNegative(claimIds) == Get(claimsBy, row.summaryId));
    var citations := v.ExpectList(row.sourceCitations, place + ".source_citations");
    var references := CheckReferences(v, citations, place + ".source_citations");
    v.Add(place + ".source_citations.match", references == Get(citesBy, row.summaryId));
  }

  method CheckSourceRows(v: Validation, rows: seq<Dict<SummaryRow>>, summaryIds: set<string>,
                         claimsBy: map<string, set<int>>, citesBy: map<string, set<string>>)
    returns (ids: set<string>)
    requires v.Valid()
    modifies v
    ensures Judged(v, SourceRowsOk(rows, summaryIds, claimsBy, citesBy)) && ids == SourceIds(rows)
  {
    ids := {};
    for i := 0 to |rows|
      invariant Judged(v, SourceRowsOk(rows[..i], summaryIds, claimsBy, citesBy)) && ids == SourceIds(rows[..i])
    {
      SourceRowsStep(rows, i, summaryIds, claimsBy, citesBy);
      var row := CheckSourceRow(v, rows[i], At("traceability.summary_to_source", i), summaryIds, claimsBy, citesBy);
      ids := ids + {row.summaryId};
    }
    assert rows[..|rows|] == rows;
  }

  // ----- Section: claim_lineage rows ------------------------------------------------------

  function Lineage(d: Dict<LineageRow>): LineageRow {
    FieldsOr(d, NO_LINEAGE_ROW)
  }

  ghost predicate LineageRowOk(d: Dict<LineageRow>, summaryBy: map<int, string>, citesBy: map<int, set<string>>) {
    && d.Dict?
    && d.fields.claimId >= 0 && d.fields.claimId in summaryBy
    && d.fields.summaryId != "" && d.fields.summaryId == summaryBy[d.fields.claimId]
    && d.fields.citations.Items? && ReferencesOk(d.fields.citations.items)
    && References(d.fields.citations.items) == Get(citesBy, d.fields.claimId)
  }

  ghost predicate LineageRowsOk(rows: seq<Dict<LineageRow>>, summaryBy: map<int, string>,
                                citesBy: map<int, set<string>>)
  {
    forall i :: 0 <= i < |rows| ==> LineageRowOk(rows[i], summaryBy, citesBy)
  }

  ghost function LineageIds(rows: seq<Dict<LineageRow>>): set<int> {
    set i | 0 <= i < |rows| :: Lineage(rows[i]).claimId
  }

  lemma LineageRowsStep(rows: seq<Dict<LineageRow>>, i: nat, summaryBy: map<int, string>,
                        citesBy: map<int, set<string>>)
    requires i < |rows|
    ensures LineageRowsOk(rows[..i + 1], summaryBy, citesBy)
       <==> LineageRowsOk(rows[..i], summaryBy, citesBy) && LineageRowOk(rows[i], summaryBy, citesBy)
    ensures LineageIds(rows[..i + 1]) == LineageIds(rows[..i]) + {Lineage(rows[i]).claimId}
  {
    var before, after := rows[..i], rows[..i + 1];
    assert after[i] == rows[i];
    assert forall k :: 0 <= k < i ==> after[k] == before[k];
    forall x | x in LineageIds(before)
      ensures x in LineageIds(after)
    {
      var k :| 0 <= k < i && Lineage(before[k]).claimId == x;
      assert Lineage(after[k]).claimId == x;
    }
    assert Lineage(after[i]).claimId in LineageIds(after);
  }

  method CheckLineageRow(v: Validation, d: Dict<LineageRow>, place: string, summaryBy: map<int, string>,
                         citesBy: map<int, set<string>>)
    returns (row: LineageRow)
    requires v.Valid()
    modifies v
    ensures row == Lineage(d) && Judged(v, LineageRowOk(d, summaryBy, citesBy))
  {
    row := v.ExpectDict(d, place, NO_LINEAGE_ROW);
    v.Add(place + ".claim_id", row.claimId >= 0 && row.claimId in summaryBy);
    var expected := if row.claimId in summaryBy then summaryBy[row.claimId] else "";
    v.Add(place + ".summary_id.match", row.summaryId != "" && row.summaryId == expected);
    var citations := v.ExpectList(row.citations, place + ".citations");
    var references := CheckReferences(v, citations, place + ".citations");
    v.Add(place + ".citations.match", references == Get(citesBy, row.claimId));
  }

  method CheckLineageRows(v: Validation, rows: seq<Dict<LineageRow>>, summaryBy: map<int, string>,
                          citesBy: map<int, set<string>>)
    returns (ids: set<int>)
    requires v.Valid()
    modifies v
    ensures Judged(v, LineageRowsOk(rows, summaryBy, citesBy)) && ids == LineageIds(rows)
  {
    ids := {};
    for i := 0 to |rows|
      invariant Judged(v, LineageRowsOk(rows[..i], summaryBy, citesBy)) && ids == LineageIds(rows[..i])
    {
      LineageRowsStep(rows, i, summaryBy, citesBy);
      var row := CheckLineageRow(v, rows[i], At("traceability.claim_lineage", i), summaryBy, citesBy);
      ids := ids + {row.claimId};
    }
    assert rows[..|rows|] == rows;
  }

  // ----- Sums and unions over the dicts -----------------------------------------------------

  ghost function Sizes<K, V>(m: map<K, set<V>>): map<K, int> {
    map k | k in m :: |m[k]|
  }

  /** `sum(len(s) for s in m.values())`. */
  method SumOfSizes(m: map<string, set<int>>) returns (total: int)
    ensures total == Total(Sizes(m))
  {
    total := 0;
    var rest := m;
    while rest.Keys != {}
      invariant total + Total(Sizes(rest)) == Total(Sizes(m))
      decreases |rest|
    {
      var k :| k in rest;
      TotalRemove(Sizes(rest), k);
      assert Sizes(rest) - {k} == Sizes(rest - {k});
      total := total + |rest[k]|;
      rest := rest - {k};
    }
  }

  /** `set().union(*m.values())`. */
  function UnionOf<K, V>(m: map<K, set<V>>): set<V> {
    set k, x | k in m && x in m[k] :: x
  }
}
