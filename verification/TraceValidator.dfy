/** The verdict of the compaction trace validator,
    `scripts/compaction_trace_validate.py`: no check fails exactly when the two
    payloads are well formed, as a predicate on their rows with no sets or dicts
    of the validator in it. */
module TraceValidator {
  import opened Basics
  import opened TraceSections

  // ----- What a well-formed pair of payloads is --------------------------------

  /** (summary, claim node) for every claim node. */
  ghost function Assignments(claims: seq<Dict<ClaimNode>>): set<(string, string)> {
    set i | 0 <= i < |claims| :: (Claim(claims[i]).summaryId, ClaimNodeId(Claim(claims[i]).claimId))
  }

  /** (claim node, citation) for every citation that a claim node lists. */
  ghost function CitationPairs(claims: seq<Dict<ClaimNode>>): set<(string, string)> {
    set i, x | 0 <= i < |claims| && x in ClaimCites(claims[i]) :: (ClaimNodeId(Claim(claims[i]).claimId), x)
  }

  ghost function CitedBySummaries(summaries: seq<Dict<SummaryNode>>): set<string> {
    set i, x | 0 <= i < |summaries| && x in SummaryCites(summaries[i]) :: x
  }

  ghost function CitedByClaims(claims: seq<Dict<ClaimNode>>): set<string> {
    set i, x | 0 <= i < |claims| && x in ClaimCites(claims[i]) :: x
  }

  function ClaimTotal(summaries: seq<Dict<SummaryNode>>): nat {
    if summaries == [] then 0
    else ClaimTotal(summaries[..|summaries| - 1]) + |SummaryClaims(summaries[|summaries| - 1])|
  }

  /** The row repeats the claims and citations of the summary node it names. */
  ghost predicate SourceRowAgrees(d: Dict<SummaryRow>, summaries: seq<Dict<SummaryNode>>) {
    && d.Dict? && d.fields.claimIds.Items? && d.fields.sourceCitations.Items?
    && ReferencesOk(d.fields.sourceCitations.items)
    && exists j :: 0 <= j < |summaries| && DescribesSummary(d.fields, summaries[j])
  }

  ghost predicate DescribesSummary(row: SummaryRow, summary: Dict<SummaryNode>) {
    && row.summaryId == Summary(summary).id
    && NonNegative(ItemsOf(row.claimIds)) == SummaryClaims(summary)
    && References(ItemsOf(row.sourceCitations)) == SummaryCites(summary)
  }

  /** The row repeats the summary and citations of the claim node it names. */
  ghost predicate LineageRowAgrees(d: Dict<LineageRow>, claims: seq<Dict<ClaimNode>>) {
    && d.Dict? && d.fields.citations.Items? && ReferencesOk(d.fields.citations.items)
    && exists j :: 0 <= j < |claims| && DescribesClaim(d.fields, claims[j])
  }

  ghost predicate DescribesClaim(row: LineageRow, claim: Dict<ClaimNode>) {
    && row.claimId == Claim(claim).claimId
    && row.summaryId == Claim(claim).summaryId
    && References(ItemsOf(row.citations)) == ClaimCites(claim)
  }

  function SummaryNodes(g: SummaryGraph): seq<Dict<SummaryNode>> {
    ItemsOf(FieldsOr(g.nodes, NO_NODES).summaries)
  }

  function ClaimNodes(g: SummaryGraph): seq<Dict<ClaimNode>> {
    ItemsOf(FieldsOr(g.nodes, NO_NODES).claims)
  }

  function CitationNodes(g: SummaryGraph): seq<Dict<CitationNode>> {
    ItemsOf(FieldsOr(g.nodes, NO_NODES).citations)
  }

  predicate HeadersAgree(g: SummaryGraph, t: Traceability) {
    g.artifactType == "summary_graph" && t.artifactType == "traceability" && g.run.Dict? && g.run == t.run
  }

  predicate ListsPresent(g: SummaryGraph, t: Traceability) {
    && g.nodes.Dict? && g.nodes.fields.summaries.Items? && g.nodes.fields.claims.Items?
    && g.nodes.fields.citations.Items? && g.edges.Items?
    && t.summaryToSource.Items? && t.claimLineage.Items?
  }

  ghost predicate NodesOk(g: SummaryGraph) {
    && SummariesOk(SummaryNodes(g))
    && ClaimsOk(ClaimNodes(g), SummaryIds(SummaryNodes(g)))
    && CitationsOk(CitationNodes(g))
  }

  ghost predicate GraphOk(g: SummaryGraph) {
    var edges, claims := ItemsOf(g.edges), ClaimNodes(g);
    && EdgesOk(edges, SummaryIds(SummaryNodes(g)), ClaimNodeIds(claims), CitationNodeIds(CitationNodes(g)))
    && Edges(edges, SUMMARY_TO_CLAIM) == Assignments(claims)
    && Edges(edges, CLAIM_TO_CITATION) == CitationPairs(claims)
  }

  ghost predicate TraceOk(g: SummaryGraph, t: Traceability) {
    var sources, lineage := ItemsOf(t.summaryToSource), ItemsOf(t.claimLineage);
    && (forall i :: 0 <= i < |sources| ==> SourceRowAgrees(sources[i], SummaryNodes(g)))
    && SourceIds(sources) == SummaryIds(SummaryNodes(g))
    && (forall i :: 0 <= i < |lineage| ==> LineageRowAgrees(lineage[i], ClaimNodes(g)))
    && LineageIds(lineage) == ClaimIds(ClaimNodes(g))
  }

  ghost predicate CountsOk(g: SummaryGraph) {
    var run := FieldsOr(g.run, NO_RUN);
    && ToInt(run.archivedClaims) == |ClaimNodes(g)| <= ToInt(run.candidateClaims)
    && ClaimTotal(SummaryNodes(g)) == |ClaimNodes(g)|
    && CitedBySummaries(SummaryNodes(g)) == CitationNodeIds(CitationNodes(g)) == CitedByClaims(ClaimNodes(g))
  }

  ghost predicate WellFormed(g: SummaryGraph, t: Traceability) {
    HeadersAgree(g, t) && ListsPresent(g, t) && NodesOk(g) && GraphOk(g) && TraceOk(g, t) && CountsOk(g)
  }

  // ----- The validator's dicts say what the rows say ------------------------------

  ghost predicate SummaryDictsOk(rows: seq<Dict<SummaryNode>>, claimsBy: map<string, set<int>>,
                                 citesBy: map<string, set<string>>)
  {
    && claimsBy.Keys == SummaryIds(rows) == citesBy.Keys
    && forall i :: 0 <= i < |rows| ==> SummaryFiled(rows[i], claimsBy, citesBy)
  }

  ghost predicate SummaryFiled(row: Dict<SummaryNode>, claimsBy: map<string, set<int>>,
                               citesBy: map<string, set<string>>) {
    var id := Summary(row).id;
    id in claimsBy && claimsBy[id] == SummaryClaims(row) && id in citesBy && citesBy[id] == SummaryCites(row)
  }

  lemma SummariesInit(rows: seq<Dict<SummaryNode>>)
    requires rows != [] && SummariesOk(rows)
    ensures var init, last := rows[..|rows| - 1], rows[|rows| - 1];
            && SummariesOk(init) && SummaryOk(last) && Summary(last).id !in SummaryIds(init)
            && SummaryIds(rows) == SummaryIds(init) + {Summary(last).id}
  {
    SummariesStep(rows, |rows| - 1);
    SummaryIdsStep(rows, |rows| - 1);
    assert rows[..|rows|] == rows;
  }

  lemma SummariesFiledExtend(init: seq<Dict<SummaryNode>>, last: Dict<SummaryNode>, claimsBy: map<string, set<int>>,
                             citesBy: map<string, set<string>>)
    requires forall i :: 0 <= i < |init| ==> SummaryFiled(init[i], claimsBy, citesBy)
    requires Summary(last).id !in claimsBy
    ensures var id, rows := Summary(last).id, init + [last];
            forall i :: 0 <= i < |rows| ==>
              SummaryFiled(rows[i], claimsBy[id := SummaryClaims(last)], citesBy[id := SummaryCites(last)])
  {
    forall i | 0 <= i < |init|
      ensures Summary(init[i]).id != Summary(last).id
    {
      assert SummaryFiled(init[i], claimsBy, citesBy);
    }
  }

  lemma {:induction false} SummaryKeys(rows: seq<Dict<SummaryNode>>)
    requires SummariesOk(rows)
    ensures ClaimsBySummary(rows).Keys == SummaryIds(rows)
    ensures CitesBySummary(rows).Keys == SummaryIds(rows)
  {
    if rows != [] {
      SummariesInit(rows);
      SummaryKeys(rows[..|rows| - 1]);
    }
  }

  lemma {:induction false} SummariesFiled(rows: seq<Dict<SummaryNode>>)
    requires SummariesOk(rows)
    ensures forall i :: 0 <= i < |rows| ==> SummaryFiled(rows[i], ClaimsBySummary(rows), CitesBySummary(rows))
  {
    if rows != [] {
      var init, last := rows[..|rows| - 1], rows[|rows| - 1];
      assert rows == init + [last];
      assert SummariesOk(init) && Summary(last).id !in ClaimsBySummary(init) by {
        SummariesInit(rows);
        SummaryKeys(init);
      }
      SummariesFiled(init);
      SummariesFiledExtend(init, last, ClaimsBySummary(init), CitesBySummary(init));
    }
  }

  lemma SummaryDicts(rows: seq<Dict<SummaryNode>>)
    requires SummariesOk(rows)
    ensures SummaryDictsOk(rows, ClaimsBySummary(rows), CitesBySummary(rows))
  {
    SummaryKeys(rows);
    SummariesFiled(rows);
  }

  lemma SizesInsert<K, V>(m: map<K, set<V>>, k: K, items: set<V>)
    requires k !in m
    ensures Total(Sizes(m[k := items])) == Total(Sizes(m)) + |items|
  {
    assert Sizes(m[k := items]) == Sizes(m)[k := |items|];
    TotalInsert(Sizes(m), k, |items|);
  }

  lemma {:induction false} SummaryTotals(rows: seq<Dict<SummaryNode>>)
    requires SummariesOk(rows)
    ensures Total(Sizes(ClaimsBySummary(rows))) == ClaimTotal(rows)
  {
    if rows != [] {
      var init, last := rows[..|rows| - 1], rows[|rows| - 1];
      SummariesInit(rows);
      SummaryTotals(init);
      SummaryDicts(init);
      SizesInsert(ClaimsBySummary(init), Summary(last).id, SummaryClaims(last));
    }
  }

  ghost predicate ClaimDictsOk(rows: seq<Dict<ClaimNode>>, summaryBy: map<int, string>,
                               citesBy: map<int, set<string>>) {
    && summaryBy.Keys == ClaimIds(rows) == citesBy.Keys
    && |summaryBy| == |rows|
    && forall i :: 0 <= i < |rows| ==> ClaimFiled(rows[i], summaryBy, citesBy)
  }

  ghost predicate ClaimFiled(row: Dict<ClaimNode>, summaryBy: map<int, string>, citesBy: map<int, set<string>>) {
    var c := Claim(row).claimId;
    c in summaryBy && summaryBy[c] == Claim(row).summaryId && c in citesBy && citesBy[c] == ClaimCites(row)
  }

  lemma ClaimsFiledExtend(init: seq<Dict<ClaimNode>>, last: Dict<ClaimNode>, summaryBy: map<int, string>,
                          citesBy: map<int, set<string>>)
    requires forall i :: 0 <= i < |init| ==> ClaimFiled(init[i], summaryBy, citesBy)
    requires Claim(last).claimId !in summaryBy
    ensures var c, rows := Claim(last).claimId, init + [last];
            forall i :: 0 <= i < |rows| ==>
              ClaimFiled(rows[i], summaryBy[c := Claim(last).summaryId], citesBy[c := ClaimCites(last)])
  {
    forall i | 0 <= i < |init|
      ensures Claim(init[i]).claimId != Claim(last).claimId
    {
      assert ClaimFiled(init[i], summaryBy, citesBy);
    }
  }

  lemma ClaimsInit(rows: seq<Dict<ClaimNode>>, ids: set<string>)
    requires rows != [] && ClaimsOk(rows, ids)
    ensures var init, last := rows[..|rows| - 1], rows[|rows| - 1];
            && ClaimsOk(init, ids) && ClaimOk(last, ids) && Claim(last).claimId !in ClaimIds(init)
            && ClaimIds(rows) == ClaimIds(init) + {Claim(last).claimId}
  {
    ClaimsStep(rows, |rows| - 1, ids);
    ClaimIdsStep(rows, |rows| - 1);
    assert rows[..|rows|] == rows;
  }

  lemma {:induction false} ClaimKeys(rows: seq<Dict<ClaimNode>>, ids: set<string>)
    requires ClaimsOk(rows, ids)
    ensures SummaryByClaim(rows).Keys == ClaimIds(rows)
    ensures CitesByClaim(rows).Keys == ClaimIds(rows)
  {
    if rows != [] {
      var init, row := rows[..|rows| - 1], Claim(rows[|rows| - 1]);
      ClaimsInit(rows, ids);
      ClaimKeys(init, ids);
      assert SummaryByClaim(rows) == SummaryByClaim(init)[row.claimId := row.summaryId];
    }
  }

  lemma OneMoreKey<K, V>(m: map<K, V>, k: K, v: V)
    requires k !in m
    ensures |m[k := v]| == |m| + 1
  {
  }

  lemma {:induction false} ClaimCount(rows: seq<Dict<ClaimNode>>, ids: set<string>)
    requires ClaimsOk(rows, ids)
    ensures |SummaryByClaim(rows)| == |rows|
  {
    if rows != [] {
      var init, row := rows[..|rows| - 1], Claim(rows[|rows| - 1]);
      var before := SummaryByClaim(init);
      assert ClaimsOk(init, ids) && row.claimId >= 0 && row.summaryId != "" && row.claimId !in before by {
        ClaimsInit(rows, ids);
        ClaimKeys(init, ids);
      }
      ClaimCount(init, ids);
      OneMoreKey(before, row.claimId, row.summaryId);
    }
  }

  lemma {:induction false} ClaimsFiled(rows: seq<Dict<ClaimNode>>, ids: set<string>)
    requires ClaimsOk(rows, ids)
    ensures forall i :: 0 <= i < |rows| ==> ClaimFiled(rows[i], SummaryByClaim(rows), CitesByClaim(rows))
  {
    if rows != [] {
      var init, last := rows[..|rows| - 1], rows[|rows| - 1];
      assert rows == init + [last];
      assert ClaimsOk(init, ids) && ClaimOk(last, ids) && Claim(last).claimId !in SummaryByClaim(init) by {
        ClaimsInit(rows, ids);
        ClaimKeys(init, ids);
      }
      ClaimsFiled(init, ids);
      ClaimsFiledExtend(init, last, SummaryByClaim(init), CitesByClaim(init));
    }
  }

  lemma ClaimDicts(rows: seq<Dict<ClaimNode>>, ids: set<string>)
    requires ClaimsOk(rows, ids)
    ensures ClaimDictsOk(rows, SummaryByClaim(rows), CitesByClaim(rows))
  {
    ClaimKeys(rows, ids);
    ClaimCount(rows, ids);
    ClaimsFiled(rows, ids);
  }

  /** The edges that the dicts lead the validator to expect. */
  function ExpectedAssignments(summaryBy: map<int, string>): set<(string, string)> {
    set c | c in summaryBy && summaryBy[c] != "" :: (summaryBy[c], ClaimNodeId(c))
  }

  function ExpectedCitations(citesBy: map<int, set<string>>): set<(string, string)> {
    set c, x | c in citesBy && c >= 0 && x in citesBy[c] :: (ClaimNodeId(c), x)
  }

  lemma ClaimRowOf(rows: seq<Dict<ClaimNode>>, ids: set<string>, c: int) returns (i: nat)
    requires ClaimsOk(rows, ids) && c in ClaimIds(rows)
    ensures i < |rows| && Claim(rows[i]).claimId == c && ClaimOk(rows[i], ids)
  {
    i :| 0 <= i < |rows| && Claim(rows[i]).claimId == c;
  }

  lemma ExpectedEdges(rows: seq<Dict<ClaimNode>>, ids: set<string>)
    requires ClaimsOk(rows, ids)
    ensures ExpectedAssignments(SummaryByClaim(rows)) == Assignments(rows)
  {
    ClaimDicts(rows, ids);
    var summaryBy, citesBy := SummaryByClaim(rows), CitesByClaim(rows);
    forall c | c in summaryBy
      ensures (summaryBy[c], ClaimNodeId(c)) in Assignments(rows)
    {
      var i := ClaimRowOf(rows, ids, c);
      assert ClaimFiled(rows[i], summaryBy, citesBy);
    }
    forall i | 0 <= i < |rows|
      ensures (Claim(rows[i]).summaryId, ClaimNodeId(Claim(rows[i]).claimId)) in ExpectedAssignments(summaryBy)
    {
      assert ClaimOk(rows[i], ids) && ClaimFiled(rows[i], summaryBy, citesBy);
    }
  }

  lemma ExpectedCitationEdges(rows: seq<Dict<ClaimNode>>, ids: set<string>)
    requires ClaimsOk(rows, ids)
    ensures ExpectedCitations(CitesByClaim(rows)) == CitationPairs(rows)
    ensures UnionOf(CitesByClaim(rows)) == CitedByClaims(rows)
  {
    ClaimDicts(rows, ids);
    var summaryBy, citesBy := SummaryByClaim(rows), CitesByClaim(rows);
    forall c, x | c in citesBy && x in citesBy[c]
      ensures (ClaimNodeId(c), x) in CitationPairs(rows) && x in CitedByClaims(rows)
    {
      var i := ClaimRowOf(rows, ids, c);
      assert ClaimFiled(rows[i], summaryBy, citesBy);
    }
    forall i, x | 0 <= i < |rows| && x in ClaimCites(rows[i])
      ensures (ClaimNodeId(Claim(rows[i]).claimId), x) in ExpectedCitations(citesBy) && x in UnionOf(citesBy)
    {
      assert ClaimOk(rows[i], ids) && ClaimFiled(rows[i], summaryBy, citesBy);
    }
  }

  lemma SummaryRowOf(rows: seq<Dict<SummaryNode>>, id: string) returns (i: nat)
    requires id in SummaryIds(rows)
    ensures i < |rows| && Summary(rows[i]).id == id
  {
    i :| 0 <= i < |rows| && Summary(rows[i]).id == id;
  }

  lemma SummaryUnion(rows: seq<Dict<SummaryNode>>)
    requires SummariesOk(rows)
    ensures UnionOf(CitesBySummary(rows)) == CitedBySummaries(rows)
  {
    SummaryDicts(rows);
    var claimsBy, citesBy := ClaimsBySummary(rows), CitesBySummary(rows);
    forall id, x | id in citesBy && x in citesBy[id]
      ensures x in CitedBySummaries(rows)
    {
      var i := SummaryRowOf(rows, id);
      assert SummaryFiled(rows[i], claimsBy, citesBy);
    }
    forall i, x | 0 <= i < |rows| && x in SummaryCites(rows[i])
      ensures x in UnionOf(citesBy)
    {
      assert SummaryFiled(rows[i], claimsBy, citesBy);
    }
  }

  lemma SourceRowIff(d: Dict<SummaryRow>, rows: seq<Dict<SummaryNode>>)
    requires SummariesOk(rows)
    ensures SourceRowOk(d, SummaryIds(rows), ClaimsBySummary(rows), CitesBySummary(rows)) <==> SourceRowAgrees(d, rows)
  {
    SummaryDicts(rows);
    var claimsBy, citesBy := ClaimsBySummary(rows), CitesBySummary(rows);
    if SourceRowOk(d, SummaryIds(rows), claimsBy, citesBy) {
      var j := SummaryRowOf(rows, d.fields.summaryId);
      assert SummaryFiled(rows[j], claimsBy, citesBy);
      assert DescribesSummary(d.fields, rows[j]);
    }
    if SourceRowAgrees(d, rows) {
      var j :| 0 <= j < |rows| && DescribesSummary(d.fields, rows[j]);
      assert SummaryOk(rows[j]) && SummaryFiled(rows[j], claimsBy, citesBy);
    }
  }

  lemma LineageRowIff(d: Dict<LineageRow>, rows: seq<Dict<ClaimNode>>, ids: set<string>)
    requires ClaimsOk(rows, ids)
    ensures LineageRowOk(d, SummaryByClaim(rows), CitesByClaim(rows)) <==> LineageRowAgrees(d, rows)
  {
    ClaimDicts(rows, ids);
    var summaryBy, citesBy := SummaryByClaim(rows), CitesByClaim(rows);
    if LineageRowOk(d, summaryBy, citesBy) {
      var j := ClaimRowOf(rows, ids, d.fields.claimId);
      assert ClaimFiled(rows[j], summaryBy, citesBy);
      assert DescribesClaim(d.fields, rows[j]);
    }
    if LineageRowAgrees(d, rows) {
      var j :| 0 <= j < |rows| && DescribesClaim(d.fields, rows[j]);
      assert ClaimOk(rows[j], ids) && ClaimFiled(rows[j], summaryBy, citesBy);
    }
  }

  lemma TraceRowsIff(g: SummaryGraph, t: Traceability)
    requires NodesOk(g)
    ensures SourceRowsOk(ItemsOf(t.summaryToSource), SummaryIds(SummaryNodes(g)), ClaimsBySummary(SummaryNodes(g)),
                         CitesBySummary(SummaryNodes(g)))
       <==> forall i :: 0 <= i < |ItemsOf(t.summaryToSource)| ==>
                          SourceRowAgrees(ItemsOf(t.summaryToSource)[i], SummaryNodes(g))
    ensures LineageRowsOk(ItemsOf(t.claimLineage), SummaryByClaim(ClaimNodes(g)), CitesByClaim(ClaimNodes(g)))
       <==> forall i :: 0 <= i < |ItemsOf(t.claimLineage)| ==>
                          LineageRowAgrees(ItemsOf(t.claimLineage)[i], ClaimNodes(g))
  {
    var sources, lineage, summaries := ItemsOf(t.summaryToSource), ItemsOf(t.claimLineage), SummaryNodes(g);
    forall i | 0 <= i < |sources|
      ensures SourceRowOk(sources[i], SummaryIds(summaries), ClaimsBySummary(summaries), CitesBySummary(summaries))
         <==> SourceRowAgrees(sources[i], summaries)
    {
      SourceRowIff(sources[i], summaries);
    }
    forall i | 0 <= i < |lineage|
      ensures LineageRowOk(lineage[i], SummaryByClaim(ClaimNodes(g)), CitesByClaim(ClaimNodes(g)))
         <==> LineageRowAgrees(lineage[i], ClaimNodes(g))
    {
      LineageRowIff(lineage[i], ClaimNodes(g), SummaryIds(summaries));
    }
  }

  // ----- The validator -----------------------------------------------------------------

  datatype Report = Report(passed: bool, checks: seq<Check>, errors: seq<string>, warnings: seq<string>)

  method CheckHeaders(v: Validation, g: SummaryGraph, t: Traceability) returns (run: RunInfo)
    requires v.Valid()
    modifies v
    ensures run == FieldsOr(g.run, NO_RUN) && Judged(v, HeadersAgree(g, t))
  {
    v.Add("summary_graph.artifact_type", g.artifactType == "summary_graph");
    v.Add("traceability.artifact_type", t.artifactType == "traceability");
    run := v.ExpectDict(g.run, "summary_graph.run", NO_RUN);
    var other := v.ExpectDict(t.run, "traceability.run", NO_RUN);
    v.Add("run.run_id.match", run.runId == other.runId);
    v.Add("run.retain_days.match", run.retainDays == other.retainDays);
    v.Add("run.event_retain_days.match", run.eventRetainDays == other.eventRetainDays);
    v.Add("run.candidate_claims.match", run.candidateClaims == other.candidateClaims);
    v.Add("run.archived_claims.match", run.archivedClaims == other.archivedClaims);
    v.Add("run.deleted_events.match", run.deletedEvents == other.deletedEvents);
  }

  method CheckNodes(v: Validation, g: SummaryGraph, t: Traceability)
    returns (summaries: seq<Dict<SummaryNode>>, claims: seq<Dict<ClaimNode>>, citations: seq<Dict<CitationNode>>,
             edges: seq<Dict<Edge>>, sources: seq<Dict<SummaryRow>>, lineage: seq<Dict<LineageRow>>)
    requires v.Valid()
    modifies v
    ensures summaries == SummaryNodes(g) && claims == ClaimNodes(g) && citations == CitationNodes(g)
    ensures edges == ItemsOf(g.edges) && sources == ItemsOf(t.summaryToSource) && lineage == ItemsOf(t.claimLineage)
    ensures Judged(v, ListsPresent(g, t))
  {
    var nodes := v.ExpectDict(g.nodes, "summary_graph.nodes", NO_NODES);
    summaries := v.ExpectList(nodes.summaries, "summary_graph.nodes.summaries");
    claims := v.ExpectList(nodes.claims, "summary_graph.nodes.claims");
    citations := v.ExpectList(nodes.citations, "summary_graph.nodes.citations");
    edges := v.ExpectList(g.edges, "summary_graph.edges");
    sources := v.ExpectList(t.summaryToSource, "traceability.summary_to_source");
    lineage := v.ExpectList(t.claimLineage, "traceability.claim_lineage");
  }

  method CheckCounts(v: Validation, run: RunInfo, claimsBy: map<string, set<int>>,
                     summaryCites: map<string, set<string>>,
                     summaryBy: map<int, string>, claimCites: map<int, set<string>>, citationIds: set<string>)
    requires v.Valid()
    modifies v
    ensures Judged(v, ToInt(run.archivedClaims) == |summaryBy| <= ToInt(run.candidateClaims)
                      && Total(Sizes(claimsBy)) == |summaryBy|
                      && UnionOf(summaryCites) == citationIds == UnionOf(claimCites))
  {
    var archived, candidate := ToInt(run.archivedClaims), ToInt(run.candidateClaims);
    v.Add("run.archived_matches_nodes", archived == |summaryBy|);
    v.Add("run.candidate_not_less_than_archived", candidate >= archived);
    var claimTotal := SumOfSizes(claimsBy);
    v.Add("summary.partition_claims", claimTotal == |summaryBy|);
    v.Add("citations.coverage.summary_vs_nodes", UnionOf(summaryCites) == citationIds);
    v.Add("citations.coverage.claims_vs_nodes", UnionOf(claimCites) == citationIds);
  }

  method CheckGraph(v: Validation, g: SummaryGraph, summaryIds: set<string>, summaryBy: map<int, string>,
                    claimCites: map<int, set<string>>, claimIds: set<string>, citationIds: set<string>)
    requires v.Valid()
    requires summaryIds == SummaryIds(SummaryNodes(g)) && claimIds == ClaimNodeIds(ClaimNodes(g))
    requires summaryBy == SummaryByClaim(ClaimNodes(g)) && claimCites == CitesByClaim(ClaimNodes(g))
    requires citationIds == CitationNodeIds(CitationNodes(g))
    modifies v
    ensures v.Valid() && v.warnings == old(v.warnings) + UnknownEdges(ItemsOf(g.edges))
    ensures v.Passed() ==> old(v.Passed())
    ensures NodesOk(g) ==> (v.Passed() <==> old(v.Passed()) && GraphOk(g))
  {
    var summaryToClaim, claimToCitation := CheckEdges(v, ItemsOf(g.edges), summaryIds, claimIds, citationIds);
    v.Add("edges.summary_to_claim.complete", summaryToClaim == ExpectedAssignments(summaryBy));
    v.Add("edges.claim_to_citation.complete", claimToCitation == ExpectedCitations(claimCites));
    if NodesOk(g) {
      ExpectedEdges(ClaimNodes(g), summaryIds);
      ExpectedCitationEdges(ClaimNodes(g), summaryIds);
    }
  }

  method CheckTrace(v: Validation, g: SummaryGraph, t: Traceability, summaryIds: set<string>,
                    claimsBy: map<string, set<int>>, summaryCites: map<string, set<string>>,
                    summaryBy: map<int, string>, claimCites: map<int, set<string>>)
    requires v.Valid()
    requires summaryIds == SummaryIds(SummaryNodes(g))
    requires claimsBy == ClaimsBySummary(SummaryNodes(g)) && summaryCites == CitesBySummary(SummaryNodes(g))
    requires summaryBy == SummaryByClaim(ClaimNodes(g)) && claimCites == CitesByClaim(ClaimNodes(g))
    modifies v
    ensures v.Valid() && v.warnings == old(v.warnings)
    ensures v.Passed() ==> old(v.Passed())
    ensures NodesOk(g) ==> (v.Passed() <==> old(v.Passed()) && TraceOk(g, t))
  {
    var sourceIds := CheckSourceRows(v, ItemsOf(t.summaryToSource), summaryIds, claimsBy, summaryCites);
    v.Add("traceability.summary_to_source.coverage", sourceIds == summaryIds);
    var lineageIds := CheckLineageRows(v, ItemsOf(t.claimLineage), summaryBy, claimCites);
    v.Add("traceability.claim_lineage.coverage", lineageIds == summaryBy.Keys);
    if NodesOk(g) {
      TraceRowsIff(g, t);
      ClaimDicts(ClaimNodes(g), summaryIds);
    }
  }

  /** The validator passes exactly the well-formed payloads; its warnings are
      the edges of unknown type, which never decide the verdict. */
  method ValidatePayloads(g: SummaryGraph, t: Traceability) returns (report: Report)
    ensures report.passed <==> WellFormed(g, t)
    ensures report.warnings == UnknownEdges(ItemsOf(g.edges))
    ensures report.errors == Failed(report.checks, Error) && (report.passed <==> report.errors == [])
  {
    var v := new Validation();
    var run := CheckHeaders(v, g, t);
    var summaries, claims, citations, edges, sources, lineage := CheckNodes(v, g, t);
    var summaryIds, claimsBy, summaryCites := CheckSummaries(v, summaries);
    var summaryBy, claimCites, claimIds := CheckClaims(v, claims, summaryIds);
    var citationIds := CheckCitations(v, citations);
    assert v.Passed() <==> HeadersAgree(g, t) && ListsPresent(g, t) && NodesOk(g);
    CheckGraph(v, g, summaryIds, summaryBy, claimCites, claimIds, citationIds);
    CheckTrace(v, g, t, summaryIds, claimsBy, summaryCites, summaryBy, claimCites);
    CheckCounts(v, run, claimsBy, summaryCites, summaryBy, claimCites, citationIds);
    if NodesOk(g) {
      CountsIff(g);
    }
    report := Report(v.Passed(), v.checks, v.errors, v.warnings);
  }

  lemma CountsIff(g: SummaryGraph)
    requires NodesOk(g)
    ensures |SummaryByClaim(ClaimNodes(g))| == |ClaimNodes(g)|
    ensures Total(Sizes(ClaimsBySummary(SummaryNodes(g)))) == ClaimTotal(SummaryNodes(g))
    ensures UnionOf(CitesBySummary(SummaryNodes(g))) == CitedBySummaries(SummaryNodes(g))
    ensures UnionOf(CitesByClaim(ClaimNodes(g))) == CitedByClaims(ClaimNodes(g))
  {
    SummaryTotals(SummaryNodes(g));
    SummaryUnion(SummaryNodes(g));
    ClaimDicts(ClaimNodes(g), SummaryIds(SummaryNodes(g)));
    ExpectedCitationEdges(ClaimNodes(g), SummaryIds(SummaryNodes(g)));
  }
}
