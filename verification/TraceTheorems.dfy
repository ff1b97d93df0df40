/** What a passed validation guarantees, and what it does not. */
module TraceTheorems {
  import opened Basics
  import opened TraceSections
  import opened TraceValidator

  // ----- Traceability closure ---------------------------------------------------

  ghost predicate Reaches(g: SummaryGraph, summary: string, claim: string, citation: string) {
    && summary in SummaryIds(SummaryNodes(g))
    && (summary, claim) in Edges(ItemsOf(g.edges), SUMMARY_TO_CLAIM)
    && (claim, citation) in Edges(ItemsOf(g.edges), CLAIM_TO_CITATION)
  }

  function LineageRows(t: Traceability): seq<Dict<LineageRow>> {
    ItemsOf(t.claimLineage)
  }

  /** Each lineage row is backed by edges of the graph. */
  lemma LineageRowsAreEdges(g: SummaryGraph, t: Traceability, i: nat)
    requires WellFormed(g, t) && i < |LineageRows(t)|
    ensures var row := Lineage(LineageRows(t)[i]);
            && row.claimId >= 0
            && (row.summaryId, ClaimNodeId(row.claimId)) in Edges(ItemsOf(g.edges), SUMMARY_TO_CLAIM)
            && forall x :: x in References(ItemsOf(row.citations)) ==>
                 (ClaimNodeId(row.claimId), x) in Edges(ItemsOf(g.edges), CLAIM_TO_CITATION)
  {
    var rows := LineageRows(t);
    assert LineageRowAgrees(rows[i], ClaimNodes(g));
    var j :| 0 <= j < |ClaimNodes(g)| && DescribesClaim(rows[i].fields, ClaimNodes(g)[j]);
    assert ClaimOk(ClaimNodes(g)[j], SummaryIds(SummaryNodes(g)));
  }

  lemma LineageRowFor(g: SummaryGraph, t: Traceability, j: nat) returns (i: nat)
    requires WellFormed(g, t) && j < |ClaimNodes(g)|
    ensures i < |LineageRows(t)|
    ensures Lineage(LineageRows(t)[i]).claimId == Claim(ClaimNodes(g)[j]).claimId
    ensures Lineage(LineageRows(t)[i]).summaryId == Claim(ClaimNodes(g)[j]).summaryId
    ensures References(ItemsOf(Lineage(LineageRows(t)[i]).citations)) == ClaimCites(ClaimNodes(g)[j])
  {
    var claims, rows := ClaimNodes(g), LineageRows(t);
    var c := Claim(claims[j]).claimId;
    assert ClaimOk(claims[j], SummaryIds(SummaryNodes(g)));
    assert c in ClaimIds(claims) && c in LineageIds(rows);
    i :| 0 <= i < |rows| && Lineage(rows[i]).claimId == c;
    assert LineageRowAgrees(rows[i], claims);
    var k :| 0 <= k < |claims| && DescribesClaim(rows[i].fields, claims[k]);
    assert k == j;
  }

  /** Each edge of the graph is told by some lineage row. */
  lemma EdgesAreLineageRows(g: SummaryGraph, t: Traceability, from: string, to: string)
    requires WellFormed(g, t)
    ensures (from, to) in Edges(ItemsOf(g.edges), SUMMARY_TO_CLAIM) ==>
              exists i :: 0 <= i < |LineageRows(t)| && Lineage(LineageRows(t)[i]).summaryId == from
                          && ClaimNodeId(Lineage(LineageRows(t)[i]).claimId) == to
    ensures (from, to) in Edges(ItemsOf(g.edges), CLAIM_TO_CITATION) ==>
              exists i :: 0 <= i < |LineageRows(t)| && ClaimNodeId(Lineage(LineageRows(t)[i]).claimId) == from
                          && to in References(ItemsOf(Lineage(LineageRows(t)[i]).citations))
  {
    var claims := ClaimNodes(g);
    if (from, to) in Edges(ItemsOf(g.edges), SUMMARY_TO_CLAIM) {
      assert (from, to) in Assignments(claims);
      var j :| 0 <= j < |claims| && (from, to) == (Claim(claims[j]).summaryId, ClaimNodeId(Claim(claims[j]).claimId));
      var i := LineageRowFor(g, t, j);
    }
    if (from, to) in Edges(ItemsOf(g.edges), CLAIM_TO_CITATION) {
      assert (from, to) in CitationPairs(claims);
      var j, x :| 0 <= j < |claims| && x in ClaimCites(claims[j])
                  && (from, to) == (ClaimNodeId(Claim(claims[j]).claimId), x);
      var i := LineageRowFor(g, t, j);
    }
  }

  /** If validation passes, every citation node is reached from a summary node
      over a claim node. */
  lemma EveryCitationIsReached(g: SummaryGraph, t: Traceability, citation: string)
    requires WellFormed(g, t) && citation in CitationNodeIds(CitationNodes(g))
    ensures exists summary, claim :: Reaches(g, summary, claim, citation)
  {
    var claims := ClaimNodes(g);
    assert citation in CitedByClaims(claims);
    var j :| 0 <= j < |claims| && citation in ClaimCites(claims[j]);
    var row := Claim(claims[j]);
    assert ClaimOk(claims[j], SummaryIds(SummaryNodes(g)));
    assert (row.summaryId, ClaimNodeId(row.claimId)) in Assignments(claims);
    assert (ClaimNodeId(row.claimId), citation) in CitationPairs(claims);
    assert Reaches(g, row.summaryId, ClaimNodeId(row.claimId), citation);
  }

  // ----- Unknown edge types --------------------------------------------------------

  function PlusEdge(g: SummaryGraph, edge: Edge): SummaryGraph {
    g.(edges := Items(ItemsOf(g.edges) + [Dict(edge)]))
  }

  lemma UnknownEdgeKeepsGraph(g: SummaryGraph, edge: Edge)
    requires !KnownKind(edge.kind) && edge.kind != "" && edge.from != "" && edge.to != ""
    ensures GraphOk(PlusEdge(g, edge)) <==> GraphOk(g)
  {
    var before, after := ItemsOf(g.edges), ItemsOf(g.edges) + [Dict(edge)];
    var n := |before|;
    assert after[..n] == before && after[..n + 1] == after;
    EdgesStep(after, n, SUMMARY_TO_CLAIM);
    EdgesStep(after, n, CLAIM_TO_CITATION);
    EdgesOkStep(after, n, SummaryIds(SummaryNodes(g)), ClaimNodeIds(ClaimNodes(g)), CitationNodeIds(CitationNodes(g)));
  }

  /** An edge of unknown type, if complete, never changes the verdict. */
  lemma UnknownEdgesAreHarmless(g: SummaryGraph, t: Traceability, edge: Edge)
    requires g.edges.Items?
    requires !KnownKind(edge.kind) && edge.kind != "" && edge.from != "" && edge.to != ""
    ensures WellFormed(PlusEdge(g, edge), t) <==> WellFormed(g, t)
  {
    var g' := PlusEdge(g, edge);
    UnknownEdgeKeepsGraph(g, edge);
    assert HeadersAgree(g', t) <==> HeadersAgree(g, t);
    assert ListsPresent(g', t) <==> ListsPresent(g, t);
    assert NodesOk(g') <==> NodesOk(g);
    assert TraceOk(g', t) <==> TraceOk(g, t);
    assert CountsOk(g') <==> CountsOk(g);
  }

  // ----- The partition of claims ---------------------------------------------------

  /** The claims whose nodes say that they belong to a summary. */
  ghost function Assigned(claims: seq<Dict<ClaimNode>>, summaryId: string): set<int> {
    set j | 0 <= j < |claims| && Claim(claims[j]).summaryId == summaryId :: Claim(claims[j]).claimId
  }

  /** Each summary lists exactly the claims assigned to it. */
  ghost predicate Partitioned(g: SummaryGraph) {
    forall i :: 0 <= i < |SummaryNodes(g)| ==>
      SummaryClaims(SummaryNodes(g)[i]) == Assigned(ClaimNodes(g), Summary(SummaryNodes(g)[i]).id)
  }

  ghost predicate ListedBySummary(claim: ClaimNode, summaries: seq<Dict<SummaryNode>>) {
    exists i :: 0 <= i < |summaries| && Summary(summaries[i]).id == claim.summaryId
                && claim.claimId in SummaryClaims(summaries[i])
  }

  /** No claim is missing from the summary it names. */
  ghost predicate NoneMissing(g: SummaryGraph) {
    forall j :: 0 <= j < |ClaimNodes(g)| ==> ListedBySummary(Claim(ClaimNodes(g)[j]), SummaryNodes(g))
  }

  ghost function AssignedTotal(summaries: seq<Dict<SummaryNode>>, claims: seq<Dict<ClaimNode>>): nat {
    if summaries == [] then 0
    else
      AssignedTotal(summaries[..|summaries| - 1], claims)
      + |Assigned(claims, Summary(summaries[|summaries| - 1]).id)|
  }

  lemma AssignedStep(claims: seq<Dict<ClaimNode>>, ids: set<string>, id: string)
    requires claims != [] && ClaimsOk(claims, ids)
    ensures var init, last := claims[..|claims| - 1], Claim(claims[|claims| - 1]);
            && last.claimId !in Assigned(init, id)
            && Assigned(claims, id) == Assigned(init, id) + if last.summaryId == id then {last.claimId} else {}
  {
    var init, last := claims[..|claims| - 1], Claim(claims[|claims| - 1]);
    forall c | c in Assigned(init, id)
      ensures c in Assigned(claims, id) && c != last.claimId
    {
      var j :| 0 <= j < |init| && Claim(init[j]).summaryId == id && Claim(init[j]).claimId == c;
      assert Claim(claims[j]).summaryId == id && Claim(claims[j]).claimId == c;
    }
    assert last.summaryId == id ==> Claim(claims[|claims| - 1]).claimId in Assigned(claims, id);
  }

  lemma {:induction false} NothingAssigned(summaries: seq<Dict<SummaryNode>>)
    ensures AssignedTotal(summaries, []) == 0
  {
    if summaries != [] {
      NothingAssigned(summaries[..|summaries| - 1]);
      assert Assigned([], Summary(summaries[|summaries| - 1]).id) == {};
    }
  }

  /** One more claim adds one, to the one summary it names. */
  lemma {:induction false} OneMoreAssigned(summaries: seq<Dict<SummaryNode>>, claims: seq<Dict<ClaimNode>>,
                                           ids: set<string>)
    requires claims != [] && ClaimsOk(claims, ids) && SummariesOk(summaries)
    ensures AssignedTotal(summaries, claims)
         == AssignedTotal(summaries, claims[..|claims| - 1])
            + if Claim(claims[|claims| - 1]).summaryId in SummaryIds(summaries) then 1 else 0
  {
    if summaries != [] {
      var last := summaries[|summaries| - 1];
      SummariesInit(summaries);
      OneMoreAssigned(summaries[..|summaries| - 1], claims, ids);
      AssignedStep(claims, ids, Summary(last).id);
    }
  }

  lemma {:induction false} AssignedOnce(summaries: seq<Dict<SummaryNode>>, claims: seq<Dict<ClaimNode>>)
    requires SummariesOk(summaries) && ClaimsOk(claims, SummaryIds(summaries))
    ensures AssignedTotal(summaries, claims) == |claims|
  {
    if claims == [] {
      NothingAssigned(summaries);
    } else {
      ClaimsInit(claims, SummaryIds(summaries));
      AssignedOnce(summaries, claims[..|claims| - 1]);
      OneMoreAssigned(summaries, claims, SummaryIds(summaries));
    }
  }

  /** Sets that contain the assigned claims and are no larger in total are them. */
  lemma {:induction false} Squeeze(summaries: seq<Dict<SummaryNode>>, claims: seq<Dict<ClaimNode>>)
    requires forall i :: 0 <= i < |summaries| ==>
               Assigned(claims, Summary(summaries[i]).id) <= SummaryClaims(summaries[i])
    ensures AssignedTotal(summaries, claims) <= ClaimTotal(summaries)
    ensures AssignedTotal(summaries, claims) == ClaimTotal(summaries) ==>
              forall i :: 0 <= i < |summaries| ==>
                SummaryClaims(summaries[i]) == Assigned(claims, Summary(summaries[i]).id)
  {
    if summaries != [] {
      var init, last := summaries[..|summaries| - 1], summaries[|summaries| - 1];
      Squeeze(init, claims);
      var inner, outer := Assigned(claims, Summary(last).id), SummaryClaims(last);
      assert outer == inner + (outer - inner);
      if AssignedTotal(summaries, claims) == ClaimTotal(summaries) {
        assert |outer - inner| == 0;
        forall i | 0 <= i < |summaries|
          ensures SummaryClaims(summaries[i]) == Assigned(claims, Summary(summaries[i]).id)
        {
          assert i < |init| ==> summaries[i] == init[i];
        }
      }
    }
  }

  /** The validator compares only totals, so "summary claim partitions must cover
      each claim exactly once" does not follow from a pass.  It does follow, and
      only then, when in addition no claim is missing from its own summary. */
  lemma PartitionIffNoneMissing(g: SummaryGraph, t: Traceability)
    requires WellFormed(g, t)
    ensures Partitioned(g) <==> NoneMissing(g)
  {
    var summaries, claims := SummaryNodes(g), ClaimNodes(g);
    if Partitioned(g) {
      forall j | 0 <= j < |claims|
        ensures ListedBySummary(Claim(claims[j]), summaries)
      {
        assert ClaimOk(claims[j], SummaryIds(summaries));
        var i := SummaryRowOf(summaries, Claim(claims[j]).summaryId);
        assert Claim(claims[j]).claimId in Assigned(claims, Summary(summaries[i]).id);
      }
    }
    if NoneMissing(g) {
      forall i, c | 0 <= i < |summaries| && c in Assigned(claims, Summary(summaries[i]).id)
        ensures c in SummaryClaims(summaries[i])
      {
        var id := Summary(summaries[i]).id;
        var j :| 0 <= j < |claims| && Claim(claims[j]).summaryId == id && Claim(claims[j]).claimId == c;
        assert ListedBySummary(Claim(claims[j]), summaries);
        var k :| 0 <= k < |summaries| && Summary(summaries[k]).id == id && c in SummaryClaims(summaries[k]);
        assert k == i;
      }
      AssignedOnce(summaries, claims);
      Squeeze(summaries, claims);
    }
  }

  // ----- A pass with swapped assignments ---------------------------------------------

  const SWAPPED_RUN := RunInfo(Number(1), Number(1), Number(1), Number(2), Number(2), Number(0))
  const SWAPPED_GRAPH := SummaryGraph(
    "summary_graph", Dict(SWAPPED_RUN),
    Dict(Nodes(
      Items([Dict(SummaryNode("A", Items([2]), 1, Items([]), 0)), Dict(SummaryNode("B", Items([1]), 1, Items([]), 0))]),
      Items([Dict(ClaimNode(1, "claim:1", "A", Items([]))), Dict(ClaimNode(2, "claim:2", "B", Items([])))]),
      Items([]))),
    Items([Dict(Edge("summary_to_claim", "A", "claim:1")), Dict(Edge("summary_to_claim", "B", "claim:2"))]))
  const SWAPPED_TRACE := Traceability(
    "traceability", Dict(SWAPPED_RUN),
    Items([Dict(SummaryRow("A", Items([2]), Items([]))), Dict(SummaryRow("B", Items([1]), Items([])))]),
    Items([Dict(LineageRow(1, "A", Items([]))), Dict(LineageRow(2, "B", Items([])))]))

  lemma SwappedNodes()
    ensures NodesOk(SWAPPED_GRAPH)
    ensures SummaryIds(SummaryNodes(SWAPPED_GRAPH)) == {"A", "B"}
    ensures ClaimNodeIds(ClaimNodes(SWAPPED_GRAPH)) == {"claim:1", "claim:2"}
    ensures ClaimIds(ClaimNodes(SWAPPED_GRAPH)) == {1, 2}
    ensures SummaryClaims(SummaryNodes(SWAPPED_GRAPH)[0]) == {2} && SummaryClaims(SummaryNodes(SWAPPED_GRAPH)[1]) == {1}
    ensures SummaryCites(SummaryNodes(SWAPPED_GRAPH)[0]) == {} == SummaryCites(SummaryNodes(SWAPPED_GRAPH)[1])
    ensures ClaimCites(ClaimNodes(SWAPPED_GRAPH)[0]) == {} == ClaimCites(ClaimNodes(SWAPPED_GRAPH)[1])
  {
    var summaries, claims := SummaryNodes(SWAPPED_GRAPH), ClaimNodes(SWAPPED_GRAPH);
    assert NonNegative([2]) == {2} && NonNegative([1]) == {1} && NonBlank([]) == {};
    assert ClaimNodeId(1) == "claim:1" && ClaimNodeId(2) == "claim:2";
    assert "A"[0] != "B"[0];
    assert SummaryOk(summaries[0]) && SummaryOk(summaries[1]);
    assert Summary(summaries[0]).id in SummaryIds(summaries) && Summary(summaries[1]).id in SummaryIds(summaries);
    assert ClaimOk(claims[0], {"A", "B"}) && ClaimOk(claims[1], {"A", "B"});
    assert Claim(claims[0]).id in ClaimNodeIds(claims) && Claim(claims[1]).id in ClaimNodeIds(claims);
    assert Claim(claims[0]).claimId in ClaimIds(claims) && Claim(claims[1]).claimId in ClaimIds(claims);
  }

  lemma SwappedEdges()
    ensures GraphOk(SWAPPED_GRAPH)
  {
    SwappedNodes();
    var edges, claims := ItemsOf(SWAPPED_GRAPH.edges), ClaimNodes(SWAPPED_GRAPH);
    assert SUMMARY_TO_CLAIM[0] != CLAIM_TO_CITATION[0];
    var both := {("A", "claim:1"), ("B", "claim:2")};
    assert ClaimNodeId(1) == "claim:1" && ClaimNodeId(2) == "claim:2";
    assert EdgeOf(edges[0]).kind == SUMMARY_TO_CLAIM && EdgeOf(edges[1]).kind == SUMMARY_TO_CLAIM;
    assert Edges(edges, SUMMARY_TO_CLAIM) == both;
    assert Edges(edges, CLAIM_TO_CITATION) == {};
    assert Claim(claims[0]).summaryId == "A" && Claim(claims[1]).summaryId == "B";
    assert Assignments(claims) == both;
    assert CitationPairs(claims) == {};
  }

  lemma SwappedSources()
    ensures var sources := ItemsOf(SWAPPED_TRACE.summaryToSource);
            && (forall i :: 0 <= i < |sources| ==> SourceRowAgrees(sources[i], SummaryNodes(SWAPPED_GRAPH)))
            && SourceIds(sources) == SummaryIds(SummaryNodes(SWAPPED_GRAPH))
  {
    SwappedNodes();
    var sources, summaries := ItemsOf(SWAPPED_TRACE.summaryToSource), SummaryNodes(SWAPPED_GRAPH);
    assert References([]) == {};
    assert DescribesSummary(sources[0].fields, summaries[0]) && DescribesSummary(sources[1].fields, summaries[1]);
    assert SourceRow(sources[0]).summaryId in SourceIds(sources);
    assert SourceRow(sources[1]).summaryId in SourceIds(sources);
  }

  lemma SwappedLineage()
    ensures var lineage := ItemsOf(SWAPPED_TRACE.claimLineage);
            && (forall i :: 0 <= i < |lineage| ==> LineageRowAgrees(lineage[i], ClaimNodes(SWAPPED_GRAPH)))
            && LineageIds(lineage) == ClaimIds(ClaimNodes(SWAPPED_GRAPH))
  {
    SwappedNodes();
    var lineage, claims := ItemsOf(SWAPPED_TRACE.claimLineage), ClaimNodes(SWAPPED_GRAPH);
    assert References([]) == {};
    assert DescribesClaim(lineage[0].fields, claims[0]) && DescribesClaim(lineage[1].fields, claims[1]);
    assert Lineage(lineage[0]).claimId in LineageIds(lineage) && Lineage(lineage[1]).claimId in LineageIds(lineage);
  }

  lemma SwappedCounts()
    ensures CountsOk(SWAPPED_GRAPH)
  {
    SwappedNodes();
    var summaries := SummaryNodes(SWAPPED_GRAPH);
    assert summaries[..1] == [summaries[0]] && summaries[..1][..0] == [];
    assert ClaimTotal(summaries[..1]) == 1;
    assert CitedBySummaries(summaries) == {} == CitedByClaims(ClaimNodes(SWAPPED_GRAPH));
  }

  /** Claim 1 belongs to A and claim 2 to B, each listed by the other summary:
      the validator passes it. */
  lemma SwappedAssignmentsPass()
    ensures WellFormed(SWAPPED_GRAPH, SWAPPED_TRACE) && !Partitioned(SWAPPED_GRAPH)
  {
    SwappedNodes();
    SwappedEdges();
    SwappedSources();
    SwappedLineage();
    SwappedCounts();
    var claims := ClaimNodes(SWAPPED_GRAPH);
    assert Claim(claims[0]).summaryId == "A";
    assert 1 in Assigned(claims, "A");
    var first := SummaryNodes(SWAPPED_GRAPH)[0];
    assert SummaryClaims(first) != Assigned(claims, Summary(first).id);
  }
}
