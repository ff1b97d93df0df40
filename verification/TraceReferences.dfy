/** What a reference to a citation says, and which graphs some traceability
    payload can pass with. */
module TraceReferences {
  import opened Basics
  import opened TraceSections
  import opened TraceValidator

  // ----- Numerals ------------------------------------------------------------------

  predicate IsDigit(c: char) {
    '0' <= c <= '9'
  }

  /** The decimal numeral of n: digits only, no leading zero, of value n. */
  predicate Spells(s: string, n: nat) {
    && s != ""
    && (forall i :: 0 <= i < |s| ==> IsDigit(s[i]))
    && (|s| > 1 ==> s[0] != '0')
    && Numeral(s) == n
  }

  lemma {:induction false} DecimalSpells(n: nat)
    ensures Spells(Decimal(n), n)
    ensures n > 0 ==> Decimal(n)[0] != '0'
  {
    DecimalRoundTrip(n);
    if n >= 10 {
      DecimalSpells(n / 10);
    }
  }

  lemma {:induction false} NumeralIsPositive(s: string)
    requires s != "" && s[0] != '0' && forall i :: 0 <= i < |s| ==> IsDigit(s[i])
    ensures Numeral(s) > 0
  {
    if |s| > 1 {
      NumeralIsPositive(s[..|s| - 1]);
    } else {
      assert s[..0] == "";
    }
  }

  lemma LastDigit(ten: int, digit: int, ten': int, digit': int)
    requires 0 <= digit < 10 && 0 <= digit' < 10 && 10 * ten + digit == 10 * ten' + digit'
    ensures ten == ten' && digit == digit'
  {
  }

  /** A number has one numeral. */
  lemma {:induction false} SpellsOnce(s: string, t: string, n: nat)
    requires Spells(s, n) && Spells(t, n)
    ensures s == t
  {
    var s', t' := s[..|s| - 1], t[..|t| - 1];
    LastDigit(Numeral(s'), s[|s| - 1] as int - '0' as int, Numeral(t'), t[|t| - 1] as int - '0' as int);
    if s' != "" {
      NumeralIsPositive(s');
    }
    if t' != "" {
      NumeralIsPositive(t');
    }
    if s' != "" && t' != "" {
      SpellsOnce(s', t', Numeral(s'));
    }
    assert s == s' + [s[|s| - 1]] && t == t' + [t[|t| - 1]];
  }

  // ----- References ------------------------------------------------------------------

  const CITATION := "citation:"

  /** The id of the citation node with this number. */
  predicate NodeOf(id: string, n: int) {
    n >= 0 && CITATION <= id && Spells(id[|CITATION|..], n)
  }

  lemma NodeIdsAreNumerals(n: int)
    ensures n >= 0 ==> NodeOf(CitationNodeId(n), n)
    ensures n < 0 ==> CitationNodeId(n) == ""
    ensures n >= 0 ==> "claim:" <= ClaimNodeId(n) && Spells(ClaimNodeId(n)[|"claim:"|..], n)
    ensures n < 0 ==> ClaimNodeId(n) == ""
  {
    if n >= 0 {
      DecimalSpells(n);
      assert CitationNodeId(n)[|CITATION|..] == Decimal(n);
      assert ClaimNodeId(n)[|"claim:"|..] == Decimal(n);
    }
  }

  /** A reference by integer or by a text for one is the node of that number; a
      text that starts like a node id is itself; everything else is none. */
  lemma ReferenceReads(d: Dict<Scalar>)
    ensures d.NotDict? || d.fields.Missing? ==> Reference(d) == ""
    ensures d.Dict? && d.fields.Number? ==>
              if d.fields.value >= 0 then NodeOf(Reference(d), d.fields.value) else Reference(d) == ""
    ensures d.Dict? && d.fields.Text? && CITATION <= d.fields.text ==> Reference(d) == d.fields.text
    ensures d.Dict? && d.fields.Text? && !(CITATION <= d.fields.text) ==>
              match d.fields.asInt
              case None => Reference(d) == ""
              case Some(n) => if n >= 0 then NodeOf(Reference(d), n) else Reference(d) == ""
  {
    if d.Dict? && d.fields.Number? {
      NodeIdsAreNumerals(d.fields.value);
    } else if d.Dict? && d.fields.Text? && d.fields.asInt.Some? {
      NodeIdsAreNumerals(d.fields.asInt.value);
    }
  }

  /** An entry that names the citation of this number: as an integer, as a text
      that reads as it, or by its node id. */
  predicate Cites(d: Dict<Scalar>, n: int) {
    && d.Dict?
    && match d.fields
       case Missing => false
       case Number(value) => value == n
       case Text(text, asInt) => if CITATION <= text then NodeOf(text, n) else asInt == Some(n)
  }

  lemma CitesItsNode(d: Dict<Scalar>, node: Dict<CitationNode>)
    requires CitationOk(node) && Cites(d, Citation(node).citationId)
    ensures Reference(d) == Citation(node).id != ""
  {
    var n := Citation(node).citationId;
    ReferenceReads(d);
    NodeIdsAreNumerals(n);
    var id, told := Citation(node).id, Reference(d);
    SpellsOnce(id[|CITATION|..], told[|CITATION|..], n);
    assert id == CITATION + id[|CITATION|..] && told == CITATION + told[|CITATION|..];
  }

  ghost predicate NamesOneOf(d: Dict<Scalar>, nodes: seq<Dict<CitationNode>>, named: set<int>) {
    exists j :: j in named && 0 <= j < |nodes| && Cites(d, Citation(nodes[j]).citationId)
  }

  ghost predicate IsNamed(node: Dict<CitationNode>, entries: seq<Dict<Scalar>>) {
    exists i :: 0 <= i < |entries| && Cites(entries[i], Citation(node).citationId)
  }

  ghost function IdsOf(nodes: seq<Dict<CitationNode>>, named: set<int>): set<string> {
    set j | j in named && 0 <= j < |nodes| :: Citation(nodes[j]).id
  }

  ghost predicate Sound(nodes: seq<Dict<CitationNode>>, named: set<int>) {
    forall j :: j in named ==> 0 <= j < |nodes| && CitationOk(nodes[j])
  }

  lemma EntryRefers(d: Dict<Scalar>, nodes: seq<Dict<CitationNode>>, named: set<int>)
    requires Sound(nodes, named) && NamesOneOf(d, nodes, named)
    ensures d.Dict? && Reference(d) != "" && Reference(d) in IdsOf(nodes, named)
  {
    var j :| j in named && 0 <= j < |nodes| && Cites(d, Citation(nodes[j]).citationId);
    CitesItsNode(d, nodes[j]);
    assert Citation(nodes[j]).id in IdsOf(nodes, named);
  }

  lemma NodeIsReferred(entries: seq<Dict<Scalar>>, node: Dict<CitationNode>)
    requires CitationOk(node) && IsNamed(node, entries)
    ensures Citation(node).id in References(entries)
  {
    var i :| 0 <= i < |entries| && Cites(entries[i], Citation(node).citationId);
    CitesItsNode(entries[i], node);
    assert Reference(entries[i]) in References(entries);
  }

  lemma OnlyNodesNamed(entries: seq<Dict<Scalar>>, nodes: seq<Dict<CitationNode>>, named: set<int>)
    requires Sound(nodes, named) && forall i :: 0 <= i < |entries| ==> NamesOneOf(entries[i], nodes, named)
    ensures ReferencesOk(entries) && References(entries) <= IdsOf(nodes, named)
  {
    forall i | 0 <= i < |entries|
      ensures entries[i].Dict? && Reference(entries[i]) != "" && Reference(entries[i]) in IdsOf(nodes, named)
    {
      EntryRefers(entries[i], nodes, named);
    }
  }

  lemma AllNodesNamed(entries: seq<Dict<Scalar>>, nodes: seq<Dict<CitationNode>>, named: set<int>)
    requires Sound(nodes, named) && forall j :: j in named ==> IsNamed(nodes[j], entries)
    ensures IdsOf(nodes, named) <= References(entries)
  {
    forall id | id in IdsOf(nodes, named)
      ensures id in References(entries)
    {
      var j :| j in named && 0 <= j < |nodes| && Citation(nodes[j]).id == id;
      NodeIsReferred(entries, nodes[j]);
    }
  }

  /** Entries that name some sound citation nodes refer to exactly the ids of
      those nodes, in whatever way they name them. */
  lemma ReferencesAreTheNodesNamed(entries: seq<Dict<Scalar>>, nodes: seq<Dict<CitationNode>>, named: set<int>)
    requires Sound(nodes, named)
    requires forall j :: j in named ==> IsNamed(nodes[j], entries)
    requires forall i :: 0 <= i < |entries| ==> NamesOneOf(entries[i], nodes, named)
    ensures ReferencesOk(entries) && References(entries) == IdsOf(nodes, named)
  {
    OnlyNodesNamed(entries, nodes, named);
    AllNodesNamed(entries, nodes, named);
  }

  // ----- Counts ------------------------------------------------------------------------

  predicate Reads(value: Scalar, n: int) {
    value == Number(n) || (value.Text? && value.asInt == Some(n))
  }

  /** A run count that is missing or no number never passes. */
  lemma CountsAreRead(g: SummaryGraph)
    ensures CountsOk(g) <==>
            && Reads(FieldsOr(g.run, NO_RUN).archivedClaims, |ClaimNodes(g)|)
            && (exists n :: n >= |ClaimNodes(g)| && Reads(FieldsOr(g.run, NO_RUN).candidateClaims, n))
            && ClaimTotal(SummaryNodes(g)) == |ClaimNodes(g)|
            && CitedBySummaries(SummaryNodes(g)) == CitationNodeIds(CitationNodes(g)) == CitedByClaims(ClaimNodes(g))
  {
    var run := FieldsOr(g.run, NO_RUN);
    var n := ToInt(run.candidateClaims);
    assert n >= 0 ==> Reads(run.candidateClaims, n);
  }

  // ----- Graphs that pass with some trace -------------------------------------------------

  /** The part of well-formedness that the summary graph decides alone. */
  ghost predicate GraphSideOk(g: SummaryGraph) {
    && g.artifactType == "summary_graph" && g.run.Dict?
    && g.nodes.Dict? && g.nodes.fields.summaries.Items? && g.nodes.fields.claims.Items?
    && g.nodes.fields.citations.Items? && g.edges.Items?
    && NodesOk(g) && GraphOk(g) && CountsOk(g)
  }

  /** The numbers of those nodes that are cited. */
  ghost function NumbersCited(nodes: seq<Dict<CitationNode>>, cites: set<string>): seq<Dict<Scalar>> {
    if nodes == [] then []
    else
      var last := Citation(nodes[|nodes| - 1]);
      NumbersCited(nodes[..|nodes| - 1], cites) + if last.id in cites then [Dict(Number(last.citationId))] else []
  }

  lemma {:induction false} NumbersCitedRefer(nodes: seq<Dict<CitationNode>>, cites: set<string>)
    requires CitationsOk(nodes) && cites <= CitationNodeIds(nodes)
    ensures ReferencesOk(NumbersCited(nodes, cites))
    ensures References(NumbersCited(nodes, cites)) == cites
  {
    var entries := NumbersCited(nodes, cites);
    var named := set j | 0 <= j < |nodes| && Citation(nodes[j]).id in cites;
    forall i | 0 <= i < |entries|
      ensures NamesOneOf(entries[i], nodes, named)
    {
      var j := EntryNames(nodes, cites, i);
      assert j in named && Cites(entries[i], Citation(nodes[j]).citationId);
    }
    forall j | j in named
      ensures CitationOk(nodes[j]) && IsNamed(nodes[j], entries)
    {
      var i := NodeHasEntry(nodes, cites, j);
      assert Cites(entries[i], Citation(nodes[j]).citationId);
    }
    ReferencesAreTheNodesNamed(entries, nodes, named);
    CitedNodesHaveTheIds(nodes, cites, named);
  }

  lemma CitedNodesHaveTheIds(nodes: seq<Dict<CitationNode>>, cites: set<string>, named: set<int>)
    requires cites <= CitationNodeIds(nodes)
    requires forall j :: j in named <==> 0 <= j < |nodes| && Citation(nodes[j]).id in cites
    ensures IdsOf(nodes, named) == cites
  {
    forall id | id in cites
      ensures id in IdsOf(nodes, named)
    {
      assert id in CitationNodeIds(nodes);
      var j :| 0 <= j < |nodes| && Citation(nodes[j]).id == id;
      assert j in named;
    }
  }

  lemma {:induction false} EntryNames(nodes: seq<Dict<CitationNode>>, cites: set<string>, i: nat) returns (j: nat)
    requires i < |NumbersCited(nodes, cites)|
    ensures j < |nodes| && Citation(nodes[j]).id in cites
    ensures NumbersCited(nodes, cites)[i] == Dict(Number(Citation(nodes[j]).citationId))
  {
    var init := nodes[..|nodes| - 1];
    if i < |NumbersCited(init, cites)| {
      j := EntryNames(init, cites, i);
    } else {
      j := |nodes| - 1;
    }
  }

  lemma {:induction false} NodeHasEntry(nodes: seq<Dict<CitationNode>>, cites: set<string>, j: nat) returns (i: nat)
    requires j < |nodes| && Citation(nodes[j]).id in cites
    ensures i < |NumbersCited(nodes, cites)|
    ensures NumbersCited(nodes, cites)[i] == Dict(Number(Citation(nodes[j]).citationId))
  {
    var init := nodes[..|nodes| - 1];
    if j < |init| {
      i := NodeHasEntry(init, cites, j);
    } else {
      i := |NumbersCited(init, cites)|;
    }
  }

  /** One row for each summary node, with its claims and citations by number. */
  ghost function SourcesFor(summaries: seq<Dict<SummaryNode>>, nodes: seq<Dict<CitationNode>>)
    : (rows: seq<Dict<SummaryRow>>)
    ensures |rows| == |summaries|
  {
    if summaries == [] then []
    else
      var last := summaries[|summaries| - 1];
      SourcesFor(summaries[..|summaries| - 1], nodes)
      + [Dict(SummaryRow(Summary(last).id, Summary(last).claimIds, Items(NumbersCited(nodes, SummaryCites(last)))))]
  }

  ghost function LineageFor(claims: seq<Dict<ClaimNode>>, nodes: seq<Dict<CitationNode>>)
    : (rows: seq<Dict<LineageRow>>)
    ensures |rows| == |claims|
  {
    if claims == [] then []
    else
      var last := claims[|claims| - 1];
      LineageFor(claims[..|claims| - 1], nodes)
      + [Dict(LineageRow(Claim(last).claimId, Claim(last).summaryId, Items(NumbersCited(nodes, ClaimCites(last)))))]
  }

  ghost function TraceFor(g: SummaryGraph): Traceability {
    Traceability("traceability", g.run, Items(SourcesFor(SummaryNodes(g), CitationNodes(g))),
                 Items(LineageFor(ClaimNodes(g), CitationNodes(g))))
  }

  lemma {:induction false} SourceForAt(summaries: seq<Dict<SummaryNode>>, nodes: seq<Dict<CitationNode>>, j: nat)
    requires j < |summaries|
    ensures var node := summaries[j];
            SourcesFor(summaries, nodes)[j]
            == Dict(SummaryRow(Summary(node).id, Summary(node).claimIds,
                               Items(NumbersCited(nodes, SummaryCites(node)))))
  {
    if |summaries| > 1 {
      SourceForAt(summaries[..|summaries| - 1], nodes, if j < |summaries| - 1 then j else 0);
    }
  }

  lemma {:induction false} LineageForAt(claims: seq<Dict<ClaimNode>>, nodes: seq<Dict<CitationNode>>, j: nat)
    requires j < |claims|
    ensures var node := claims[j];
            LineageFor(claims, nodes)[j]
            == Dict(LineageRow(Claim(node).claimId, Claim(node).summaryId,
                               Items(NumbersCited(nodes, ClaimCites(node)))))
  {
    if |claims| > 1 {
      LineageForAt(claims[..|claims| - 1], nodes, if j < |claims| - 1 then j else 0);
    }
  }

  lemma SourceRowForAgrees(g: SummaryGraph, i: nat)
    requires NodesOk(g) && CountsOk(g) && i < |SummaryNodes(g)|
    ensures var rows := SourcesFor(SummaryNodes(g), CitationNodes(g));
            && |rows| == |SummaryNodes(g)| && SourceRowAgrees(rows[i], SummaryNodes(g))
            && SourceRow(rows[i]).summaryId == Summary(SummaryNodes(g)[i]).id != ""
  {
    var summaries, nodes := SummaryNodes(g), CitationNodes(g);
    SourceForAt(summaries, nodes, i);
    assert SummaryOk(summaries[i]);
    assert SummaryCites(summaries[i]) <= CitedBySummaries(summaries);
    NumbersCitedRefer(nodes, SummaryCites(summaries[i]));
    assert DescribesSummary(SourcesFor(summaries, nodes)[i].fields, summaries[i]);
  }

  lemma LineageRowForAgrees(g: SummaryGraph, i: nat)
    requires NodesOk(g) && CountsOk(g) && i < |ClaimNodes(g)|
    ensures var rows := LineageFor(ClaimNodes(g), CitationNodes(g));
            && |rows| == |ClaimNodes(g)| && LineageRowAgrees(rows[i], ClaimNodes(g))
            && Lineage(rows[i]).claimId == Claim(ClaimNodes(g)[i]).claimId >= 0
  {
    var claims, nodes := ClaimNodes(g), CitationNodes(g);
    LineageForAt(claims, nodes, i);
    assert ClaimOk(claims[i], SummaryIds(SummaryNodes(g)));
    assert ClaimCites(claims[i]) <= CitedByClaims(claims);
    NumbersCitedRefer(nodes, ClaimCites(claims[i]));
    assert DescribesClaim(LineageFor(claims, nodes)[i].fields, claims[i]);
  }

  lemma SameSourceIds(rows: seq<Dict<SummaryRow>>, summaries: seq<Dict<SummaryNode>>)
    requires |rows| == |summaries|
    requires forall i :: 0 <= i < |rows| ==> SourceRow(rows[i]).summaryId == Summary(summaries[i]).id != ""
    ensures SourceIds(rows) == SummaryIds(summaries)
  {
    forall id | id in SummaryIds(summaries)
      ensures id in SourceIds(rows)
    {
      var i :| 0 <= i < |summaries| && Summary(summaries[i]).id == id;
      assert SourceRow(rows[i]).summaryId == id;
    }
  }

  lemma SameLineageIds(rows: seq<Dict<LineageRow>>, claims: seq<Dict<ClaimNode>>)
    requires |rows| == |claims|
    requires forall i :: 0 <= i < |rows| ==> Lineage(rows[i]).claimId == Claim(claims[i]).claimId >= 0
    ensures LineageIds(rows) == ClaimIds(claims)
  {
    forall c | c in ClaimIds(claims)
      ensures c in LineageIds(rows)
    {
      var i :| 0 <= i < |claims| && Claim(claims[i]).claimId == c;
      assert Lineage(rows[i]).claimId == c;
    }
  }

  lemma TraceForAgrees(g: SummaryGraph)
    requires NodesOk(g) && CountsOk(g)
    ensures TraceOk(g, TraceFor(g))
  {
    var summaries, claims, nodes := SummaryNodes(g), ClaimNodes(g), CitationNodes(g);
    forall i | 0 <= i < |summaries|
      ensures SourceRowAgrees(SourcesFor(summaries, nodes)[i], summaries)
      ensures SourceRow(SourcesFor(summaries, nodes)[i]).summaryId == Summary(summaries[i]).id != ""
    {
      SourceRowForAgrees(g, i);
    }
    forall i | 0 <= i < |claims|
      ensures LineageRowAgrees(LineageFor(claims, nodes)[i], claims)
      ensures Lineage(LineageFor(claims, nodes)[i]).claimId == Claim(claims[i]).claimId >= 0
    {
      LineageRowForAgrees(g, i);
    }
    SameSourceIds(SourcesFor(summaries, nodes), summaries);
    SameLineageIds(LineageFor(claims, nodes), claims);
  }

  lemma PassNeedsGraphSide(g: SummaryGraph, t: Traceability)
    requires WellFormed(g, t)
    ensures GraphSideOk(g)
  {
  }

  /** A graph passes with some trace exactly when its own side is sound; and then
      it passes with the trace that cites every citation by its number. */
  lemma SoundGraphsHaveATrace(g: SummaryGraph)
    ensures (exists t :: WellFormed(g, t)) <==> GraphSideOk(g)
    ensures GraphSideOk(g) ==> WellFormed(g, TraceFor(g))
  {
    if GraphSideOk(g) {
      TraceForAgrees(g);
      assert HeadersAgree(g, TraceFor(g)) && ListsPresent(g, TraceFor(g));
      assert WellFormed(g, TraceFor(g));
    }
    forall t | WellFormed(g, t)
      ensures GraphSideOk(g)
    {
      PassNeedsGraphSide(g, t);
    }
  }

  // ----- A pass with citations -------------------------------------------------------------

  /** Claim 1 of summary A cites citation 7, by number in one row and by a text in
      the other. */
  const CITING_RUN := RunInfo(Number(1), Number(1), Number(1), Number(1), Number(1), Number(0))
  const CITING_GRAPH := SummaryGraph(
    "summary_graph", Dict(CITING_RUN),
    Dict(Nodes(
      Items([Dict(SummaryNode("A", Items([1]), 1, Items(["citation:7"]), 1))]),
      Items([Dict(ClaimNode(1, "claim:1", "A", Items(["citation:7"])))]),
      Items([Dict(CitationNode(7, "citation:7"))]))),
    Items([Dict(Edge("summary_to_claim", "A", "claim:1")), Dict(Edge("claim_to_citation", "claim:1", "citation:7"))]))
  const CITING_TRACE := Traceability(
    "traceability", Dict(CITING_RUN),
    Items([Dict(SummaryRow("A", Items([1]), Items([Dict(Number(7))])))]),
    Items([Dict(LineageRow(1, "A", Items([Dict(Text("7", Some(7)))])))]))

  lemma CitingNodes()
    ensures NodesOk(CITING_GRAPH)
    ensures SummaryIds(SummaryNodes(CITING_GRAPH)) == {"A"} && ClaimIds(ClaimNodes(CITING_GRAPH)) == {1}
    ensures ClaimNodeIds(ClaimNodes(CITING_GRAPH)) == {"claim:1"}
    ensures CitationNodeIds(CitationNodes(CITING_GRAPH)) == {"citation:7"}
    ensures SummaryClaims(SummaryNodes(CITING_GRAPH)[0]) == {1}
    ensures SummaryCites(SummaryNodes(CITING_GRAPH)[0]) == {"citation:7"} == ClaimCites(ClaimNodes(CITING_GRAPH)[0])
  {
    var summaries, claims, nodes := SummaryNodes(CITING_GRAPH), ClaimNodes(CITING_GRAPH), CitationNodes(CITING_GRAPH);
    assert NonNegative([1]) == {1} && NonBlank(["citation:7"]) == {"citation:7"};
    assert ClaimNodeId(1) == "claim:1" && CitationNodeId(7) == "citation:7";
    assert SummaryOk(summaries[0]) && Summary(summaries[0]).id in SummaryIds(summaries);
    assert ClaimOk(claims[0], {"A"}) && Claim(claims[0]).id in ClaimNodeIds(claims);
    assert Claim(claims[0]).claimId in ClaimIds(claims);
    assert CitationOk(nodes[0]) && Citation(nodes[0]).id in CitationNodeIds(nodes);
  }

  lemma CitingEdges()
    ensures GraphOk(CITING_GRAPH)
  {
    CitingNodes();
    var edges, claims := ItemsOf(CITING_GRAPH.edges), ClaimNodes(CITING_GRAPH);
    assert ClaimNodeId(1) == "claim:1";
    assert SUMMARY_TO_CLAIM[0] != CLAIM_TO_CITATION[0];
    assert EdgeOf(edges[0]).kind == SUMMARY_TO_CLAIM && EdgeOf(edges[1]).kind == CLAIM_TO_CITATION;
    assert Edges(edges, SUMMARY_TO_CLAIM) == {("A", "claim:1")} == Assignments(claims);
    assert Edges(edges, CLAIM_TO_CITATION) == {("claim:1", "citation:7")};
    assert "citation:7" in ClaimCites(claims[0]) && CitationPairs(claims) == {("claim:1", "citation:7")};
  }

  lemma CitingReferences()
    ensures var source, lineage := [Dict(Number(7))], [Dict(Text("7", Some(7)))];
            && ReferencesOk(source) && References(source) == {"citation:7"}
            && ReferencesOk(lineage) && References(lineage) == {"citation:7"}
  {
    var source, lineage := [Dict(Number(7))], [Dict(Text("7", Some(7)))];
    assert CitationNodeId(7) == "citation:7";
    assert !(CITATION <= "7");
    assert Reference(source[0]) == "citation:7" && Reference(lineage[0]) == "citation:7";
  }

  lemma CitingRows()
    ensures TraceOk(CITING_GRAPH, CITING_TRACE)
  {
    CitingNodes();
    CitingReferences();
    var sources, lineage := ItemsOf(CITING_TRACE.summaryToSource), ItemsOf(CITING_TRACE.claimLineage);
    var summaries, claims := SummaryNodes(CITING_GRAPH), ClaimNodes(CITING_GRAPH);
    assert NonNegative([1]) == {1};
    assert DescribesSummary(sources[0].fields, summaries[0]) && DescribesClaim(lineage[0].fields, claims[0]);
    assert SourceRow(sources[0]).summaryId in SourceIds(sources);
    assert Lineage(lineage[0]).claimId in LineageIds(lineage);
  }

  lemma CitingPasses()
    ensures WellFormed(CITING_GRAPH, CITING_TRACE)
  {
    CitingNodes();
    CitingEdges();
    CitingRows();
    var summaries, claims := SummaryNodes(CITING_GRAPH), ClaimNodes(CITING_GRAPH);
    assert summaries[..0] == [];
    assert "citation:7" in SummaryCites(summaries[0]) && "citation:7" in ClaimCites(claims[0]);
    assert CitedBySummaries(summaries) == {"citation:7"} == CitedByClaims(claims);
  }
}
