/** The rules of the validator in terms of the payloads' own fields: which values
    are named where, with none of the validator's sets, dicts or readings. */
module TraceRules {
  import opened Basics
  import opened TraceSections
  import opened TraceValidator
  import opened TraceReferences

  // ----- Nodes --------------------------------------------------------------------

  ghost predicate HasSummary(g: SummaryGraph, id: string) {
    id != "" && exists i :: 0 <= i < |SummaryNodes(g)| && SummaryNodes(g)[i].Dict? && SummaryNodes(g)[i].fields.id == id
  }

  ghost predicate HasClaim(g: SummaryGraph, id: string) {
    id != "" && exists i :: 0 <= i < |ClaimNodes(g)| && ClaimNodes(g)[i].Dict? && ClaimNodes(g)[i].fields.id == id
  }

  ghost predicate HasCitation(g: SummaryGraph, id: string) {
    id != ""
    && exists i :: 0 <= i < |CitationNodes(g)| && CitationNodes(g)[i].Dict? && CitationNodes(g)[i].fields.id == id
  }

  /** The claim numbers in a list: the integers from 0 on, each once. */
  function NumbersIn(list: List<int>): set<int> {
    if list.Items? then set n | n in list.items && n >= 0 else {}
  }

  function TextsIn(list: List<string>): set<string> {
    if list.Items? then set x | x in list.items && x != "" else {}
  }

  ghost predicate SummaryRule(d: Dict<SummaryNode>) {
    && d.Dict? && d.fields.id != "" && d.fields.claimIds.Items? && d.fields.citationIds.Items?
    && d.fields.claimCount == |NumbersIn(d.fields.claimIds)|
    && d.fields.citationCount == |TextsIn(d.fields.citationIds)|
  }

  predicate ClaimNodeOf(id: string, n: int) {
    n >= 0 && "claim:" <= id && Spells(id[|"claim:"|..], n)
  }

  ghost predicate ClaimRule(g: SummaryGraph, d: Dict<ClaimNode>) {
    && d.Dict? && ClaimNodeOf(d.fields.id, d.fields.claimId) && HasSummary(g, d.fields.summaryId)
    && d.fields.citationIds.Items?
  }

  ghost predicate CitationRule(d: Dict<CitationNode>) {
    d.Dict? && NodeOf(d.fields.id, d.fields.citationId)
  }

  /** Sound nodes: ids as they should be, counts that count, and no id or number
      twice. */
  ghost predicate NodeRules(g: SummaryGraph) {
    var summaries, claims, citations := SummaryNodes(g), ClaimNodes(g), CitationNodes(g);
    && (forall i :: 0 <= i < |summaries| ==> SummaryRule(summaries[i]))
    && (forall i :: 0 <= i < |claims| ==> ClaimRule(g, claims[i]))
    && (forall i :: 0 <= i < |citations| ==> CitationRule(citations[i]))
    && (forall i, j :: 0 <= i < j < |summaries| ==> summaries[i].fields.id != summaries[j].fields.id)
    && (forall i, j :: 0 <= i < j < |claims| ==> claims[i].fields.claimId != claims[j].fields.claimId)
    && (forall i, j :: 0 <= i < j < |citations| ==> citations[i].fields.citationId != citations[j].fields.citationId)
  }

  lemma PrefixedOnce(prefix: string, id: string, n: nat)
    ensures prefix <= id && Spells(id[|prefix|..], n) <==> id == prefix + Decimal(n)
  {
    DecimalSpells(n);
    if prefix <= id && Spells(id[|prefix|..], n) {
      SpellsOnce(id[|prefix|..], Decimal(n), n);
      assert id == prefix + id[|prefix|..];
    }
    if id == prefix + Decimal(n) {
      assert id[|prefix|..] == Decimal(n);
    }
  }

  lemma NodeIdsAreTold(id: string, n: int)
    ensures n >= 0 ==> (ClaimNodeOf(id, n) <==> id == ClaimNodeId(n))
    ensures n >= 0 ==> (NodeOf(id, n) <==> id == CitationNodeId(n))
  {
    if n >= 0 {
      PrefixedOnce("claim:", id, n);
      PrefixedOnce(CITATION, id, n);
    }
  }

  lemma SummaryRuleIff(d: Dict<SummaryNode>)
    ensures SummaryOk(d) <==> SummaryRule(d)
  {
    if d.Dict? {
      assert SummaryClaims(d) == NumbersIn(d.fields.claimIds);
      assert SummaryCites(d) == TextsIn(d.fields.citationIds);
    }
  }

  lemma KnownIds(g: SummaryGraph, id: string)
    ensures HasSummary(g, id) <==> id in SummaryIds(SummaryNodes(g))
    ensures HasClaim(g, id) <==> id in ClaimNodeIds(ClaimNodes(g))
    ensures HasCitation(g, id) <==> id in CitationNodeIds(CitationNodes(g))
  {
  }

  lemma ClaimRuleIff(g: SummaryGraph, d: Dict<ClaimNode>)
    ensures ClaimOk(d, SummaryIds(SummaryNodes(g))) <==> ClaimRule(g, d)
  {
    if d.Dict? {
      NodeIdsAreTold(d.fields.id, d.fields.claimId);
      KnownIds(g, d.fields.summaryId);
    }
  }

  lemma CitationRuleIff(d: Dict<CitationNode>)
    ensures CitationOk(d) <==> CitationRule(d)
  {
    if d.Dict? {
      NodeIdsAreTold(d.fields.id, d.fields.citationId);
    }
  }

  lemma NodeRulesIff(g: SummaryGraph)
    ensures NodesOk(g) <==> NodeRules(g)
  {
    var summaries, claims, citations := SummaryNodes(g), ClaimNodes(g), CitationNodes(g);
    forall i | 0 <= i < |summaries|
      ensures SummaryOk(summaries[i]) <==> SummaryRule(summaries[i])
    {
      SummaryRuleIff(summaries[i]);
    }
    forall i | 0 <= i < |claims|
      ensures ClaimOk(claims[i], SummaryIds(summaries)) <==> ClaimRule(g, claims[i])
    {
      ClaimRuleIff(g, claims[i]);
    }
    forall i | 0 <= i < |citations|
      ensures CitationOk(citations[i]) <==> CitationRule(citations[i])
    {
      CitationRuleIff(citations[i]);
    }
  }

  // ----- Edges --------------------------------------------------------------------------

  ghost predicate HasEdge(g: SummaryGraph, kind: string, from: string, to: string) {
    exists k :: 0 <= k < |ItemsOf(g.edges)| && ItemsOf(g.edges)[k] == Dict(Edge(kind, from, to))
  }

  ghost predicate EdgeRule(g: SummaryGraph, d: Dict<Edge>) {
    && d.Dict? && d.fields.kind != "" && d.fields.from != "" && d.fields.to != ""
    && (d.fields.kind == "summary_to_claim" ==> HasSummary(g, d.fields.from) && HasClaim(g, d.fields.to))
    && (d.fields.kind == "claim_to_citation" ==> HasClaim(g, d.fields.from) && HasCitation(g, d.fields.to))
  }

  ghost predicate Assigns(g: SummaryGraph, summary: string, claim: string) {
    exists i :: 0 <= i < |ClaimNodes(g)| && ClaimNodes(g)[i].Dict?
                && ClaimNodes(g)[i].fields.summaryId == summary && ClaimNodes(g)[i].fields.id == claim
  }

  ghost predicate CitesFrom(g: SummaryGraph, claim: string, citation: string) {
    exists i :: 0 <= i < |ClaimNodes(g)| && ClaimNodes(g)[i].Dict?
                && ClaimNodes(g)[i].fields.id == claim && citation in TextsIn(ClaimNodes(g)[i].fields.citationIds)
  }

  /** Complete edges between known nodes, which are exactly the assignments and the
      citations that the claim nodes state. */
  ghost predicate EdgeRules(g: SummaryGraph) {
    && (forall k :: 0 <= k < |ItemsOf(g.edges)| ==> EdgeRule(g, ItemsOf(g.edges)[k]))
    && (forall from, to :: HasEdge(g, "summary_to_claim", from, to) <==> Assigns(g, from, to))
    && (forall from, to :: HasEdge(g, "claim_to_citation", from, to) <==> CitesFrom(g, from, to))
  }

  lemma EdgeRuleIff(g: SummaryGraph, d: Dict<Edge>)
    ensures EdgeOk(d, SummaryIds(SummaryNodes(g)), ClaimNodeIds(ClaimNodes(g)), CitationNodeIds(CitationNodes(g)))
       <==> EdgeRule(g, d)
  {
    if d.Dict? {
      KnownIds(g, d.fields.from);
      KnownIds(g, d.fields.to);
    }
  }

  lemma HasEdgeIff(g: SummaryGraph, kind: string, from: string, to: string)
    requires kind != ""
    ensures HasEdge(g, kind, from, to) <==> (from, to) in Edges(ItemsOf(g.edges), kind)
  {
    var rows := ItemsOf(g.edges);
    if (from, to) in Edges(rows, kind) {
      var k :| 0 <= k < |rows| && EdgeOf(rows[k]).kind == kind
               && (from, to) == (EdgeOf(rows[k]).from, EdgeOf(rows[k]).to);
      assert rows[k] == Dict(Edge(kind, from, to));
    }
    if k :| 0 <= k < |rows| && rows[k] == Dict(Edge(kind, from, to)) {
      assert EdgeOf(rows[k]).kind == kind;
    }
  }

  lemma AssignsIff(g: SummaryGraph, from: string, to: string)
    requires NodesOk(g)
    ensures Assigns(g, from, to) <==> (from, to) in Assignments(ClaimNodes(g))
  {
    var claims := ClaimNodes(g);
    if (from, to) in Assignments(claims) {
      var i :| 0 <= i < |claims| && (from, to) == (Claim(claims[i]).summaryId, ClaimNodeId(Claim(claims[i]).claimId));
      assert ClaimOk(claims[i], SummaryIds(SummaryNodes(g)));
    }
    if Assigns(g, from, to) {
      var i :| 0 <= i < |claims| && claims[i].Dict? && claims[i].fields.summaryId == from && claims[i].fields.id == to;
      assert ClaimOk(claims[i], SummaryIds(SummaryNodes(g)));
      assert (Claim(claims[i]).summaryId, ClaimNodeId(Claim(claims[i]).claimId)) in Assignments(claims);
    }
  }

  lemma CitesAre(d: Dict<ClaimNode>)
    requires d.Dict?
    ensures ClaimCites(d) == TextsIn(d.fields.citationIds)
  {
  }

  lemma CitesFromIff(g: SummaryGraph, from: string, to: string)
    requires NodesOk(g)
    ensures CitesFrom(g, from, to) <==> (from, to) in CitationPairs(ClaimNodes(g))
  {
    var claims := ClaimNodes(g);
    if (from, to) in CitationPairs(claims) {
      var i, x :| 0 <= i < |claims| && x in ClaimCites(claims[i])
                  && (from, to) == (ClaimNodeId(Claim(claims[i]).claimId), x);
      assert ClaimOk(claims[i], SummaryIds(SummaryNodes(g)));
      CitesAre(claims[i]);
    }
    if CitesFrom(g, from, to) {
      var i :| 0 <= i < |claims| && claims[i].Dict? && claims[i].fields.id == from
               && to in TextsIn(claims[i].fields.citationIds);
      assert ClaimOk(claims[i], SummaryIds(SummaryNodes(g)));
      CitesAre(claims[i]);
      assert (ClaimNodeId(Claim(claims[i]).claimId), to) in CitationPairs(claims);
    }
  }

  lemma SamePairs(s: set<(string, string)>, t: set<(string, string)>)
    ensures s == t <==> forall from, to :: (from, to) in s <==> (from, to) in t
  {
    if forall from, to :: (from, to) in s <==> (from, to) in t {
      forall e
        ensures e in s <==> e in t
      {
        assert e == (e.0, e.1);
      }
    }
  }

  lemma EdgeSetsIff(g: SummaryGraph)
    requires NodesOk(g)
    ensures Edges(ItemsOf(g.edges), SUMMARY_TO_CLAIM) == Assignments(ClaimNodes(g))
       <==> forall from, to :: HasEdge(g, "summary_to_claim", from, to) <==> Assigns(g, from, to)
    ensures Edges(ItemsOf(g.edges), CLAIM_TO_CITATION) == CitationPairs(ClaimNodes(g))
       <==> forall from, to :: HasEdge(g, "claim_to_citation", from, to) <==> CitesFrom(g, from, to)
  {
    forall from, to
      ensures HasEdge(g, "summary_to_claim", from, to) <==> (from, to) in Edges(ItemsOf(g.edges), SUMMARY_TO_CLAIM)
      ensures HasEdge(g, "claim_to_citation", from, to) <==> (from, to) in Edges(ItemsOf(g.edges), CLAIM_TO_CITATION)
      ensures Assigns(g, from, to) <==> (from, to) in Assignments(ClaimNodes(g))
      ensures CitesFrom(g, from, to) <==> (from, to) in CitationPairs(ClaimNodes(g))
    {
      HasEdgeIff(g, "summary_to_claim", from, to);
      HasEdgeIff(g, "claim_to_citation", from, to);
      AssignsIff(g, from, to);
      CitesFromIff(g, from, to);
    }
    SamePairs(Edges(ItemsOf(g.edges), SUMMARY_TO_CLAIM), Assignments(ClaimNodes(g)));
    SamePairs(Edges(ItemsOf(g.edges), CLAIM_TO_CITATION), CitationPairs(ClaimNodes(g)));
  }

  lemma EdgeRulesIff(g: SummaryGraph)
    requires NodesOk(g)
    ensures GraphOk(g) <==> EdgeRules(g)
  {
    var edges := ItemsOf(g.edges);
    forall k | 0 <= k < |edges|
      ensures EdgeOk(edges[k], SummaryIds(SummaryNodes(g)), ClaimNodeIds(ClaimNodes(g)),
                     CitationNodeIds(CitationNodes(g)))
         <==> EdgeRule(g, edges[k])
    {
      EdgeRuleIff(g, edges[k]);
    }
    EdgeSetsIff(g);
  }

  // ----- Rows -----------------------------------------------------------------------------

  /** The entry refers to the citation node with this id: by the id itself, or by
      its number as an integer or as a text that reads as it. */
  predicate RefersTo(d: Dict<Scalar>, id: string) {
    && d.Dict?
    && match d.fields
       case Missing => false
       case Number(n) => NodeOf(id, n)
       case Text(text, asInt) => if CITATION <= text then id == text else asInt.Some? && NodeOf(id, asInt.value)
  }

  ghost predicate Referred(entries: seq<Dict<Scalar>>, id: string) {
    exists k :: 0 <= k < |entries| && RefersTo(entries[k], id)
  }

  ghost predicate Refers(d: Dict<Scalar>) {
    exists id :: RefersTo(d, id)
  }

  ghost predicate AllRefer(entries: seq<Dict<Scalar>>) {
    forall k :: 0 <= k < |entries| ==> Refers(entries[k])
  }

  ghost predicate SourceRule(g: SummaryGraph, d: Dict<SummaryRow>) {
    && d.Dict? && d.fields.claimIds.Items? && d.fields.sourceCitations.Items?
    && AllRefer(d.fields.sourceCitations.items)
    && exists j :: 0 <= j < |SummaryNodes(g)| && Repeats(d.fields, SummaryNodes(g)[j])
  }

  ghost predicate Repeats(row: SummaryRow, node: Dict<SummaryNode>) {
    && node.Dict? && row.summaryId == node.fields.id
    && NumbersIn(row.claimIds) == NumbersIn(node.fields.claimIds)
    && forall id :: Referred(ItemsOf(row.sourceCitations), id) <==> id in TextsIn(node.fields.citationIds)
  }

  ghost predicate LineageRule(g: SummaryGraph, d: Dict<LineageRow>) {
    && d.Dict? && d.fields.citations.Items? && AllRefer(d.fields.citations.items)
    && exists j :: 0 <= j < |ClaimNodes(g)| && Traces(d.fields, ClaimNodes(g)[j])
  }

  ghost predicate Traces(row: LineageRow, node: Dict<ClaimNode>) {
    && node.Dict? && row.claimId == node.fields.claimId && row.summaryId == node.fields.summaryId
    && forall id :: Referred(ItemsOf(row.citations), id) <==> id in TextsIn(node.fields.citationIds)
  }

  ghost predicate HasSource(t: Traceability, id: string) {
    exists i :: 0 <= i < |ItemsOf(t.summaryToSource)| && ItemsOf(t.summaryToSource)[i].Dict?
                && ItemsOf(t.summaryToSource)[i].fields.summaryId == id
  }

  ghost predicate HasLineage(t: Traceability, claimId: int) {
    exists i :: 0 <= i < |ItemsOf(t.claimLineage)| && ItemsOf(t.claimLineage)[i].Dict?
                && ItemsOf(t.claimLineage)[i].fields.claimId == claimId
  }

  /** Every row repeats a node, and every summary and every claim has a row. */
  ghost predicate RowRules(g: SummaryGraph, t: Traceability) {
    && (forall i :: 0 <= i < |ItemsOf(t.summaryToSource)| ==> SourceRule(g, ItemsOf(t.summaryToSource)[i]))
    && (forall i :: 0 <= i < |ItemsOf(t.claimLineage)| ==> LineageRule(g, ItemsOf(t.claimLineage)[i]))
    && EverySummaryHasSource(g, t) && EveryClaimHasLineage(g, t)
  }

  lemma NumbersRefer(d: Dict<Scalar>, n: int, id: string)
    requires d.Dict? && !d.fields.Missing? && (d.fields.Text? ==> !(CITATION <= d.fields.text))
    requires Reads(d.fields, n)
    ensures RefersTo(d, id) <==> NodeOf(id, n)
    ensures NodeOf(id, n) <==> Reference(d) == id != ""
  {
    ReferenceReads(d);
    NodeIdsAreTold(id, n);
    assert Reference(d) == CitationNodeId(n);
    assert CITATION != "";
  }

  lemma TextRefers(d: Dict<Scalar>, id: string)
    requires d.Dict? && d.fields.Text?
    requires CITATION <= d.fields.text || d.fields.asInt.None?
    ensures RefersTo(d, id) <==> Reference(d) == id != ""
  {
    ReferenceReads(d);
    assert |CITATION| == 9;
  }

  lemma RefersIff(d: Dict<Scalar>, id: string)
    ensures RefersTo(d, id) <==> d.Dict? && Reference(d) == id != ""
  {
    if d.Dict? && !d.fields.Missing? {
      match d.fields
      case Number(n) => NumbersRefer(d, n, id);
      case Text(text, asInt) =>
        if CITATION <= text || asInt.None? {
          TextRefers(d, id);
        } else {
          NumbersRefer(d, asInt.value, id);
        }
    } else {
      ReferenceReads(d);
    }
  }

  lemma ReferredIff(entries: seq<Dict<Scalar>>, id: string)
    ensures Referred(entries, id) <==> id in References(entries)
  {
    forall k | 0 <= k < |entries|
      ensures RefersTo(entries[k], id) <==> entries[k].Dict? && Reference(entries[k]) == id != ""
    {
      RefersIff(entries[k], id);
    }
    if id in References(entries) {
      var k :| 0 <= k < |entries| && Reference(entries[k]) != "" && Reference(entries[k]) == id;
      ReferenceReads(entries[k]);
      assert RefersTo(entries[k], id);
    }
  }

  lemma CanReferIff(d: Dict<Scalar>)
    ensures Refers(d) <==> d.Dict? && Reference(d) != ""
  {
    RefersIff(d, Reference(d));
    if id :| RefersTo(d, id) {
      RefersIff(d, id);
    }
  }

  lemma AllReferIff(entries: seq<Dict<Scalar>>)
    ensures AllRefer(entries) <==> ReferencesOk(entries)
  {
    forall k | 0 <= k < |entries|
      ensures Refers(entries[k]) <==> entries[k].Dict? && Reference(entries[k]) != ""
    {
      CanReferIff(entries[k]);
    }
  }

  lemma SourceRuleIff(g: SummaryGraph, d: Dict<SummaryRow>)
    requires NodesOk(g)
    ensures SourceRowAgrees(d, SummaryNodes(g)) <==> SourceRule(g, d)
  {
    if d.Dict? && d.fields.claimIds.Items? && d.fields.sourceCitations.Items? {
      AllReferIff(d.fields.sourceCitations.items);
      forall j | 0 <= j < |SummaryNodes(g)|
        ensures DescribesSummary(d.fields, SummaryNodes(g)[j]) <==> Repeats(d.fields, SummaryNodes(g)[j])
      {
        assert SummaryOk(SummaryNodes(g)[j]);
        RepeatsIff(d.fields, SummaryNodes(g)[j]);
      }
    }
  }

  lemma SameReferences(entries: seq<Dict<Scalar>>, cites: set<string>)
    ensures References(entries) == cites <==> forall id :: Referred(entries, id) <==> id in cites
  {
    forall id
      ensures Referred(entries, id) <==> id in References(entries)
    {
      ReferredIff(entries, id);
    }
  }

  lemma RepeatsIff(row: SummaryRow, node: Dict<SummaryNode>)
    requires node.Dict? && row.claimIds.Items? && node.fields.claimIds.Items?
    ensures DescribesSummary(row, node) <==> Repeats(row, node)
  {
    assert NonNegative(ItemsOf(row.claimIds)) == NumbersIn(row.claimIds);
    assert SummaryClaims(node) == NumbersIn(node.fields.claimIds);
    assert SummaryCites(node) == TextsIn(node.fields.citationIds);
    SameReferences(ItemsOf(row.sourceCitations), SummaryCites(node));
  }

  lemma TracesIff(row: LineageRow, node: Dict<ClaimNode>)
    requires node.Dict?
    ensures DescribesClaim(row, node) <==> Traces(row, node)
  {
    CitesAre(node);
    SameReferences(ItemsOf(row.citations), ClaimCites(node));
  }

  lemma LineageRuleIff(g: SummaryGraph, d: Dict<LineageRow>)
    requires NodesOk(g)
    ensures LineageRowAgrees(d, ClaimNodes(g)) <==> LineageRule(g, d)
  {
    if d.Dict? && d.fields.citations.Items? {
      AllReferIff(d.fields.citations.items);
      forall j | 0 <= j < |ClaimNodes(g)|
        ensures DescribesClaim(d.fields, ClaimNodes(g)[j]) <==> Traces(d.fields, ClaimNodes(g)[j])
      {
        assert ClaimOk(ClaimNodes(g)[j], SummaryIds(SummaryNodes(g)));
        TracesIff(d.fields, ClaimNodes(g)[j]);
      }
    }
  }

  ghost predicate EverySummaryHasSource(g: SummaryGraph, t: Traceability) {
    forall j :: 0 <= j < |SummaryNodes(g)| && SummaryNodes(g)[j].Dict? ==> HasSource(t, SummaryNodes(g)[j].fields.id)
  }

  lemma SourcesAreSummaries(g: SummaryGraph, rows: seq<Dict<SummaryRow>>)
    requires NodesOk(g) && forall i :: 0 <= i < |rows| ==> SourceRowAgrees(rows[i], SummaryNodes(g))
    ensures SourceIds(rows) <= SummaryIds(SummaryNodes(g))
  {
    var summaries := SummaryNodes(g);
    forall id | id in SourceIds(rows)
      ensures id in SummaryIds(summaries)
    {
      var i :| 0 <= i < |rows| && SourceRow(rows[i]).summaryId == id;
      var j :| 0 <= j < |summaries| && DescribesSummary(rows[i].fields, summaries[j]);
      assert SummaryOk(summaries[j]);
    }
  }

  lemma HasSourceIff(t: Traceability, id: string)
    requires id != ""
    ensures HasSource(t, id) <==> id in SourceIds(ItemsOf(t.summaryToSource))
  {
    var rows := ItemsOf(t.summaryToSource);
    if id in SourceIds(rows) {
      var i :| 0 <= i < |rows| && SourceRow(rows[i]).summaryId == id;
      assert rows[i].Dict? && rows[i].fields.summaryId == id;
    }
    if i :| 0 <= i < |rows| && rows[i].Dict? && rows[i].fields.summaryId == id {
      assert SourceRow(rows[i]).summaryId == id;
    }
  }

  lemma SourceCoverage(g: SummaryGraph, t: Traceability)
    requires NodesOk(g)
    requires forall i :: 0 <= i < |ItemsOf(t.summaryToSource)| ==>
               SourceRowAgrees(ItemsOf(t.summaryToSource)[i], SummaryNodes(g))
    ensures SourceIds(ItemsOf(t.summaryToSource)) == SummaryIds(SummaryNodes(g)) <==> EverySummaryHasSource(g, t)
  {
    var rows, summaries := ItemsOf(t.summaryToSource), SummaryNodes(g);
    SourcesAreSummaries(g, rows);
    forall j | 0 <= j < |summaries|
      ensures summaries[j].Dict? && summaries[j].fields.id in SummaryIds(summaries)
      ensures HasSource(t, summaries[j].fields.id) <==> summaries[j].fields.id in SourceIds(rows)
    {
      assert SummaryOk(summaries[j]) && Summary(summaries[j]).id in SummaryIds(summaries);
      HasSourceIff(t, summaries[j].fields.id);
    }
  }

  ghost predicate EveryClaimHasLineage(g: SummaryGraph, t: Traceability) {
    forall j :: 0 <= j < |ClaimNodes(g)| && ClaimNodes(g)[j].Dict? ==> HasLineage(t, ClaimNodes(g)[j].fields.claimId)
  }

  lemma LineageIsOfClaims(g: SummaryGraph, rows: seq<Dict<LineageRow>>)
    requires NodesOk(g) && forall i :: 0 <= i < |rows| ==> LineageRowAgrees(rows[i], ClaimNodes(g))
    ensures LineageIds(rows) <= ClaimIds(ClaimNodes(g))
  {
    var claims := ClaimNodes(g);
    forall c | c in LineageIds(rows)
      ensures c in ClaimIds(claims)
    {
      var i :| 0 <= i < |rows| && Lineage(rows[i]).claimId == c;
      var j :| 0 <= j < |claims| && DescribesClaim(rows[i].fields, claims[j]);
      assert ClaimOk(claims[j], SummaryIds(SummaryNodes(g)));
    }
  }

  lemma HasLineageIff(t: Traceability, c: int)
    requires c >= 0
    ensures HasLineage(t, c) <==> c in LineageIds(ItemsOf(t.claimLineage))
  {
    var rows := ItemsOf(t.claimLineage);
    if c in LineageIds(rows) {
      var i :| 0 <= i < |rows| && Lineage(rows[i]).claimId == c;
      assert rows[i].Dict? && rows[i].fields.claimId == c;
    }
    if i :| 0 <= i < |rows| && rows[i].Dict? && rows[i].fields.claimId == c {
      assert Lineage(rows[i]).claimId == c;
    }
  }

  lemma LineageCoverage(g: SummaryGraph, t: Traceability)
    requires NodesOk(g)
    requires forall i :: 0 <= i < |ItemsOf(t.claimLineage)| ==>
               LineageRowAgrees(ItemsOf(t.claimLineage)[i], ClaimNodes(g))
    ensures LineageIds(ItemsOf(t.claimLineage)) == ClaimIds(ClaimNodes(g)) <==> EveryClaimHasLineage(g, t)
  {
    var rows, claims := ItemsOf(t.claimLineage), ClaimNodes(g);
    LineageIsOfClaims(g, rows);
    forall j | 0 <= j < |claims|
      ensures claims[j].Dict? && claims[j].fields.claimId in ClaimIds(claims)
      ensures HasLineage(t, claims[j].fields.claimId) <==> claims[j].fields.claimId in LineageIds(rows)
    {
      assert ClaimOk(claims[j], SummaryIds(SummaryNodes(g))) && Claim(claims[j]).claimId in ClaimIds(claims);
      HasLineageIff(t, claims[j].fields.claimId);
    }
  }

  lemma RowRulesIff(g: SummaryGraph, t: Traceability)
    requires NodesOk(g)
    ensures TraceOk(g, t) <==> RowRules(g, t)
  {
    var sources, lineage := ItemsOf(t.summaryToSource), ItemsOf(t.claimLineage);
    forall i | 0 <= i < |sources|
      ensures SourceRowAgrees(sources[i], SummaryNodes(g)) <==> SourceRule(g, sources[i])
    {
      SourceRuleIff(g, sources[i]);
    }
    forall i | 0 <= i < |lineage|
      ensures LineageRowAgrees(lineage[i], ClaimNodes(g)) <==> LineageRule(g, lineage[i])
    {
      LineageRuleIff(g, lineage[i]);
    }
    if forall i :: 0 <= i < |sources| ==> SourceRule(g, sources[i]) {
      SourceCoverage(g, t);
    }
    if forall i :: 0 <= i < |lineage| ==> LineageRule(g, lineage[i]) {
      LineageCoverage(g, t);
    }
  }

  // ----- Counts -----------------------------------------------------------------------------

  ghost predicate CitedBySome(g: SummaryGraph, id: string) {
    exists j :: 0 <= j < |SummaryNodes(g)| && SummaryNodes(g)[j].Dict?
                && id in TextsIn(SummaryNodes(g)[j].fields.citationIds)
  }

  ghost predicate CitedByAClaim(g: SummaryGraph, id: string) {
    exists j :: 0 <= j < |ClaimNodes(g)| && ClaimNodes(g)[j].Dict?
                && id in TextsIn(ClaimNodes(g)[j].fields.citationIds)
  }

  function ClaimsListedAt(summaries: seq<Dict<SummaryNode>>): nat -> int {
    (j: nat) => if j < |summaries| && summaries[j].Dict? then |NumbersIn(summaries[j].fields.claimIds)| else 0
  }

  /** The run's counts and the lists agree; what summaries and what claims cite are
      exactly the citation nodes. */
  ghost predicate CountRules(g: SummaryGraph) {
    var claims := |ClaimNodes(g)|;
    && g.run.Dict? && Reads(g.run.fields.archivedClaims, claims)
    && (exists n :: n >= claims && Reads(g.run.fields.candidateClaims, n))
    && SumOver(ClaimsListedAt(SummaryNodes(g)), |SummaryNodes(g)|) == claims
    && (forall id :: HasCitation(g, id) <==> CitedBySome(g, id))
    && (forall id :: HasCitation(g, id) <==> CitedByAClaim(g, id))
  }

  lemma {:induction false} TotalIsSum(summaries: seq<Dict<SummaryNode>>, n: nat)
    requires n <= |summaries|
    ensures ClaimTotal(summaries[..n]) == SumOver(ClaimsListedAt(summaries), n)
  {
    if n > 0 {
      TotalIsSum(summaries, n - 1);
      assert summaries[..n][..n - 1] == summaries[..n - 1];
      var d := summaries[n - 1];
      assert SummaryClaims(d) == if d.Dict? then NumbersIn(d.fields.claimIds) else {};
    }
  }

  lemma CitedAre(g: SummaryGraph, id: string)
    ensures CitedBySome(g, id) <==> id in CitedBySummaries(SummaryNodes(g))
    ensures CitedByAClaim(g, id) <==> id in CitedByClaims(ClaimNodes(g))
  {
    forall j | 0 <= j < |SummaryNodes(g)|
      ensures id in SummaryCites(SummaryNodes(g)[j])
         <==> SummaryNodes(g)[j].Dict? && id in TextsIn(SummaryNodes(g)[j].fields.citationIds)
    {
    }
    forall j | 0 <= j < |ClaimNodes(g)|
      ensures id in ClaimCites(ClaimNodes(g)[j])
         <==> ClaimNodes(g)[j].Dict? && id in TextsIn(ClaimNodes(g)[j].fields.citationIds)
    {
    }
  }

  lemma CountRulesIff(g: SummaryGraph)
    requires g.run.Dict?
    ensures CountsOk(g) <==> CountRules(g)
  {
    var summaries := SummaryNodes(g);
    CountsAreRead(g);
    TotalIsSum(summaries, |summaries|);
    assert summaries[..|summaries|] == summaries;
    forall id
      ensures HasCitation(g, id) <==> id in CitationNodeIds(CitationNodes(g))
      ensures CitedBySome(g, id) <==> id in CitedBySummaries(summaries)
      ensures CitedByAClaim(g, id) <==> id in CitedByClaims(ClaimNodes(g))
    {
      KnownIds(g, id);
      CitedAre(g, id);
    }
  }

  // ----- The verdict --------------------------------------------------------------------------

  ghost predicate Rules(g: SummaryGraph, t: Traceability) {
    HeadersAgree(g, t) && ListsPresent(g, t) && NodeRules(g) && EdgeRules(g) && RowRules(g, t) && CountRules(g)
  }

  /** Well-formed payloads are those that keep the rules. */
  lemma WellFormedIsRules(g: SummaryGraph, t: Traceability)
    ensures WellFormed(g, t) <==> Rules(g, t)
  {
    NodeRulesIff(g);
    if NodesOk(g) {
      EdgeRulesIff(g);
      RowRulesIff(g, t);
    }
    if g.run.Dict? {
      CountRulesIff(g);
    }
  }

  // ----- Warnings -----------------------------------------------------------------------------

  function UnknownAt(rows: seq<Dict<Edge>>): nat -> bool {
    (i: nat) =>
      i < |rows| && (rows[i].Dict? ==> rows[i].fields.kind != "summary_to_claim"
                                       && rows[i].fields.kind != "claim_to_citation")
  }

  function WarningAt(): nat -> string {
    (i: nat) => "summary_graph.edges[" + Decimal(i) + "].known_type"
  }

  lemma WarningStep(rows: seq<Dict<Edge>>, i: nat)
    requires i < |rows|
    ensures UnknownEdges(rows[..i + 1])
         == UnknownEdges(rows[..i]) + if UnknownAt(rows)(i) then [WarningAt()(i)] else []
  {
    EdgesStep(rows, i, "");
    assert At("summary_graph.edges", i) + ".known_type" == WarningAt()(i);
    assert |SUMMARY_TO_CLAIM| == 16 && |CLAIM_TO_CITATION| == 17;
    assert UnknownAt(rows)(i) <==> !KnownKind(EdgeOf(rows[i]).kind);
  }

  /** One warning for each edge that is not of a known type, by its place. */
  lemma {:induction false} WarningsAreTold(rows: seq<Dict<Edge>>, n: nat)
    requires n <= |rows|
    ensures UnknownEdges(rows[..n]) == Kept(n, UnknownAt(rows), WarningAt())
  {
    if n > 0 {
      WarningsAreTold(rows, n - 1);
      WarningStep(rows, n - 1);
    }
  }
}
