/** Messages out of a node mapping: `_messages_from_mapping` of
    `scripts/conversation_to_turns.py`, a walk up the parent links of an
    arbitrary graph, with a sorted fallback. */
module ParentWalk {
  import opened Basics
  import opened Sorting

  datatype Message = Message(id: string, timestamp: string, role: string, text: string)

  datatype Node = Node(message: Option<Message>, timestamp: string, parent: string)

  /** An entry of the mapping; None when its value is not an object. */
  datatype MappingEntry = MappingEntry(key: string, node: Option<Node>)

  type Graph = map<string, Node>

  /** `_message_from_node`: id and time fall back to those of the node. */
  function MessageFrom(node: Node, nodeId: string): Option<Message> {
    match node.message
    case None => None
    case Some(m) => Some(m.(id := OrElse(m.id, nodeId), timestamp := OrElse(m.timestamp, node.timestamp)))
  }

  // ----- The walk ------------------------------------------------------------------

  /** The nodes visited from `cursor` up, given those visited already. */
  function Walk(nodes: Graph, cursor: string, visited: set<string>): seq<string>
    decreases |nodes.Keys - visited|
  {
    if cursor == "" || cursor in visited || cursor !in nodes then []
    else
      assert nodes.Keys - (visited + {cursor}) < nodes.Keys - visited;
      SmallerSet(nodes.Keys - (visited + {cursor}), nodes.Keys - visited);
      [cursor] + Walk(nodes, nodes[cursor].parent, visited + {cursor})
  }

  lemma SmallerSet<T>(a: set<T>, b: set<T>)
    requires a < b
    ensures |a| < |b|
  {
    assert b == a + (b - a);
    assert b - a != {};
  }

  function MessagesAlong(nodes: Graph, path: seq<string>): seq<Message>
    requires forall i :: 0 <= i < |path| ==> path[i] in nodes
  {
    if path == [] then []
    else
      var last := path[|path| - 1];
      var m := MessageFrom(nodes[last], last);
      MessagesAlong(nodes, path[..|path| - 1]) + if m.Some? then [m.value] else []
  }

  function Reverse<T>(s: seq<T>): seq<T> {
    if s == [] then [] else [s[|s| - 1]] + Reverse(s[..|s| - 1])
  }

  /** A path of distinct nodes from `from`, each followed by its parent. */
  ghost predicate ParentPath(nodes: Graph, path: seq<string>, from: string) {
    && (path != [] ==> path[0] == from)
    && (forall i :: 0 <= i < |path| ==> path[i] in nodes && path[i] != "")
    && (forall i, j :: 0 <= i < j < |path| ==> path[i] != path[j])
    && (forall i :: 0 <= i < |path| - 1 ==> path[i + 1] == nodes[path[i]].parent)
  }

  function NextOf(nodes: Graph, path: seq<string>, from: string): string
    requires path != [] ==> path[|path| - 1] in nodes
  {
    if path == [] then from else nodes[path[|path| - 1]].parent
  }

  /** A parent path that cannot go on: no parent, an unknown one, or a cycle. */
  ghost predicate Complete(nodes: Graph, path: seq<string>, from: string) {
    && ParentPath(nodes, path, from)
    && (NextOf(nodes, path, from) == "" || NextOf(nodes, path, from) in path || NextOf(nodes, path, from) !in nodes)
  }

  function Elements(path: seq<string>): set<string> {
    set x | x in path
  }

  lemma PathExtends(nodes: Graph, path: seq<string>, from: string, cursor: string)
    requires ParentPath(nodes, path, from) && cursor == NextOf(nodes, path, from)
    requires cursor != "" && cursor !in path && cursor in nodes
    ensures ParentPath(nodes, path + [cursor], from)
    ensures Elements(path + [cursor]) == Elements(path) + {cursor}
  {
  }

  lemma WalkStep(nodes: Graph, cursor: string, visited: set<string>, path: seq<string>)
    requires cursor != "" && cursor !in visited && cursor in nodes
    ensures |nodes.Keys - (visited + {cursor})| < |nodes.Keys - visited|
    ensures path + Walk(nodes, cursor, visited)
         == (path + [cursor]) + Walk(nodes, nodes[cursor].parent, visited + {cursor})
  {
    SmallerSet(nodes.Keys - (visited + {cursor}), nodes.Keys - visited);
    var rest := Walk(nodes, nodes[cursor].parent, visited + {cursor});
    assert path + ([cursor] + rest) == (path + [cursor]) + rest;
  }

  lemma {:induction false} WalkExtends(nodes: Graph, path: seq<string>, from: string, whole: seq<string>)
    requires ParentPath(nodes, path, from)
    requires whole == path + Walk(nodes, NextOf(nodes, path, from), Elements(path))
    ensures Complete(nodes, whole, from)
    decreases |nodes.Keys - Elements(path)|
  {
    var cursor, visited := NextOf(nodes, path, from), Elements(path);
    if cursor == "" || cursor in visited || cursor !in nodes {
      assert whole == path;
    } else {
      PathExtends(nodes, path, from, cursor);
      WalkStep(nodes, cursor, visited, path);
      WalkExtends(nodes, path + [cursor], from, whole);
    }
  }

  predicate CanGoOn(nodes: Graph, path: seq<string>, from: string) {
    && (path != [] ==> path[|path| - 1] in nodes)
    && var next := NextOf(nodes, path, from);
       next != "" && next !in path && next in nodes
  }

  /** A parent path goes on from each of its proper prefixes. */
  lemma PathGoesOn(nodes: Graph, path: seq<string>, from: string, n: nat)
    requires ParentPath(nodes, path, from) && n < |path|
    ensures CanGoOn(nodes, path[..n], from)
  {
    var init := path[..n];
    if n > 0 {
      assert init[n - 1] == path[n - 1];
    }
    assert NextOf(nodes, init, from) == path[n];
  }

  lemma CompleteIsUniqueStep(nodes: Graph, p1: seq<string>, p2: seq<string>, from: string)
    requires Complete(nodes, p1, from) && Complete(nodes, p2, from) && p1 <= p2
    ensures p1 == p2
  {
    forall n | 0 <= n < |p2|
      ensures CanGoOn(nodes, p2[..n], from)
    {
      PathGoesOn(nodes, p2, from, n);
    }
    assert p2[..|p1|] == p1;
  }

  lemma {:induction false} PathsAgree(nodes: Graph, p1: seq<string>, p2: seq<string>, from: string, n: nat)
    requires ParentPath(nodes, p1, from) && ParentPath(nodes, p2, from) && n <= |p1| && n <= |p2|
    ensures p1[..n] == p2[..n]
  {
    if n > 0 {
      PathsAgree(nodes, p1, p2, from, n - 1);
      assert p1[..n] == p1[..n - 1] + [p1[n - 1]] && p2[..n] == p2[..n - 1] + [p2[n - 1]];
      if n > 1 {
        assert p1[n - 2] == p1[..n - 1][n - 2] == p2[n - 2];
      }
    }
  }

  lemma DistinctFit(path: seq<string>, keys: set<string>)
    requires forall i, j :: 0 <= i < j < |path| ==> path[i] != path[j]
    requires forall i :: 0 <= i < |path| ==> path[i] in keys
    ensures |path| <= |keys|
    decreases |path|
  {
    if path != [] {
      var last := path[|path| - 1];
      DistinctFit(path[..|path| - 1], keys - {last});
    }
  }

  /** For any graph, cyclic or not: the walk visits distinct nodes, each the
      parent of the one before, until it cannot go on, in at most |nodes| steps;
      and no other path does. */
  lemma WalkIsTheParentChain(nodes: Graph, current: string, path: seq<string>)
    ensures Complete(nodes, path, current) <==> path == Walk(nodes, current, {})
    ensures |Walk(nodes, current, {})| <= |nodes|
  {
    var walk := Walk(nodes, current, {});
    assert Elements([]) == {} && [] + walk == walk;
    WalkExtends(nodes, [], current, walk);
    DistinctFit(walk, nodes.Keys);
    if Complete(nodes, path, current) {
      CompleteIsUnique(nodes, path, walk, current);
    }
  }

  lemma CompleteIsUnique(nodes: Graph, p1: seq<string>, p2: seq<string>, from: string)
    requires Complete(nodes, p1, from) && Complete(nodes, p2, from)
    ensures p1 == p2
  {
    if |p1| <= |p2| {
      PathsAgree(nodes, p1, p2, from, |p1|);
      assert p1[..|p1|] == p1;
      CompleteIsUniqueStep(nodes, p1, p2, from);
    } else {
      PathsAgree(nodes, p1, p2, from, |p2|);
      assert p2[..|p2|] == p2;
      CompleteIsUniqueStep(nodes, p2, p1, from);
    }
  }

  // ----- The sorted fallback ---------------------------------------------------------

  /** The sort key: dated messages first, by the text their time is ordered by,
      then by id.  `stamp` is the text that a non-blank time is formatted to. */
  datatype Key = Key(undated: bool, stamp: string, id: string)

  function KeyOf(m: Message, stamp: string -> string): Key {
    if m.timestamp == "" then Key(true, "", m.id) else Key(false, stamp(m.timestamp), m.id)
  }

  predicate KeyLeq(a: Key, b: Key) {
    if a.undated != b.undated then b.undated
    else if a.stamp != b.stamp then StrLeq(a.stamp, b.stamp)
    else StrLeq(a.id, b.id)
  }

  lemma KeyTotal(a: Key, b: Key)
    ensures KeyLeq(a, b) || KeyLeq(b, a)
  {
    StrTotal(a.stamp, b.stamp);
    StrTotal(a.id, b.id);
  }

  lemma KeyTransitive(a: Key, b: Key, c: Key)
    requires KeyLeq(a, b) && KeyLeq(b, c)
    ensures KeyLeq(a, c)
  {
    if a.stamp != b.stamp && b.stamp != c.stamp && a.undated == b.undated == c.undated {
      StrTransitive(a.stamp, b.stamp, c.stamp);
      StrTotal(a.stamp, b.stamp);
    } else if a.stamp == b.stamp == c.stamp && a.undated == b.undated == c.undated {
      StrTransitive(a.id, b.id, c.id);
    }
  }

  function ByKey(stamp: string -> string): (Message, Message) -> bool {
    (a: Message, b: Message) => KeyLeq(KeyOf(a, stamp), KeyOf(b, stamp))
  }

  lemma ByKeyIsPreorder(stamp: string -> string)
    ensures TotalPreorder(ByKey(stamp))
  {
    forall a: Message, b: Message
      ensures ByKey(stamp)(a, b) || ByKey(stamp)(b, a)
    {
      KeyTotal(KeyOf(a, stamp), KeyOf(b, stamp));
    }
    forall a: Message, b: Message, c: Message | ByKey(stamp)(a, b) && ByKey(stamp)(b, c)
      ensures ByKey(stamp)(a, c)
    {
      KeyTransitive(KeyOf(a, stamp), KeyOf(b, stamp), KeyOf(c, stamp));
    }
  }

  // ----- Chain or fallback ---------------------------------------------------

  function GraphOf(entries: seq<MappingEntry>): Graph {
    if entries == [] then map[]
    else
      var before, last := GraphOf(entries[..|entries| - 1]), entries[|entries| - 1];
      if last.node.Some? then before[last.key := last.node.value] else before
  }

  /** Every message of the mapping, in its own order. */
  function AllMessages(entries: seq<MappingEntry>): seq<Message> {
    if entries == [] then []
    else
      var last := entries[|entries| - 1];
      var m := if last.node.Some? then MessageFrom(last.node.value, last.key) else None;
      AllMessages(entries[..|entries| - 1]) + if m.Some? then [m.value] else []
  }

  function ChainOf(nodes: Graph, current: string): seq<Message> {
    WalkStays(nodes, current, {});
    Reverse(MessagesAlong(nodes, Walk(nodes, current, {})))
  }

  lemma {:induction false} WalkStays(nodes: Graph, cursor: string, visited: set<string>)
    ensures forall i :: 0 <= i < |Walk(nodes, cursor, visited)| ==> Walk(nodes, cursor, visited)[i] in nodes
    decreases |nodes.Keys - visited|
  {
    if cursor != "" && cursor !in visited && cursor in nodes {
      SmallerSet(nodes.Keys - (visited + {cursor}), nodes.Keys - visited);
      WalkStays(nodes, nodes[cursor].parent, visited + {cursor});
    }
  }

  function MessagesOf(entries: seq<MappingEntry>, current: string, stamp: string -> string): seq<Message> {
    var chain := ChainOf(GraphOf(entries), current);
    if chain != [] then chain else Sort(AllMessages(entries), ByKey(stamp))
  }

  ghost predicate DistinctKeys(entries: seq<MappingEntry>) {
    forall i, j :: 0 <= i < j < |entries| ==> entries[i].key != entries[j].key
  }

  method ReverseInOrder(chain: seq<Message>) returns (reversed: seq<Message>)
    ensures reversed == Reverse(chain)
  {
    reversed := [];
    for i := 0 to |chain|
      invariant reversed == Reverse(chain[..i])
    {
      assert chain[..i + 1][..i] == chain[..i];
      reversed := [chain[i]] + reversed;
    }
    assert chain[..|chain|] == chain;
  }

  method CollectNodes(entries: seq<MappingEntry>) returns (nodes: Graph)
    ensures nodes == GraphOf(entries)
  {
    nodes := map[];
    for i := 0 to |entries|
      invariant nodes == GraphOf(entries[..i])
    {
      assert entries[..i + 1][..i] == entries[..i];
      if entries[i].node.Some? {
        nodes := nodes[entries[i].key := entries[i].node.value];
      }
    }
    assert entries[..|entries|] == entries;
  }

  method CollectMessages(entries: seq<MappingEntry>) returns (messages: seq<Message>)
    ensures messages == AllMessages(entries)
  {
    messages := [];
    for i := 0 to |entries|
      invariant messages == AllMessages(entries[..i])
    {
      assert entries[..i + 1][..i] == entries[..i];
      if entries[i].node.Some? {
        var message := MessageFrom(entries[i].node.value, entries[i].key);
        if message.Some? {
          messages := messages + [message.value];
        }
      }
    }
    assert entries[..|entries|] == entries;
  }

  lemma MessagesAlongStep(nodes: Graph, path: seq<string>, cursor: string)
    requires cursor in nodes && forall i :: 0 <= i < |path| ==> path[i] in nodes
    ensures var m := MessageFrom(nodes[cursor], cursor);
            MessagesAlong(nodes, path + [cursor])
            == if m.Some? then MessagesAlong(nodes, path) + [m.value] else MessagesAlong(nodes, path)
  {
    assert (path + [cursor])[..|path|] == path;
  }

  /** The loop up the parent links. */
  method ClimbParents(nodes: Graph, current: string) returns (chain: seq<Message>)
    ensures chain == ChainOf(nodes, current)
  {
    chain := [];
    var visited: set<string>, cursor := {}, current;
    ghost var path: seq<string> := [];
    WalkStays(nodes, current, {});
    while cursor != "" && cursor !in visited && cursor in nodes
      invariant path + Walk(nodes, cursor, visited) == Walk(nodes, current, {})
      invariant forall k :: 0 <= k < |path| ==> path[k] in nodes
      invariant chain == MessagesAlong(nodes, path)
      decreases |nodes.Keys - visited|
    {
      WalkStep(nodes, cursor, visited, path);
      MessagesAlongStep(nodes, path, cursor);
      visited := visited + {cursor};
      path := path + [cursor];
      var message := MessageFrom(nodes[cursor], cursor);
      if message.Some? {
        chain := chain + [message.value];
      }
      cursor := nodes[cursor].parent;
    }
    assert path == Walk(nodes, current, {});
    chain := ReverseInOrder(chain);
  }

  /** `_messages_from_mapping`.  The keys of a JSON object are distinct. */
  method MessagesFromMapping(entries: seq<MappingEntry>, current: string, stamp: string -> string)
    returns (messages: seq<Message>)
    requires DistinctKeys(entries)
    ensures messages == MessagesOf(entries, current, stamp)
  {
    var nodes := CollectNodes(entries);
    if current != "" && current in nodes {
      var chain := ClimbParents(nodes, current);
      if chain != [] {
        return chain;
      }
    }
    var fallback := CollectMessages(entries);
    messages := Sort(fallback, ByKey(stamp));
  }

  /** What comes out: the messages on the parent chain, the root's first; or,
      if there are none, all messages of the mapping, sorted. */
  lemma MessagesAreChainOrSorted(entries: seq<MappingEntry>, current: string, stamp: string -> string,
                                 path: seq<string>)
    requires Complete(GraphOf(entries), path, current)
    ensures var onPath := MessagesAlong(GraphOf(entries), path);
            var messages := MessagesOf(entries, current, stamp);
            && (onPath != [] ==> ReadsBackwards(messages, onPath))
            && (onPath == [] ==>
                  InOrder(messages, ByKey(stamp)) && multiset(messages) == multiset(AllMessages(entries)))
  {
    WalkIsTheParentChain(GraphOf(entries), current, path);
    ReverseReads(MessagesAlong(GraphOf(entries), path));
    ByKeyIsPreorder(stamp);
    SortSorts(AllMessages(entries), ByKey(stamp));
    SortKeeps(AllMessages(entries), ByKey(stamp));
  }

  ghost predicate ReadsBackwards<T(!new)>(r: seq<T>, s: seq<T>) {
    |r| == |s| && forall i :: 0 <= i < |s| ==> r[i] == s[|s| - 1 - i]
  }

  lemma {:induction false} ReverseReads<T(!new)>(s: seq<T>)
    ensures ReadsBackwards(Reverse(s), s)
  {
    if s != [] {
      ReverseReads(s[..|s| - 1]);
    }
  }
}
