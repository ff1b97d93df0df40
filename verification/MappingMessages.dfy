/** The messages of a node mapping and the order of the sorted fallback, told from
    the entries of the mapping. */
module MappingMessages {
  import opened Basics
  import opened Sorting
  import opened ParentWalk

  // ----- One message of one node ----------------------------------------------------

  /** The node's message, under its own id and time, or where it has none under the
      node's. */
  predicate TakenFrom(out: Message, node: Node, key: string) {
    && node.message.Some?
    && var m := node.message.value;
       && out.role == m.role && out.text == m.text
       && out.id == (if m.id != "" then m.id else key)
       && out.timestamp == if m.timestamp != "" then m.timestamp else node.timestamp
  }

  predicate HasMessage(entry: MappingEntry) {
    entry.node.Some? && entry.node.value.message.Some?
  }

  function SpeakingAt(entries: seq<MappingEntry>): nat -> bool {
    (i: nat) => i < |entries| && HasMessage(entries[i])
  }

  function NodeSpeaksAt(nodes: Graph, path: seq<string>): nat -> bool {
    (i: nat) => i < |path| && path[i] in nodes && nodes[path[i]].message.Some?
  }

  /** One message for each entry that has one, in the order of the entries. */
  lemma {:induction false} AllMessagesAreTold(entries: seq<MappingEntry>, n: nat)
    requires n <= |entries|
    ensures var at, out := KeptPlaces(n, SpeakingAt(entries)), AllMessages(entries[..n]);
            && |out| == |at|
            && forall k :: 0 <= k < |at| ==>
                 at[k] < n && HasMessage(entries[at[k]])
                 && TakenFrom(out[k], entries[at[k]].node.value, entries[at[k]].key)
  {
    if n > 0 {
      AllMessagesAreTold(entries, n - 1);
      assert entries[..n][..n - 1] == entries[..n - 1];
    }
  }

  /** One message for each node of a path that has one, in the order of the path. */
  lemma {:induction false} PathMessagesAreTold(nodes: Graph, path: seq<string>, n: nat)
    requires n <= |path| && forall i :: 0 <= i < |path| ==> path[i] in nodes
    ensures var at, out := KeptPlaces(n, NodeSpeaksAt(nodes, path)), MessagesAlong(nodes, path[..n]);
            && |out| == |at|
            && forall k :: 0 <= k < |at| ==> at[k] < n && TakenFrom(out[k], nodes[path[at[k]]], path[at[k]])
  {
    if n > 0 {
      PathMessagesAreTold(nodes, path, n - 1);
      assert path[..n][..n - 1] == path[..n - 1];
    }
  }

  /** The graph has a node exactly for the entries that are objects. */
  lemma {:induction false} GraphIsTold(entries: seq<MappingEntry>, key: string)
    requires DistinctKeys(entries)
    ensures key in GraphOf(entries)
       <==> exists i :: 0 <= i < |entries| && entries[i].key == key && entries[i].node.Some?
    ensures forall i :: 0 <= i < |entries| && entries[i].key == key && entries[i].node.Some? ==>
              key in GraphOf(entries) && GraphOf(entries)[key] == entries[i].node.value
  {
    if entries != [] {
      var init := entries[..|entries| - 1];
      GraphIsTold(init, key);
      assert forall i :: 0 <= i < |init| ==> init[i] == entries[i];
    }
  }

  // ----- The order of the fallback ---------------------------------------------------

  /** Dated messages come before undated ones; of two dated ones the one with the
      smaller stamp; and where that does not decide, the one with the smaller id. */
  ghost predicate InTimeOrder(a: Message, b: Message, stamp: string -> string) {
    && (b.timestamp != "" ==> a.timestamp != "")
    && (a.timestamp != "" && b.timestamp != "" && stamp(a.timestamp) != stamp(b.timestamp) ==>
          InDictionaryOrder(stamp(a.timestamp), stamp(b.timestamp)))
    && (a.timestamp != "" && b.timestamp != "" && stamp(a.timestamp) == stamp(b.timestamp) ==>
          InDictionaryOrder(a.id, b.id))
    && (a.timestamp == "" && b.timestamp == "" ==> InDictionaryOrder(a.id, b.id))
  }

  lemma ByKeyIsTimeOrder(a: Message, b: Message, stamp: string -> string)
    ensures ByKey(stamp)(a, b) <==> InTimeOrder(a, b, stamp)
  {
    StrLeqIsDictionaryOrder(stamp(a.timestamp), stamp(b.timestamp));
    StrLeqIsDictionaryOrder(a.id, b.id);
  }

  /** When no node on the way up has a message, all messages of the mapping come out,
      each once, in the order of time; those that the order does not tell apart in
      the order of the mapping. */
  lemma FallbackIsInTimeOrder(entries: seq<MappingEntry>, current: string, stamp: string -> string, c: Message)
    requires ChainOf(GraphOf(entries), current) == []
    ensures var messages := MessagesOf(entries, current, stamp);
            && multiset(messages) == multiset(AllMessages(entries))
            && (forall i, j :: 0 <= i < j < |messages| ==> InTimeOrder(messages[i], messages[j], stamp))
            && Alike(messages, c, ByKey(stamp)) == Alike(AllMessages(entries), c, ByKey(stamp))
  {
    var messages := MessagesOf(entries, current, stamp);
    ByKeyIsPreorder(stamp);
    SortSorts(AllMessages(entries), ByKey(stamp));
    SortKeeps(AllMessages(entries), ByKey(stamp));
    SortIsStable(AllMessages(entries), c, ByKey(stamp));
    forall i, j | 0 <= i < j < |messages|
      ensures InTimeOrder(messages[i], messages[j], stamp)
    {
      ByKeyIsTimeOrder(messages[i], messages[j], stamp);
    }
  }
}
