/** Conversion of a list of contacts into an n8n workflow document: one
    "set" node per contact, laid out left to right, and a connection from
    every node to the next one. */
module N8nExport {
  import opened Values

  /** One entry of a node's `parameters.values.string` list. */
  datatype Param = Param(name: string, value: Value)

  /** One node of the workflow; `kind` is the document's "type" entry and
      `strings` its `parameters.values.string` list. */
  datatype Node = Node(id: string, name: string, kind: string, position: seq<int>, strings: seq<Param>)

  /** The `{"node", "type", "index"}` object a connection points at. */
  datatype Target = Target(node: string, kind: string, index: int)

  /** A connection entry, `{"main": [[target, ...], ...]}`. */
  datatype Link = Link(main: seq<seq<Target>>)

  /** The exported document, `{"nodes": [...], "connections": {...}}`. */
  datatype Workflow = Workflow(nodes: seq<Node>, connections: map<string, Link>)

  const NodeType := "n8n-nodes-base.set"
  /** Horizontal distance between consecutive nodes. */
  const Spacing := 300
  /** The vertical coordinate every node sits at. */
  const Row := 300

  /** The id of the node for the contact at position i. */
  function NodeId(i: nat): string
  {
    "contact_" + Decimal(i)
  }

  /** Nodes for different positions have different ids. */
  lemma NodeIdInjective(i: nat, j: nat)
    requires NodeId(i) == NodeId(j)
    ensures i == j
  {
    assert Decimal(i) == NodeId(i)[8..];
    assert Decimal(j) == NodeId(j)[8..];
    DecimalInjective(i, j);
  }

  /** The node emitted for `contact` at position i. */
  function NodeFor(i: nat, contact: Record): Node
  {
    Node(NodeId(i),
         "Contact: " + Display(Get(contact, "full_name", Str("Unknown"))),
         NodeType,
         [i * Spacing, Row],
         [Param("id", Get(contact, "id", Str(""))),
          Param("email", Get(contact, "email", Str(""))),
          Param("full_name", Get(contact, "full_name", Str(""))),
          Param("status", Get(contact, "status", Str("")))])
  }

  /** The four string parameters of a node are named id, email, full_name
      and status, in that order, and each holds the contact's value under
      that key, or the empty string when the contact lacks the key; the
      node is named after the contact's full name, "Unknown" when absent. */
  lemma NodeShape(i: nat, contact: Record)
    ensures var n := NodeFor(i, contact);
      && n.id == NodeId(i) && n.kind == NodeType && n.position == [i * Spacing, Row]
      && n.name == "Contact: " + Display(Get(contact, "full_name", Str("Unknown")))
      && ("full_name" !in contact ==> n.name == "Contact: Unknown")
      && |n.strings| == 4
      && (forall k :: 0 <= k < 4 ==> n.strings[k].name == ["id", "email", "full_name", "status"][k])
      && (forall k :: 0 <= k < 4 ==>
            var key := n.strings[k].name;
            n.strings[k].value == (if key in contact then contact[key] else Str("")))
  {
  }

  /** The connection entry that leads to the node with id `next`. */
  function LinkTo(next: string): Link
  {
    Link([[Target(next, "main", 0)]])
  }

  /** The ids of the nodes that have an outgoing connection when there are
      n nodes: every node but the last. */
  function LinkedIds(n: nat): set<string>
  {
    set j | 0 <= j < n - 1 :: NodeId(j)
  }

  /** `w` is the workflow for `contacts`: one node per contact, in order,
      and a connection from each node to its successor only. */
  ghost predicate IsChainFor(w: Workflow, contacts: seq<Record>)
  {
    && |w.nodes| == |contacts|
    && (forall i :: 0 <= i < |contacts| ==> w.nodes[i] == NodeFor(i, contacts[i]))
    && LinksChain(w.connections, |contacts|)
  }

  /** `connections` links each of the first n nodes to its successor and
      has no other entry. */
  ghost predicate LinksChain(connections: map<string, Link>, n: nat)
  {
    && connections.Keys == LinkedIds(n)
    && forall i :: 0 <= i < n - 1 ==> connections[NodeId(i)] == LinkTo(NodeId(i + 1))
  }

  /** Builds the workflow document for `contacts`, appending a node and,
      from the second contact on, a connection from the previous node. */
  method ConvertToN8n(contacts: seq<Record>) returns (w: Workflow)
    ensures IsChainFor(w, contacts)
  {
    var nodes: seq<Node> := [];
    var connections: map<string, Link> := map[];
    var i := 0;
    while i < |contacts|
      invariant 0 <= i <= |contacts|
      invariant |nodes| == i
      invariant forall j :: 0 <= j < i ==> nodes[j] == NodeFor(j, contacts[j])
      invariant LinksChain(connections, i)
    {
      var nodeId := NodeId(i);
      nodes := nodes + [NodeFor(i, contacts[i])];
      LinkStep(connections, i);
      if i > 0 {
        var prevId := NodeId(i - 1);
        if prevId !in connections {
          connections := connections[prevId := LinkTo(nodeId)];
        }
      }
      i := i + 1;
    }
    w := Workflow(nodes, connections);
  }

  /** Going from n to n + 1 nodes adds the id of node n - 1, which was not
      linked before. */
  lemma LinkedIdsGrow(n: nat)
    ensures n > 0 ==> NodeId(n - 1) !in LinkedIds(n)
    ensures LinkedIds(n + 1) == LinkedIds(n) + if n > 0 then {NodeId(n - 1)} else {}
  {
    if n > 0 && NodeId(n - 1) in LinkedIds(n) {
      var j :| 0 <= j < n - 1 && NodeId(j) == NodeId(n - 1);
      NodeIdInjective(j, n - 1);
    }
  }

  /** A chain over one node needs no connection; linking node i - 1 to
      node i extends a chain over i nodes to one over i + 1 nodes, and the
      entry for node i - 1 is not there yet. */
  lemma LinkStep(connections: map<string, Link>, i: nat)
    requires LinksChain(connections, i)
    ensures i == 0 ==> LinksChain(connections, 1)
    ensures i > 0 ==> NodeId(i - 1) !in connections
    ensures i > 0 ==> LinksChain(connections[NodeId(i - 1) := LinkTo(NodeId(i))], i + 1)
  {
    LinkedIdsGrow(i);
  }

  /** There are exactly n - 1 connections for n >= 1 nodes, none for none. */
  lemma {:induction false} LinkedIdsCount(n: nat)
    ensures |LinkedIds(n)| == if n == 0 then 0 else n - 1
  {
    if n > 1 {
      LinkedIdsCount(n - 1);
      assert LinkedIds(n) == LinkedIds(n - 1) + {NodeId(n - 2)};
      if NodeId(n - 2) in LinkedIds(n - 1) {
        var j :| 0 <= j < n - 2 && NodeId(j) == NodeId(n - 2);
        NodeIdInjective(j, n - 2);
      }
    } else {
      assert LinkedIds(n) == {};
    }
  }

  /** The workflow has exactly one connection fewer than it has nodes
      (none when there are no contacts). */
  lemma ConnectionCount(w: Workflow, contacts: seq<Record>)
    requires IsChainFor(w, contacts)
    ensures |w.connections| == if contacts == [] then 0 else |contacts| - 1
  {
    LinkedIdsCount(|contacts|);
  }

  /** The last node has no outgoing connection. */
  lemma LastNodeIsSink(w: Workflow, contacts: seq<Record>)
    requires IsChainFor(w, contacts)
    requires contacts != []
    ensures w.nodes[|contacts| - 1].id !in w.connections
  {
    var n := |contacts|;
    if w.nodes[n - 1].id in w.connections {
      var j :| 0 <= j < n - 1 && NodeId(j) == NodeId(n - 1);
      NodeIdInjective(j, n - 1);
    }
  }

  /** Node ids are pairwise distinct. */
  lemma NodeIdsDistinct(w: Workflow, contacts: seq<Record>, i: nat, j: nat)
    requires IsChainFor(w, contacts)
    requires i < j < |contacts|
    ensures w.nodes[i].id != w.nodes[j].id
  {
    if w.nodes[i].id == w.nodes[j].id {
      NodeIdInjective(i, j);
    }
  }

  /** Every connection leaves some node and leads to the node right after
      it: the document is a single linear chain in contact order. */
  lemma ConnectionsFormChain(w: Workflow, contacts: seq<Record>, key: string)
    requires IsChainFor(w, contacts)
    requires key in w.connections
    ensures exists i :: 0 <= i < |contacts| - 1 && key == w.nodes[i].id
                        && w.connections[key] == LinkTo(w.nodes[i + 1].id)
  {
    var i :| 0 <= i < |contacts| - 1 && NodeId(i) == key;
    assert key == w.nodes[i].id && w.nodes[i + 1].id == NodeId(i + 1);
  }

  /** No contacts, an empty document. */
  lemma EmptyExport(w: Workflow)
    requires IsChainFor(w, [])
    ensures w.nodes == [] && w.connections == map[]
  {
  }
}
