/**
 * The node/edge data of `get_node_edge_graph_data` in web/routers/graphs.py,
 * after the four lists have been read: one node per document, topic, entity
 * and stakeholder, one edge per document-entity link, and each node's degree
 * counted from the edges.
 */
module Graph {
  import opened Wrappers

  /** The four kinds of node, in the order their nodes are built. */
  datatype Group = DocumentGroup | TopicGroup | EntityGroup | StakeholderGroup

  /** The `group` string of a node, also the prefix of its id. */
  function GroupName(g: Group): string
  {
    match g
    case DocumentGroup => "document"
    case TopicGroup => "topic"
    case EntityGroup => "entity"
    case StakeholderGroup => "stakeholder"
  }

  /** A listed record: its id and the text that labels its node (filename, topic, entity or stakeholder name). */
  datatype Item = Item(id: int, labelText: string)

  /** A listed document and the ids of the entities in its `entities` list. */
  datatype DocumentItem = DocumentItem(item: Item, entityIds: seq<int>)

  /**
   * A node's identity: its group and its record's id. The node's `id` and
   * `name` strings are both NodeId(key), and NodeId is injective
   * (NodeIdInjective), so `node_degrees`, a dict keyed by those strings,
   * is modelled as a map keyed by NodeKey.
   */
  datatype NodeKey = NodeKey(group: Group, id: int)

  /** A node dict: `id` and `name` are NodeId(key), `group` is GroupName(key.group). */
  datatype Node = Node(key: NodeKey, labelText: string, degree: int)

  datatype Edge = Edge(source: NodeKey, target: NodeKey)

  /** The KeyError of `node_degrees[target_id] += 1` for an edge target that is no node. */
  datatype GraphError = UnknownNode(id: NodeKey)

  datatype GraphData = GraphData(nodes: seq<Node>, edges: seq<Edge>)

  // ---------------------------------------------------------------------------
  // Node ids

  function DigitChar(d: int): char
    requires 0 <= d < 10
  {
    "0123456789"[d]
  }

  /** The decimal digits of n. */
  function NatStr(n: nat): (s: string)
    ensures |s| >= 1 && '0' <= s[0] <= '9'
    ensures n >= 10 ==> |s| >= 2
  {
    if n < 10 then [DigitChar(n)] else NatStr(n / 10) + [DigitChar(n % 10)]
  }

  /** `f"{i}"` for an integer: its digits, after a minus sign when it is negative. */
  function IntStr(i: int): string
  {
    if i < 0 then "-" + NatStr(-i) else NatStr(i)
  }

  /** `f"{group}-{id}"`: the node's `id` and `name`. */
  function NodeId(k: NodeKey): string
  {
    GroupName(k.group) + "-" + IntStr(k.id)
  }

  /** Different numbers have different digits. */
  lemma {:induction false} NatStrInjective(a: nat, b: nat)
    requires NatStr(a) == NatStr(b)
    ensures a == b
  {
    if a >= 10 && b >= 10 {
      var sa, sb := NatStr(a), NatStr(b);
      assert sa[..|sa| - 1] == NatStr(a / 10) && sb[..|sb| - 1] == NatStr(b / 10);
      NatStrInjective(a / 10, b / 10);
      assert DigitChar(a % 10) == sa[|sa| - 1] == DigitChar(b % 10);
    } else if a < 10 && b < 10 {
      assert DigitChar(a) == DigitChar(b);
    }
  }

  lemma IntStrInjective(a: int, b: int)
    requires IntStr(a) == IntStr(b)
    ensures a == b
  {
    if a < 0 && b < 0 {
      assert NatStr(-a) == IntStr(a)[1..] == IntStr(b)[1..] == NatStr(-b);
      NatStrInjective(-a, -b);
    } else if a >= 0 && b >= 0 {
      NatStrInjective(a, b);
    }
  }

  /** No group name holds a '-', and the four differ in length. */
  lemma GroupNames(g: Group, h: Group)
    ensures forall k :: 0 <= k < |GroupName(g)| ==> GroupName(g)[k] != '-'
    ensures |GroupName(g)| == |GroupName(h)| ==> g == h
  {
  }

  /** Two nodes share an id only when they are of the same group and record id. */
  lemma NodeIdInjective(k1: NodeKey, k2: NodeKey)
    requires NodeId(k1) == NodeId(k2)
    ensures k1 == k2
  {
    var s, m1, m2 := NodeId(k1), |GroupName(k1.group)|, |GroupName(k2.group)|;
    GroupNames(k1.group, k2.group);
    GroupNames(k2.group, k1.group);
    assert s[m1] == '-' && s[m2] == '-';
    assert m1 == m2;
    assert IntStr(k1.id) == s[m1 + 1..] == IntStr(k2.id);
    IntStrInjective(k1.id, k2.id);
  }

  // ---------------------------------------------------------------------------
  // What the function builds

  /** The node of one record, with degree 0. */
  function NewNode(g: Group, it: Item): Node
  {
    Node(NodeKey(g, it.id), it.labelText, 0)
  }

  /** One node per record, in order. */
  function NodesFor(g: Group, items: seq<Item>): (r: seq<Node>)
    ensures |r| == |items|
  {
    if items == [] then [] else NodesFor(g, items[..|items| - 1]) + [NewNode(g, items[|items| - 1])]
  }

  function DocumentItems(documents: seq<DocumentItem>): (r: seq<Item>)
    ensures |r| == |documents| && forall i :: 0 <= i < |documents| ==> r[i] == documents[i].item
  {
    if documents == [] then [] else DocumentItems(documents[..|documents| - 1]) + [documents[|documents| - 1].item]
  }

  /** The nodes the four loops build: documents, then topics, entities and stakeholders, all of degree 0. */
  function InitialNodes(documents: seq<DocumentItem>, topics: seq<Item>, entities: seq<Item>, stakeholders: seq<Item>): seq<Node>
  {
    NodesFor(DocumentGroup, DocumentItems(documents)) + NodesFor(TopicGroup, topics)
      + NodesFor(EntityGroup, entities) + NodesFor(StakeholderGroup, stakeholders)
  }

  function Ids(nodes: seq<Node>): set<NodeKey>
  {
    set n | n in nodes :: n.key
  }

  /** The edges of one document: one per entity in its list, in order. */
  function DocumentEdges(documentId: int, entityIds: seq<int>): (r: seq<Edge>)
    ensures |r| == |entityIds|
  {
    if entityIds == [] then []
    else
      var last := Edge(NodeKey(DocumentGroup, documentId), NodeKey(EntityGroup, entityIds[|entityIds| - 1]));
      DocumentEdges(documentId, entityIds[..|entityIds| - 1]) + [last]
  }

  /** The edges of the nested loop: each document's edges, document after document. */
  function EdgesOf(documents: seq<DocumentItem>): seq<Edge>
  {
    if documents == [] then []
    else
      var d := documents[|documents| - 1];
      EdgesOf(documents[..|documents| - 1]) + DocumentEdges(d.item.id, d.entityIds)
  }

  /** How many edge ends are at node id s: an edge from s and an edge to s both count. */
  function Count(edges: seq<Edge>, s: NodeKey): nat
  {
    if edges == [] then 0
    else
      var e := edges[|edges| - 1];
      Count(edges[..|edges| - 1], s) + (if e.source == s then 1 else 0) + (if e.target == s then 1 else 0)
  }

  /** The nodes after the last loop: each one's degree is the number of edge ends at it. */
  function FinalNodes(nodes: seq<Node>, edges: seq<Edge>): (r: seq<Node>)
    ensures |r| == |nodes|
  {
    if nodes == [] then []
    else FinalNodes(nodes[..|nodes| - 1], edges) + [nodes[|nodes| - 1].(degree := Count(edges, nodes[|nodes| - 1].key))]
  }

  /** The k-th node built for a group is the node of the k-th record. */
  lemma {:induction false} NodesForSpec(g: Group, items: seq<Item>)
    ensures forall i :: 0 <= i < |items| ==> NodesFor(g, items)[i] == NewNode(g, items[i])
    decreases |items|
  {
    if items != [] {
      NodesForSpec(g, items[..|items| - 1]);
    }
  }

  /** The j-th edge of a document runs from its node to the node of the j-th entity in its list. */
  lemma {:induction false} DocumentEdgesSpec(documentId: int, entityIds: seq<int>)
    ensures forall j :: 0 <= j < |entityIds| ==>
      DocumentEdges(documentId, entityIds)[j] == Edge(NodeKey(DocumentGroup, documentId), NodeKey(EntityGroup, entityIds[j]))
    decreases |entityIds|
  {
    if entityIds != [] {
      DocumentEdgesSpec(documentId, entityIds[..|entityIds| - 1]);
    }
  }

  /**
   * Every node keeps its id, name, label and group, and gets as its degree
   * the number of edge ends at its id.
   */
  lemma {:induction false} FinalNodesSpec(nodes: seq<Node>, edges: seq<Edge>)
    ensures forall k :: 0 <= k < |nodes| ==> FinalNodes(nodes, edges)[k] == nodes[k].(degree := Count(edges, nodes[k].key))
    decreases |nodes|
  {
    if nodes != [] {
      FinalNodesSpec(nodes[..|nodes| - 1], edges);
    }
  }

  // ---------------------------------------------------------------------------
  // Facts about the edges

  lemma {:induction false} EdgesOfAppend(a: seq<DocumentItem>, b: seq<DocumentItem>)
    ensures EdgesOf(a + b) == EdgesOf(a) + EdgesOf(b)
    decreases |b|
  {
    if b == [] {
      assert a + b == a;
    } else {
      var front, d := b[..|b| - 1], b[|b| - 1];
      EdgesOfAppend(a, front);
      assert (a + b)[..|a + b| - 1] == a + front && (a + b)[|a + b| - 1] == d;
      assert EdgesOf(a + b) == EdgesOf(a + front) + DocumentEdges(d.item.id, d.entityIds);
      assert EdgesOf(b) == EdgesOf(front) + DocumentEdges(d.item.id, d.entityIds);
    }
  }

  /** The edges of one more document are its own edges, after those of the earlier documents. */
  lemma EdgesOfStep(documents: seq<DocumentItem>, i: nat)
    requires i < |documents|
    ensures EdgesOf(documents[..i + 1]) == EdgesOf(documents[..i]) + DocumentEdges(documents[i].item.id, documents[i].entityIds)
  {
    assert documents[..i + 1][..i] == documents[..i];
  }

  /**
   * There is exactly one edge per (document, entity in its list): an edge is
   * in the graph exactly when it runs from some document's node to the node
   * of an entity in that document's list, and there are as many edges as
   * such pairs.
   */
  lemma {:induction false} EdgesOfSpec(documents: seq<DocumentItem>)
    ensures forall e :: e in EdgesOf(documents) <==>
      exists i, j :: 0 <= i < |documents| && 0 <= j < |documents[i].entityIds| &&
        e == Edge(NodeKey(DocumentGroup, documents[i].item.id), NodeKey(EntityGroup, documents[i].entityIds[j]))
    ensures |EdgesOf(documents)| == Links(documents)
    decreases |documents|
  {
    if documents != [] {
      var n := |documents| - 1;
      var init := documents[..n];
      var d := documents[n];
      EdgesOfSpec(init);
      DocumentEdgesSpec(d.item.id, d.entityIds);
      assert forall i :: 0 <= i < n ==> init[i] == documents[i];
      forall e | e in EdgesOf(documents)
        ensures exists i, j ::
          0 <= i < |documents| && 0 <= j < |documents[i].entityIds| && e == Edge(NodeKey(DocumentGroup, documents[i].item.id), NodeKey(EntityGroup, documents[i].entityIds[j]))
      {
        if e !in EdgesOf(init) {
          var j :| 0 <= j < |d.entityIds| && DocumentEdges(d.item.id, d.entityIds)[j] == e;
        }
      }
      forall i, j | 0 <= i < |documents| && 0 <= j < |documents[i].entityIds|
        ensures Edge(NodeKey(DocumentGroup, documents[i].item.id), NodeKey(EntityGroup, documents[i].entityIds[j])) in EdgesOf(documents)
      {
        if i == n {
          assert DocumentEdges(d.item.id, d.entityIds)[j] == Edge(NodeKey(DocumentGroup, documents[i].item.id), NodeKey(EntityGroup, documents[i].entityIds[j]));
        }
      }
    }
  }

  /** The number of (document, entity in its list) pairs. */
  function Links(documents: seq<DocumentItem>): nat
  {
    if documents == [] then 0 else Links(documents[..|documents| - 1]) + |documents[|documents| - 1].entityIds|
  }

  lemma CountAppend(edges: seq<Edge>, e: Edge, s: NodeKey)
    ensures Count(edges + [e], s) == Count(edges, s) + (if e.source == s then 1 else 0) + (if e.target == s then 1 else 0)
  {
    assert (edges + [e])[..|edges|] == edges;
  }

  // ---------------------------------------------------------------------------
  // The degree sum

  /** How many nodes have id s. */
  function Occurrences(nodes: seq<Node>, s: NodeKey): nat
  {
    if nodes == [] then 0 else Occurrences(nodes[..|nodes| - 1], s) + (if nodes[|nodes| - 1].key == s then 1 else 0)
  }

  function SumOfDegrees(nodes: seq<Node>): int
  {
    if nodes == [] then 0 else SumOfDegrees(nodes[..|nodes| - 1]) + nodes[|nodes| - 1].degree
  }

  /** The edge ends at the nodes' ids, node by node. */
  function EndsAt(nodes: seq<Node>, edges: seq<Edge>): nat
  {
    if nodes == [] then 0 else EndsAt(nodes[..|nodes| - 1], edges) + Count(edges, nodes[|nodes| - 1].key)
  }

  /** One more edge adds, at the nodes, the nodes carrying its source plus those carrying its target. */
  lemma {:induction false} EndsAtAppend(nodes: seq<Node>, edges: seq<Edge>, e: Edge)
    ensures EndsAt(nodes, edges + [e]) == EndsAt(nodes, edges) + Occurrences(nodes, e.source) + Occurrences(nodes, e.target)
    decreases |nodes|
  {
    if nodes != [] {
      EndsAtAppend(nodes[..|nodes| - 1], edges, e);
      CountAppend(edges, e, nodes[|nodes| - 1].key);
    }
  }

  /** A node id that occurs once among distinct ids. */
  lemma {:induction false} OccursOnce(nodes: seq<Node>, s: NodeKey)
    requires forall i, j :: 0 <= i < j < |nodes| ==> nodes[i].key != nodes[j].key
    ensures Occurrences(nodes, s) == if s in Ids(nodes) then 1 else 0
    decreases |nodes|
  {
    if nodes != [] {
      var init := nodes[..|nodes| - 1];
      OccursOnce(init, s);
      assert forall n :: n in nodes <==> n in init || n == nodes[|nodes| - 1];
      if nodes[|nodes| - 1].key == s {
        assert s !in Ids(init);
      }
    }
  }

  /** When every edge end is one node's id, the edge ends at the nodes are twice the edges. */
  lemma {:induction false} EndsAtTwiceEdges(nodes: seq<Node>, edges: seq<Edge>)
    requires forall i, j :: 0 <= i < j < |nodes| ==> nodes[i].key != nodes[j].key
    requires forall e :: e in edges ==> e.source in Ids(nodes) && e.target in Ids(nodes)
    ensures EndsAt(nodes, edges) == 2 * |edges|
    decreases |edges|
  {
    if edges == [] {
      EndsAtNone(nodes);
    } else {
      var init := edges[..|edges| - 1];
      var e := edges[|edges| - 1];
      assert edges == init + [e];
      EndsAtTwiceEdges(nodes, init);
      EndsAtAppend(nodes, init, e);
      OccursOnce(nodes, e.source);
      OccursOnce(nodes, e.target);
    }
  }

  lemma {:induction false} EndsAtNone(nodes: seq<Node>)
    ensures EndsAt(nodes, []) == 0
    decreases |nodes|
  {
    if nodes != [] {
      EndsAtNone(nodes[..|nodes| - 1]);
    }
  }

  lemma {:induction false} SumOfFinalDegrees(nodes: seq<Node>, edges: seq<Edge>)
    ensures SumOfDegrees(FinalNodes(nodes, edges)) == EndsAt(nodes, edges)
    decreases |nodes|
  {
    if nodes != [] {
      var init := nodes[..|nodes| - 1];
      SumOfFinalDegrees(init, edges);
      var f := FinalNodes(nodes, edges);
      assert f[..|f| - 1] == FinalNodes(init, edges);
    }
  }

  /**
   * With distinct node ids and every edge end a node, the final degrees add
   * up to twice the number of edges.
   */
  lemma DegreeSum(nodes: seq<Node>, edges: seq<Edge>)
    requires forall i, j :: 0 <= i < j < |nodes| ==> nodes[i].key != nodes[j].key
    requires forall e :: e in edges ==> e.source in Ids(nodes) && e.target in Ids(nodes)
    ensures SumOfDegrees(FinalNodes(nodes, edges)) == 2 * |edges|
  {
    SumOfFinalDegrees(nodes, edges);
    EndsAtTwiceEdges(nodes, edges);
  }

  // ---------------------------------------------------------------------------
  // get_node_edge_graph_data

  /** The nodes' ids of two lists together. */
  lemma {:induction false} IdsAppend(a: seq<Node>, b: seq<Node>)
    ensures Ids(a + b) == Ids(a) + Ids(b)
  {
    assert forall n :: n in a + b <==> n in a || n in b;
  }

  /** Every document has a node among the nodes built from the documents first. */
  lemma DocumentNodes(documents: seq<DocumentItem>)
    ensures forall i :: 0 <= i < |documents| ==>
      NodeKey(DocumentGroup, documents[i].item.id) in Ids(NodesFor(DocumentGroup, DocumentItems(documents)))
  {
    var built := NodesFor(DocumentGroup, DocumentItems(documents));
    NodesForSpec(DocumentGroup, DocumentItems(documents));
    forall i | 0 <= i < |documents|
      ensures NodeKey(DocumentGroup, documents[i].item.id) in Ids(built)
    {
      assert built[i] == NewNode(DocumentGroup, documents[i].item);
    }
  }

  /** A document's edges all end at the given ids exactly when the nodes of all its entities are among them. */
  lemma DocumentEdgeTargets(documentId: int, entityIds: seq<int>, keys: set<NodeKey>)
    ensures (forall e :: e in DocumentEdges(documentId, entityIds) ==> e.target in keys) <==>
      (forall k :: 0 <= k < |entityIds| ==> NodeKey(EntityGroup, entityIds[k]) in keys)
  {
    DocumentEdgesSpec(documentId, entityIds);
    var edges := DocumentEdges(documentId, entityIds);
    if forall k :: 0 <= k < |entityIds| ==> NodeKey(EntityGroup, entityIds[k]) in keys {
      forall e | e in edges
        ensures e.target in keys
      {
        var k :| 0 <= k < |edges| && edges[k] == e;
      }
    }
  }

  /** Nodes whose degrees are the edge-end counts at their ids are the final nodes. */
  lemma FinalNodesPointwise(nodes: seq<Node>, edges: seq<Edge>, nodes': seq<Node>)
    requires |nodes'| == |nodes|
    requires forall k :: 0 <= k < |nodes| ==> nodes'[k] == nodes[k].(degree := Count(edges, nodes[k].key))
    ensures nodes' == FinalNodes(nodes, edges)
  {
    FinalNodesSpec(nodes, edges);
  }

  /** `node_degrees` over the given node ids once the edges are in: each entry the number of edge ends at its node. */
  function Degrees(keys: set<NodeKey>, edges: seq<Edge>): map<NodeKey, int>
  {
    map s | s in keys :: Count(edges, s)
  }

  /** `node_degrees[source_id] += 1; node_degrees[target_id] += 1`. */
  function Raise(counts: map<NodeKey, int>, e: Edge): map<NodeKey, int>
    requires e.source in counts && e.target in counts
  {
    var raised := counts[e.source := counts[e.source] + 1];
    raised[e.target := raised[e.target] + 1]
  }

  /** Raising both ends of an appended edge keeps every entry the edge-end count of its node. */
  lemma RaiseDegrees(keys: set<NodeKey>, edges: seq<Edge>, e: Edge)
    requires e.source in keys && e.target in keys
    ensures Raise(Degrees(keys, edges), e) == Degrees(keys, edges + [e])
  {
    forall s | s in keys
      ensures Raise(Degrees(keys, edges), e)[s] == Count(edges + [e], s)
    {
      CountAppend(edges, e, s);
    }
  }

  /** The edges of a document with one more entity: one more edge, to that entity's node. */
  lemma DocumentEdgesStep(documentId: int, entityIds: seq<int>, j: nat)
    requires j < |entityIds|
    ensures DocumentEdges(documentId, entityIds[..j + 1]) ==
      DocumentEdges(documentId, entityIds[..j]) + [Edge(NodeKey(DocumentGroup, documentId), NodeKey(EntityGroup, entityIds[j]))]
  {
    assert entityIds[..j + 1][..j] == entityIds[..j];
  }

  lemma DocumentEdgeAt(documentId: int, entityIds: seq<int>, j: nat)
    requires j < |entityIds|
    ensures Edge(NodeKey(DocumentGroup, documentId), NodeKey(EntityGroup, entityIds[j])) in DocumentEdges(documentId, entityIds)
  {
    DocumentEdgesSpec(documentId, entityIds);
    assert DocumentEdges(documentId, entityIds)[j] == Edge(NodeKey(DocumentGroup, documentId), NodeKey(EntityGroup, entityIds[j]));
  }

  /** Entering one more node in `node_degrees` at 0 keeps every entry 0. */
  lemma NewNodeDegree(nodes: seq<Node>, node: Node)
    ensures Degrees(Ids(nodes + [node]), []) == Degrees(Ids(nodes), [])[node.key := 0]
  {
    IdsAppend(nodes, [node]);
    assert Ids([node]) == {node.key};
  }

  /** One of the node loops: a node of degree 0 per record appended, and its id entered in `node_degrees` at 0. */
  method AddNodes(nodes: seq<Node>, degrees: map<NodeKey, int>, g: Group, items: seq<Item>)
    returns (nodes': seq<Node>, degrees': map<NodeKey, int>)
    requires degrees == Degrees(Ids(nodes), [])
    ensures nodes' == nodes + NodesFor(g, items)
    ensures degrees' == Degrees(Ids(nodes'), [])
    ensures Ids(nodes') == Ids(nodes) + Ids(NodesFor(g, items))
  {
    nodes', degrees' := nodes, degrees;
    var i := 0;
    while i < |items|
      invariant 0 <= i <= |items|
      invariant nodes' == nodes + NodesFor(g, items[..i])
      invariant degrees' == Degrees(Ids(nodes'), [])
    {
      var node := Node(NodeKey(g, items[i].id), items[i].labelText, 0);
      NewNodeDegree(nodes', node);
      nodes' := nodes' + [node];
      degrees' := degrees'[node.key := 0];
      assert items[..i + 1][..i] == items[..i];
      i := i + 1;
    }
    assert items[..i] == items;
    IdsAppend(nodes, NodesFor(g, items));
  }

  /**
   * The nested edge loop, from `node_degrees` holding every node at 0: an
   * edge appended per (document, entity), both ends' counts raised by one;
   * a target that is no node raises KeyError.
   */
  method AddEdges(documents: seq<DocumentItem>, degrees: map<NodeKey, int>)
    returns (r: Result<(seq<Edge>, map<NodeKey, int>), GraphError>)
    requires forall i :: 0 <= i < |documents| ==> NodeKey(DocumentGroup, documents[i].item.id) in degrees
    requires degrees == Degrees(degrees.Keys, [])
    ensures r.Ok? <==> forall e :: e in EdgesOf(documents) ==> e.target in degrees
    ensures r.Ok? ==> r.value == (EdgesOf(documents), Degrees(degrees.Keys, EdgesOf(documents)))
    ensures r.Err? ==> r.error.id !in degrees && exists e :: e in EdgesOf(documents) && e.target == r.error.id
  {
    var edges: seq<Edge> := [];
    var counts := degrees;
    var i := 0;
    while i < |documents|
      invariant 0 <= i <= |documents|
      invariant edges == EdgesOf(documents[..i])
      invariant counts == Degrees(degrees.Keys, edges)
      invariant forall e :: e in edges ==> e.target in degrees
    {
      var step := AddDocumentEdges(documents[i].item.id, documents[i].entityIds, edges, counts);
      EdgesOfStep(documents, i);
      if step.Err? {
        EdgesOfAppend(documents[..i + 1], documents[i + 1..]);
        assert documents[..i + 1] + documents[i + 1..] == documents;
        return Err(step.error);
      }
      edges, counts := step.value.0, step.value.1;
      i := i + 1;
    }
    assert documents[..i] == documents;
    r := Ok((edges, counts));
  }

  /** The inner loop over one document's entities. */
  method AddDocumentEdges(documentId: int, entityIds: seq<int>, edges: seq<Edge>, counts: map<NodeKey, int>)
    returns (r: Result<(seq<Edge>, map<NodeKey, int>), GraphError>)
    requires NodeKey(DocumentGroup, documentId) in counts
    requires counts == Degrees(counts.Keys, edges)
    ensures r.Ok? <==> forall e :: e in DocumentEdges(documentId, entityIds) ==> e.target in counts
    ensures r.Ok? ==>
      var edges' := edges + DocumentEdges(documentId, entityIds);
      r.value == (edges', Degrees(counts.Keys, edges'))
    ensures r.Err? ==> r.error.id !in counts && exists e :: e in DocumentEdges(documentId, entityIds) && e.target == r.error.id
  {
    var edges', counts' := edges, counts;
    var j := 0;
    while j < |entityIds|
      invariant 0 <= j <= |entityIds|
      invariant edges' == edges + DocumentEdges(documentId, entityIds[..j])
      invariant counts' == Degrees(counts.Keys, edges')
      invariant forall k :: 0 <= k < j ==> NodeKey(EntityGroup, entityIds[k]) in counts
    {
      var e := Edge(NodeKey(DocumentGroup, documentId), NodeKey(EntityGroup, entityIds[j]));
      DocumentEdgesStep(documentId, entityIds, j);
      if e.target !in counts' {
        DocumentEdgeAt(documentId, entityIds, j);
        return Err(UnknownNode(e.target));
      }
      RaiseDegrees(counts.Keys, edges', e);
      edges', counts' := edges' + [e], Raise(counts', e);
      j := j + 1;
    }
    assert entityIds[..j] == entityIds;
    DocumentEdgeTargets(documentId, entityIds, counts.Keys);
    r := Ok((edges', counts'));
  }

  /** The last loop: each node's degree read from `node_degrees` by its id. */
  method SetDegrees(nodes: seq<Node>, degrees: map<NodeKey, int>) returns (nodes': seq<Node>)
    requires forall k :: 0 <= k < |nodes| ==> nodes[k].key in degrees
    ensures |nodes'| == |nodes|
    ensures forall k :: 0 <= k < |nodes| ==> nodes'[k] == nodes[k].(degree := degrees[nodes[k].key])
  {
    nodes' := nodes;
    var k := 0;
    while k < |nodes'|
      invariant 0 <= k <= |nodes'| && |nodes'| == |nodes|
      invariant forall m :: 0 <= m < k ==> nodes'[m] == nodes[m].(degree := degrees[nodes[m].key])
      invariant forall m :: k <= m < |nodes| ==> nodes'[m] == nodes[m]
    {
      nodes' := nodes'[k := nodes'[k].(degree := degrees[nodes'[k].key])];
      k := k + 1;
    }
  }

  /**
   * `get_node_edge_graph_data` after the four reads: the nodes of the
   * documents, topics, entities and stakeholders in that order, one edge per
   * document-entity link, and each node's degree the number of edge ends at
   * it. It raises KeyError exactly when a document lists an entity that has
   * no node.
   */
  method NodeEdgeGraph(documents: seq<DocumentItem>, topics: seq<Item>, entities: seq<Item>, stakeholders: seq<Item>)
    returns (r: Result<GraphData, GraphError>)
    ensures var initial := InitialNodes(documents, topics, entities, stakeholders);
      && (r.Ok? <==> forall e :: e in EdgesOf(documents) ==> e.target in Ids(initial))
      && (r.Ok? ==> r.value.edges == EdgesOf(documents) && r.value.nodes == FinalNodes(initial, EdgesOf(documents)))
      && (r.Err? ==> r.error.id !in Ids(initial) && exists e :: e in EdgesOf(documents) && e.target == r.error.id)
  {
    var initial, degrees := BuildNodes(documents, topics, entities, stakeholders);
    var built := AddEdges(documents, degrees);
    if built.Err? {
      return Err(built.error);
    }
    var edges, counts := built.value.0, built.value.1;
    assert forall k :: 0 <= k < |initial| ==> initial[k].key in Ids(initial);
    var nodes := SetDegrees(initial, counts);
    FinalNodesPointwise(initial, edges, nodes);
    r := Ok(GraphData(nodes, edges));
  }

  /** The four node loops, one group after another. */
  method BuildNodes(documents: seq<DocumentItem>, topics: seq<Item>, entities: seq<Item>, stakeholders: seq<Item>)
    returns (nodes: seq<Node>, degrees: map<NodeKey, int>)
    ensures nodes == InitialNodes(documents, topics, entities, stakeholders)
    ensures degrees == Degrees(Ids(nodes), [])
    ensures forall i :: 0 <= i < |documents| ==> NodeKey(DocumentGroup, documents[i].item.id) in degrees
  {
    nodes, degrees := AddNodes([], map[], DocumentGroup, DocumentItems(documents));
    assert [] + NodesFor(DocumentGroup, DocumentItems(documents)) == NodesFor(DocumentGroup, DocumentItems(documents));
    DocumentNodes(documents);
    ghost var documentKeys := Ids(nodes);
    nodes, degrees := AddNodes(nodes, degrees, TopicGroup, topics);
    nodes, degrees := AddNodes(nodes, degrees, EntityGroup, entities);
    nodes, degrees := AddNodes(nodes, degrees, StakeholderGroup, stakeholders);
    assert documentKeys <= Ids(nodes);
  }

  /** Every edge starts at the node of a listed document. */
  lemma EdgeSources(documents: seq<DocumentItem>, topics: seq<Item>, entities: seq<Item>, stakeholders: seq<Item>)
    ensures forall e :: e in EdgesOf(documents) ==> e.source in Ids(InitialNodes(documents, topics, entities, stakeholders))
  {
    var documentNodes := NodesFor(DocumentGroup, DocumentItems(documents));
    var rest := NodesFor(TopicGroup, topics) + NodesFor(EntityGroup, entities) + NodesFor(StakeholderGroup, stakeholders);
    assert InitialNodes(documents, topics, entities, stakeholders) == documentNodes + rest;
    IdsAppend(documentNodes, rest);
    DocumentNodes(documents);
    EdgesOfSpec(documents);
  }

  /**
   * When the records of each kind have distinct ids and no document lists an
   * entity without a node, the degrees of the returned nodes add up to twice
   * the number of document-entity links.
   */
  lemma GraphDegreeSum(documents: seq<DocumentItem>, topics: seq<Item>, entities: seq<Item>, stakeholders: seq<Item>)
    requires var initial := InitialNodes(documents, topics, entities, stakeholders);
      forall i, j :: 0 <= i < j < |initial| ==> initial[i].key != initial[j].key
    requires forall e :: e in EdgesOf(documents) ==> e.target in Ids(InitialNodes(documents, topics, entities, stakeholders))
    ensures SumOfDegrees(FinalNodes(InitialNodes(documents, topics, entities, stakeholders), EdgesOf(documents))) == 2 * Links(documents)
  {
    EdgeSources(documents, topics, entities, stakeholders);
    EdgesOfSpec(documents);
    DegreeSum(InitialNodes(documents, topics, entities, stakeholders), EdgesOf(documents));
  }
}
