/** The interactive graph: nodes and edges ready for rendering, the metadata
    the builder records about them, and the per-type histograms it keeps. */
module Graph {
  import opened Strings
  import opened Config

  datatype NodeType = EntityNode | ConceptNode | AttributeNode | RelationshipNode

  datatype EdgeType = EntityRelationship | EntityAttribute | ConceptEntity | ConceptConcept | Hierarchy

  /** `position_in_text` keeps only the byte offsets of a mention. */
  datatype NodeMetadata = NodeMetadata(
    confidence: real,
    originalText: string,
    entityType: Option<string>,
    attributes: map<string, string>,
    positionInText: Option<(nat, nat)>)

  datatype EdgeMetadata = EdgeMetadata(confidence: real, relationshipType: string, bidirectional: bool, weight: real)

  /** A node; `x` and `y` stay unset until a layout places it. */
  datatype GraphNode = GraphNode(
    id: string,
    labelText: string,
    nodeType: NodeType,
    color: string,
    shape: string,
    size: real,
    x: Option<real>,
    y: Option<real>,
    physics: bool,
    metadata: NodeMetadata)

  datatype GraphEdge = GraphEdge(
    id: string,
    from: string,
    to: string,
    labelText: string,
    color: string,
    width: real,
    arrows: string,
    edgeType: EdgeType,
    metadata: EdgeMetadata)

  datatype GraphMetadata = GraphMetadata(
    totalNodes: nat,
    totalEdges: nat,
    nodeTypes: map<string, nat>,
    edgeTypes: map<string, nat>,
    creationTimestamp: string,
    sourceTextLength: nat)

  /** `InteractiveGraph`: built once, then handed to a layout that rewrites
      the coordinates of its nodes in place. */
  class InteractiveGraph {
    var nodes: seq<GraphNode>
    var edges: seq<GraphEdge>
    var config: GraphConfig
    var metadata: GraphMetadata

    constructor (nodes: seq<GraphNode>, edges: seq<GraphEdge>, config: GraphConfig, metadata: GraphMetadata)
      ensures this.nodes == nodes && this.edges == edges
      ensures this.config == config && this.metadata == metadata
    {
      this.nodes := nodes;
      this.edges := edges;
      this.config := config;
      this.metadata := metadata;
    }
  }

  /** The identifiers of a node list. */
  function NodeIds(nodes: seq<GraphNode>): set<string> {
    set n | n in nodes :: n.id
  }

  // ---------------------------------------------------------------------------
  // Histograms

  /** The count a histogram holds for `key`; a key never bumped reads 0. */
  function Get(h: map<string, nat>, key: string): nat {
    if key in h then h[key] else 0
  }

  /** `*h.entry(key).or_insert(0) += 1`. */
  function Bump(h: map<string, nat>, key: string): map<string, nat> {
    h[key := Get(h, key) + 1]
  }

  /** `h` after one bump per key of `keys`, in order. */
  function Tally(h: map<string, nat>, keys: seq<string>): map<string, nat> {
    if keys == [] then h else Bump(Tally(h, keys[..|keys| - 1]), keys[|keys| - 1])
  }

  /** The histogram of a key sequence. */
  function Histogram(keys: seq<string>): map<string, nat> {
    Tally(map[], keys)
  }

  function Occurrences(keys: seq<string>, key: string): nat {
    if keys == [] then 0
    else Occurrences(keys[..|keys| - 1], key) + (if keys[|keys| - 1] == key then 1 else 0)
  }

  /** Bumping once per key adds to each count the number of times the key
      occurs, and a key is present afterwards iff it was before or it occurs. */
  lemma {:induction false} TallyCounts(h: map<string, nat>, keys: seq<string>, key: string)
    ensures Get(Tally(h, keys), key) == Get(h, key) + Occurrences(keys, key)
    ensures key in Tally(h, keys) <==> key in h || Occurrences(keys, key) > 0
  {
    if keys != [] {
      TallyCounts(h, keys[..|keys| - 1], key);
    }
  }

  /** Tallying two runs of keys is tallying their concatenation. */
  lemma {:induction false} TallyAppend(h: map<string, nat>, a: seq<string>, b: seq<string>)
    ensures Tally(h, a + b) == Tally(Tally(h, a), b)
  {
    if b != [] {
      var n := |b| - 1;
      assert (a + b)[..|a + b| - 1] == a + b[..n];
      TallyAppend(h, a, b[..n]);
    } else {
      assert a + b == a;
    }
  }

  lemma {:induction false} OccurrencesAppend(a: seq<string>, b: seq<string>, key: string)
    ensures Occurrences(a + b, key) == Occurrences(a, key) + Occurrences(b, key)
  {
    if b != [] {
      var n := |b| - 1;
      assert (a + b)[..|a + b| - 1] == a + b[..n];
      OccurrencesAppend(a, b[..n], key);
    } else {
      assert a + b == a;
    }
  }

  /** When every key is one of three distinct keys, their counts add up to
      the number of keys. */
  lemma {:induction false} OccurrencesOfThree(keys: seq<string>, k1: string, k2: string, k3: string)
    requires k1 != k2 && k2 != k3 && k1 != k3
    requires forall i :: 0 <= i < |keys| ==> keys[i] == k1 || keys[i] == k2 || keys[i] == k3
    ensures Occurrences(keys, k1) + Occurrences(keys, k2) + Occurrences(keys, k3) == |keys|
    ensures forall key :: key != k1 && key != k2 && key != k3 ==> Occurrences(keys, key) == 0
  {
    if keys != [] {
      var n := |keys| - 1;
      OccurrencesOfThree(keys[..n], k1, k2, k3);
    }
  }

  /** The histogram of keys drawn from three distinct keys has only those
      keys, and its three counts add up to the number of keys. */
  lemma HistogramOfThree(keys: seq<string>, k1: string, k2: string, k3: string)
    requires k1 != k2 && k2 != k3 && k1 != k3
    requires forall i :: 0 <= i < |keys| ==> keys[i] == k1 || keys[i] == k2 || keys[i] == k3
    ensures Get(Histogram(keys), k1) + Get(Histogram(keys), k2) + Get(Histogram(keys), k3) == |keys|
    ensures forall key :: key in Histogram(keys) ==> key == k1 || key == k2 || key == k3
  {
    OccurrencesOfThree(keys, k1, k2, k3);
    TallyCounts(map[], keys, k1);
    TallyCounts(map[], keys, k2);
    TallyCounts(map[], keys, k3);
    forall key | key in Histogram(keys) ensures key == k1 || key == k2 || key == k3 {
      TallyCounts(map[], keys, key);
    }
  }

  // ---------------------------------------------------------------------------
  // Histogram keys

  /** The `node_types` key under which the builder counts a node of this
      type (relationship nodes are never built). */
  function NodeKind(t: NodeType): string {
    match t
    case EntityNode => "entity"
    case ConceptNode => "concept"
    case AttributeNode => "attribute"
    case RelationshipNode => "relationship"
  }

  /** The `edge_types` key under which the builder counts an edge of this
      type (the last two types are never built). */
  function EdgeKind(t: EdgeType): string {
    match t
    case EntityRelationship => "relationship"
    case EntityAttribute => "entity_attribute"
    case ConceptEntity => "concept_entity"
    case ConceptConcept => "concept_concept"
    case Hierarchy => "hierarchy"
  }

  function NodeKinds(nodes: seq<GraphNode>): (keys: seq<string>)
    ensures |keys| == |nodes|
  {
    seq(|nodes|, k requires 0 <= k < |nodes| => NodeKind(nodes[k].nodeType))
  }

  function EdgeKinds(edges: seq<GraphEdge>): (keys: seq<string>)
    ensures |keys| == |edges|
  {
    seq(|edges|, k requires 0 <= k < |edges| => EdgeKind(edges[k].edgeType))
  }

  /** Pushing a node and bumping its key keeps the histogram the tally of
      the pushed nodes' keys; likewise for edges. */
  lemma PushNode(h0: map<string, nat>, nodes: seq<GraphNode>, h: map<string, nat>, n: GraphNode)
    requires h == Tally(h0, NodeKinds(nodes))
    ensures Bump(h, NodeKind(n.nodeType)) == Tally(h0, NodeKinds(nodes + [n]))
  {
    assert NodeKinds(nodes + [n])[..|nodes|] == NodeKinds(nodes);
  }

  lemma PushEdge(h0: map<string, nat>, edges: seq<GraphEdge>, h: map<string, nat>, e: GraphEdge)
    requires h == Tally(h0, EdgeKinds(edges))
    ensures Bump(h, EdgeKind(e.edgeType)) == Tally(h0, EdgeKinds(edges + [e]))
  {
    assert EdgeKinds(edges + [e])[..|edges|] == EdgeKinds(edges);
  }

  lemma NodeKindsAppend(a: seq<GraphNode>, b: seq<GraphNode>)
    ensures NodeKinds(a + b) == NodeKinds(a) + NodeKinds(b)
  {
  }

  lemma EdgeKindsAppend(a: seq<GraphEdge>, b: seq<GraphEdge>)
    ensures EdgeKinds(a + b) == EdgeKinds(a) + EdgeKinds(b)
  {
  }
}
