/** Layouts: each rewrites the coordinates of a built graph's nodes in place
    and nothing else.  The hierarchical layout puts entities, concepts and
    attributes in three horizontal bands; the force layout leaves placement
    to the renderer; the circular layout spreads all nodes round a circle. */
module Layout {
  import opened Strings
  import opened Config
  import opened Graph
  import opened GraphBuilder

  // ---------------------------------------------------------------------------
  // Bands

  function Types(nodes: seq<GraphNode>): (types: seq<NodeType>)
    ensures |types| == |nodes|
  {
    seq(|nodes|, k requires 0 <= k < |nodes| => nodes[k].nodeType)
  }

  /** How many of `types` are `t`. */
  function CountOf(types: seq<NodeType>, t: NodeType): nat {
    if types == [] then 0
    else CountOf(types[..|types| - 1], t) + (if types[|types| - 1] == t then 1 else 0)
  }

  /** The positions holding `t`, in order: the band the first pass of the
      hierarchical layout collects. */
  function IndicesOf(types: seq<NodeType>, t: NodeType): seq<nat> {
    if types == [] then []
    else IndicesOf(types[..|types| - 1], t) + (if types[|types| - 1] == t then [|types| - 1] else [])
  }

  /** The band of `t` lists every position holding `t` exactly once, in
      order: its `i`-th entry is the position with `i` earlier `t`s. */
  lemma {:induction false} IndicesOfFacts(types: seq<NodeType>, t: NodeType)
    ensures |IndicesOf(types, t)| == CountOf(types, t)
    ensures forall i :: 0 <= i < |IndicesOf(types, t)| ==>
      IndicesOf(types, t)[i] < |types| && types[IndicesOf(types, t)[i]] == t &&
      CountOf(types[..IndicesOf(types, t)[i]], t) == i
    ensures forall k :: 0 <= k < |types| && types[k] == t ==>
      CountOf(types[..k], t) < |IndicesOf(types, t)| && IndicesOf(types, t)[CountOf(types[..k], t)] == k
  {
    if types != [] {
      var n := |types| - 1;
      var init := types[..n];
      IndicesOfFacts(init, t);
      var band := IndicesOf(types, t);
      forall i | 0 <= i < |band|
        ensures band[i] < |types| && types[band[i]] == t && CountOf(types[..band[i]], t) == i
      {
        if i < |IndicesOf(init, t)| {
          assert band[i] == IndicesOf(init, t)[i];
          assert types[..band[i]] == init[..band[i]];
        } else {
          assert band[i] == n && types[..n] == init;
        }
      }
      forall k | 0 <= k < |types| && types[k] == t
        ensures CountOf(types[..k], t) < |band| && band[CountOf(types[..k], t)] == k
      {
        if k < n {
          assert types[..k] == init[..k];
        } else {
          assert types[..k] == init;
        }
      }
    }
  }

  /** The height of a band. */
  function BandY(t: NodeType): real
    requires t != RelationshipNode
  {
    match t
    case EntityNode => -200.0
    case ConceptNode => 0.0
    case AttributeNode => 200.0
  }

  /** The x of the `rank`-th of `count` nodes of a band. */
  function BandX(rank: nat, count: nat, spacing: real): real {
    (rank as real - count as real / 2.0) * spacing
  }

  /** The `rank`-th of `count` nodes of a band at height `y`. */
  function Placed(node: GraphNode, rank: nat, count: nat, spacing: real, y: real): GraphNode {
    node.(x := Some(BandX(rank, count, spacing)), y := Some(y))
  }

  /** How many nodes of its own type come before node `k`. */
  function Rank(nodes: seq<GraphNode>, k: nat): nat
    requires k < |nodes|
  {
    CountOf(Types(nodes)[..k], nodes[k].nodeType)
  }

  /** Node `k` once the band of `t` is placed at height `y`. */
  function BandNode(nodes: seq<GraphNode>, k: nat, t: NodeType, y: real, spacing: real): GraphNode
    requires k < |nodes|
  {
    if nodes[k].nodeType == t then Placed(nodes[k], Rank(nodes, k), CountOf(Types(nodes), t), spacing, y)
    else nodes[k]
  }

  /** The nodes after the band of `t` is placed at height `y`. */
  function BandPlaced(nodes: seq<GraphNode>, t: NodeType, y: real, spacing: real): seq<GraphNode> {
    seq(|nodes|, k requires 0 <= k < |nodes| => BandNode(nodes, k, t, y, spacing))
  }

  /** Node `k` after the hierarchical layout. */
  function HierarchicalNode(nodes: seq<GraphNode>, k: nat, spacing: real): GraphNode
    requires k < |nodes|
  {
    var t := nodes[k].nodeType;
    if t == RelationshipNode then nodes[k]
    else Placed(nodes[k], Rank(nodes, k), CountOf(Types(nodes), t), spacing, BandY(t))
  }

  /** The nodes after the hierarchical layout: every entity, concept and
      attribute node placed in its band by its rank among the nodes of its
      type; relationship nodes untouched. */
  function Hierarchical(nodes: seq<GraphNode>, spacing: real): seq<GraphNode> {
    seq(|nodes|, k requires 0 <= k < |nodes| => HierarchicalNode(nodes, k, spacing))
  }

  // ---------------------------------------------------------------------------
  // The hierarchical layout

  /** The first pass: the positions of the entity, concept and attribute
      nodes, each in node order. */
  method Partition(nodes: seq<GraphNode>) returns (entityNodes: seq<nat>, conceptNodes: seq<nat>, attributeNodes: seq<nat>)
    ensures entityNodes == IndicesOf(Types(nodes), EntityNode)
    ensures conceptNodes == IndicesOf(Types(nodes), ConceptNode)
    ensures attributeNodes == IndicesOf(Types(nodes), AttributeNode)
  {
    entityNodes, conceptNodes, attributeNodes := [], [], [];
    ghost var types := Types(nodes);
    for k := 0 to |nodes|
      invariant entityNodes == IndicesOf(types[..k], EntityNode)
      invariant conceptNodes == IndicesOf(types[..k], ConceptNode)
      invariant attributeNodes == IndicesOf(types[..k], AttributeNode)
    {
      PrefixSnoc(types, k);
      match nodes[k].nodeType
      case EntityNode => entityNodes := entityNodes + [k];
      case ConceptNode => conceptNodes := conceptNodes + [k];
      case AttributeNode => attributeNodes := attributeNodes + [k];
      case RelationshipNode =>
    }
    assert types[..|nodes|] == types;
  }

  /** Placing a band changes coordinates only, so no type moves. */
  lemma BandPlacedTypes(nodes: seq<GraphNode>, t: NodeType, y: real, spacing: real)
    ensures Types(BandPlaced(nodes, t, y, spacing)) == Types(nodes)
  {
  }

  /** The nodes of the band of `t` ranked below `i` are placed, every other
      node is as it was. */
  predicate PlacedBelow(nodes0: seq<GraphNode>, nodes: seq<GraphNode>, t: NodeType, y: real, spacing: real, i: nat) {
    |nodes| == |nodes0| &&
    forall k :: 0 <= k < |nodes0| ==>
      nodes[k] == (if nodes0[k].nodeType == t && Rank(nodes0, k) < i then BandNode(nodes0, k, t, y, spacing) else nodes0[k])
  }

  /** Placing the `i`-th node of the band places the nodes ranked below
      `i + 1`. */
  lemma PlaceStep(nodes0: seq<GraphNode>, nodes: seq<GraphNode>, t: NodeType, y: real, spacing: real, i: nat)
    requires PlacedBelow(nodes0, nodes, t, y, spacing, i)
    requires i < |IndicesOf(Types(nodes0), t)|
    ensures IndicesOf(Types(nodes0), t)[i] < |nodes|
    ensures PlacedBelow(nodes0, nodes[IndicesOf(Types(nodes0), t)[i] :=
      Placed(nodes[IndicesOf(Types(nodes0), t)[i]], i, CountOf(Types(nodes0), t), spacing, y)], t, y, spacing, i + 1)
  {
    IndicesOfFacts(Types(nodes0), t);
  }

  /** Once every rank is past, the whole band is placed. */
  lemma PlacedAll(nodes0: seq<GraphNode>, nodes: seq<GraphNode>, t: NodeType, y: real, spacing: real)
    requires PlacedBelow(nodes0, nodes, t, y, spacing, |IndicesOf(Types(nodes0), t)|)
    ensures nodes == BandPlaced(nodes0, t, y, spacing)
  {
    IndicesOfFacts(Types(nodes0), t);
  }

  /** Positions every node of one band: the `i`-th of `n` gets
      x = (i - n/2) times the spacing, and the band's height. */
  method PlaceBand(graph: InteractiveGraph, band: seq<nat>, t: NodeType, y: real, spacing: real)
    requires band == IndicesOf(Types(graph.nodes), t)
    modifies graph
    ensures graph.nodes == BandPlaced(old(graph.nodes), t, y, spacing)
    ensures graph.edges == old(graph.edges) && graph.config == old(graph.config) && graph.metadata == old(graph.metadata)
  {
    ghost var nodes0 := graph.nodes;
    IndicesOfFacts(Types(nodes0), t);
    var count := |band|;
    for i := 0 to |band|
      invariant PlacedBelow(nodes0, graph.nodes, t, y, spacing, i)
      invariant graph.edges == old(graph.edges) && graph.config == old(graph.config) && graph.metadata == old(graph.metadata)
    {
      PlaceStep(nodes0, graph.nodes, t, y, spacing, i);
      var k := band[i];
      graph.nodes := graph.nodes[k := Placed(graph.nodes[k], i, count, spacing, y)];
    }
    PlacedAll(nodes0, graph.nodes, t, y, spacing);
  }

  /** Placing the three bands one after the other is the hierarchical
      layout. */
  lemma ThreeBands(nodes: seq<GraphNode>, spacing: real)
    ensures BandPlaced(BandPlaced(BandPlaced(nodes, EntityNode, -200.0, spacing), ConceptNode, 0.0, spacing),
                       AttributeNode, 200.0, spacing) == Hierarchical(nodes, spacing)
  {
    var one := BandPlaced(nodes, EntityNode, -200.0, spacing);
    var two := BandPlaced(one, ConceptNode, 0.0, spacing);
    BandPlacedTypes(nodes, EntityNode, -200.0, spacing);
    BandPlacedTypes(one, ConceptNode, 0.0, spacing);
  }

  /** `apply_hierarchical_layout`. */
  method ApplyHierarchicalLayout(b: Builder, graph: InteractiveGraph)
    modifies graph
    ensures graph.nodes == Hierarchical(old(graph.nodes), b.config.layout.spacing)
    ensures graph.edges == old(graph.edges) && graph.config == old(graph.config) && graph.metadata == old(graph.metadata)
  {
    ghost var nodes0 := graph.nodes;
    var spacing := b.config.layout.spacing;
    var entityNodes, conceptNodes, attributeNodes := Partition(graph.nodes);
    PlaceBand(graph, entityNodes, EntityNode, -200.0, spacing);
    BandPlacedTypes(nodes0, EntityNode, -200.0, spacing);
    ghost var nodes1 := graph.nodes;
    PlaceBand(graph, conceptNodes, ConceptNode, 0.0, spacing);
    BandPlacedTypes(nodes1, ConceptNode, 0.0, spacing);
    PlaceBand(graph, attributeNodes, AttributeNode, 200.0, spacing);
    ThreeBands(nodes0, spacing);
  }

  // ---------------------------------------------------------------------------
  // The other layouts and the dispatch

  /** `apply_force_layout`: placement is left to the renderer. */
  method ApplyForceLayout(graph: InteractiveGraph)
    ensures graph.nodes == old(graph.nodes)
  {
  }

  /** A node put at the point of radius 300 in the direction (cos, sin). */
  function OnCircle(node: GraphNode, direction: (real, real)): GraphNode {
    node.(x := Some(300.0 * direction.0), y := Some(300.0 * direction.1))
  }

  /** The nodes after the circular layout; `unit(i, n)` stands for the
      cosine and sine of `i` times a `n`-th of a full turn. */
  function Circular(nodes: seq<GraphNode>, unit: (nat, nat) -> (real, real)): seq<GraphNode> {
    if |nodes| == 0 then nodes
    else seq(|nodes|, k requires 0 <= k < |nodes| => OnCircle(nodes[k], unit(k, |nodes|)))
  }

  /** `apply_circular_layout`. */
  method ApplyCircularLayout(graph: InteractiveGraph, unit: (nat, nat) -> (real, real))
    modifies graph
    ensures graph.nodes == Circular(old(graph.nodes), unit)
    ensures graph.edges == old(graph.edges) && graph.config == old(graph.config) && graph.metadata == old(graph.metadata)
  {
    var nodeCount := |graph.nodes|;
    if nodeCount == 0 {
      return;
    }
    ghost var nodes0 := graph.nodes;
    for i := 0 to nodeCount
      invariant |graph.nodes| == nodeCount
      invariant forall k :: 0 <= k < nodeCount ==>
        graph.nodes[k] == (if k < i then Circular(nodes0, unit)[k] else nodes0[k])
      invariant graph.edges == old(graph.edges) && graph.config == old(graph.config) && graph.metadata == old(graph.metadata)
    {
      var (c, s) := unit(i, nodeCount);
      graph.nodes := graph.nodes[i := graph.nodes[i].(x := Some(300.0 * c), y := Some(300.0 * s))];
    }
  }

  /** What `apply_layout` does with the algorithm named in the
      configuration: any name but "hierarchical" and "circular" falls back
      to the force layout. */
  function Laid(algorithm: string, spacing: real, nodes: seq<GraphNode>, unit: (nat, nat) -> (real, real)): seq<GraphNode> {
    if algorithm == "hierarchical" then Hierarchical(nodes, spacing)
    else if algorithm == "circular" then Circular(nodes, unit)
    else nodes
  }

  /** `apply_layout`; it never fails. */
  method ApplyLayout(b: Builder, graph: InteractiveGraph, unit: (nat, nat) -> (real, real)) returns (r: Result<()>)
    modifies graph
    ensures r.Ok?
    ensures graph.nodes == Laid(b.config.layout.algorithm, b.config.layout.spacing, old(graph.nodes), unit)
    ensures graph.edges == old(graph.edges) && graph.config == old(graph.config) && graph.metadata == old(graph.metadata)
  {
    var algorithm := b.config.layout.algorithm;
    if algorithm == "hierarchical" {
      ApplyHierarchicalLayout(b, graph);
    } else if algorithm == "circular" {
      ApplyCircularLayout(graph, unit);
    } else {
      ApplyForceLayout(graph);
    }
    return Ok(());
  }

  // ---------------------------------------------------------------------------
  // Properties

  /** Only coordinates change: every layout keeps the number of nodes and
      each node's identifier, type and everything else; the force layout
      and unknown names keep the nodes as they are, and so does the
      circular layout of an empty graph. */
  lemma LayoutKeepsNodes(algorithm: string, spacing: real, nodes: seq<GraphNode>, unit: (nat, nat) -> (real, real))
    ensures |Laid(algorithm, spacing, nodes, unit)| == |nodes|
    ensures forall k :: 0 <= k < |nodes| ==>
      Laid(algorithm, spacing, nodes, unit)[k] ==
        nodes[k].(x := Laid(algorithm, spacing, nodes, unit)[k].x, y := Laid(algorithm, spacing, nodes, unit)[k].y)
    ensures algorithm != "hierarchical" && algorithm != "circular" ==> Laid(algorithm, spacing, nodes, unit) == nodes
    ensures |nodes| == 0 ==> Laid(algorithm, spacing, nodes, unit) == nodes
    ensures NodeIds(Laid(algorithm, spacing, nodes, unit)) == NodeIds(nodes)
  {
    var laid := Laid(algorithm, spacing, nodes, unit);
    forall k | 0 <= k < |nodes| ensures laid[k] == nodes[k].(x := laid[k].x, y := laid[k].y) {
      if algorithm == "hierarchical" {
        assert laid[k] == HierarchicalNode(nodes, k, spacing);
      } else if algorithm == "circular" {
        assert laid[k] == OnCircle(nodes[k], unit(k, |nodes|));
      }
    }
    forall id | id in NodeIds(nodes) ensures id in NodeIds(laid) {
      var n :| n in nodes && n.id == id;
      var k :| 0 <= k < |nodes| && nodes[k] == n;
      assert laid[k] in laid;
    }
    forall id | id in NodeIds(laid) ensures id in NodeIds(nodes) {
      var n :| n in laid && n.id == id;
      var k :| 0 <= k < |laid| && laid[k] == n;
      assert nodes[k] in nodes;
    }
  }

  /** Entities sit at y = -200, concepts at 0 and attributes at 200, each
      with an x; relationship nodes keep their coordinates. */
  lemma HierarchicalBands(nodes: seq<GraphNode>, spacing: real)
    ensures forall k :: 0 <= k < |nodes| && nodes[k].nodeType == EntityNode ==>
      Hierarchical(nodes, spacing)[k].y == Some(-200.0) && Hierarchical(nodes, spacing)[k].x.Some?
    ensures forall k :: 0 <= k < |nodes| && nodes[k].nodeType == ConceptNode ==>
      Hierarchical(nodes, spacing)[k].y == Some(0.0) && Hierarchical(nodes, spacing)[k].x.Some?
    ensures forall k :: 0 <= k < |nodes| && nodes[k].nodeType == AttributeNode ==>
      Hierarchical(nodes, spacing)[k].y == Some(200.0) && Hierarchical(nodes, spacing)[k].x.Some?
    ensures forall k :: 0 <= k < |nodes| && nodes[k].nodeType == RelationshipNode ==>
      Hierarchical(nodes, spacing)[k] == nodes[k]
  {
  }

  /** Within a band, the node ranked next is exactly one spacing further
      right. */
  lemma HierarchicalNeighbours(nodes: seq<GraphNode>, spacing: real, j: nat, k: nat)
    requires j < |nodes| && k < |nodes| && nodes[j].nodeType == nodes[k].nodeType != RelationshipNode
    requires CountOf(Types(nodes)[..k], nodes[k].nodeType) == CountOf(Types(nodes)[..j], nodes[j].nodeType) + 1
    ensures Hierarchical(nodes, spacing)[k].x.value == Hierarchical(nodes, spacing)[j].x.value + spacing
  {
  }

  /** A band of n nodes runs from -n/2 spacings to n/2 - 1 spacings, so the
      x of its first and last nodes add up to minus one spacing: the bands
      are not centred on x = 0. */
  lemma HierarchicalOffCentre(nodes: seq<GraphNode>, spacing: real, first: nat, last: nat)
    requires first < |nodes| && last < |nodes|
    requires nodes[first].nodeType == nodes[last].nodeType != RelationshipNode
    requires Rank(nodes, first) == 0 && Rank(nodes, last) + 1 == CountOf(Types(nodes), nodes[last].nodeType)
    ensures Hierarchical(nodes, spacing)[first].x.Some? && Hierarchical(nodes, spacing)[last].x.Some?
    ensures Hierarchical(nodes, spacing)[first].x.value + Hierarchical(nodes, spacing)[last].x.value == -spacing
  {
  }

  /** Laying out twice is laying out once. */
  lemma HierarchicalIdempotent(nodes: seq<GraphNode>, spacing: real)
    ensures Hierarchical(Hierarchical(nodes, spacing), spacing) == Hierarchical(nodes, spacing)
  {
    assert Types(Hierarchical(nodes, spacing)) == Types(nodes);
  }

  /** When `unit` gives points of the unit circle, every node of a non-empty
      graph lands at distance 300 from the origin. */
  lemma CircularRadius(nodes: seq<GraphNode>, unit: (nat, nat) -> (real, real))
    requires forall i, n :: unit(i, n).0 * unit(i, n).0 + unit(i, n).1 * unit(i, n).1 == 1.0
    ensures forall k :: 0 <= k < |nodes| ==>
      Circular(nodes, unit)[k].x.Some? && Circular(nodes, unit)[k].y.Some? &&
      Circular(nodes, unit)[k].x.value * Circular(nodes, unit)[k].x.value +
      Circular(nodes, unit)[k].y.value * Circular(nodes, unit)[k].y.value == 90000.0
  {
    forall k | 0 <= k < |nodes|
      ensures Circular(nodes, unit)[k].x.value * Circular(nodes, unit)[k].x.value +
              Circular(nodes, unit)[k].y.value * Circular(nodes, unit)[k].y.value == 90000.0
    {
      var (c, s) := unit(k, |nodes|);
      assert c * c + s * s == 1.0;
      assert (300.0 * c) * (300.0 * c) + (300.0 * s) * (300.0 * s) == 90000.0 * (c * c + s * s);
    }
  }
}
