/** The graph builder: one node per entity, per attribute not named "name"
    and per concept; one edge per such attribute, per relationship and per
    concept–entity pair judged related.  Every push of a node or edge is
    paired with one bump of the histogram key of its type. */
module GraphBuilder {
  import opened Strings
  import opened Config
  import opened ExtractionTypes
  import opened Graph

  /** `GraphBuilder`: only its configuration. */
  datatype Builder = Builder(config: GraphConfig)

  const DefaultBuilder: Builder := Builder(DefaultGraphConfig)

  // ---------------------------------------------------------------------------
  // Debug names (`format!("{:?}", ..)`)

  /** One character of a string's `Debug` text: the short escapes, then
      `\u{..}` for the characters that are not printable. */
  function DebugChar(c: char): string {
    if c == '"' then "\\\""
    else if c == '\\' then "\\\\"
    else if c == '\n' then "\\n"
    else if c == '\r' then "\\r"
    else if c == '\t' then "\\t"
    else if c == '\0' then "\\0"
    else if NotPrintable(c) then "\\u{" + LowerHex(c as nat) + "}"
    else [c]
  }

  /** The control characters: below space, delete, and the range from
      U+0080 to U+009F. */
  predicate NotPrintable(c: char) {
    c as int < 32 || 127 <= c as int <= 159
  }

  function HexDigit(d: nat): (h: char)
    requires d < 16
    ensures IsHexDigit(h) && HexDigitValue(h) == d
  {
    if d < 10 then ('0' as int + d) as char else ('a' as int + d - 10) as char
  }

  predicate IsHexDigit(h: char) {
    '0' <= h <= '9' || 'a' <= h <= 'f'
  }

  function HexDigitValue(h: char): nat
    requires IsHexDigit(h)
  {
    if h <= '9' then h as int - '0' as int else h as int - 'a' as int + 10
  }

  /** The lower-case hexadecimal digits of `n`, as `{:x}` writes them: no
      leading zero. */
  function LowerHex(n: nat): (r: string)
    ensures r != [] && (|r| > 1 ==> r[0] != '0')
    ensures forall i :: 0 <= i < |r| ==> IsHexDigit(r[i])
  {
    if n < 16 then [HexDigit(n)] else LowerHex(n / 16) + [HexDigit(n % 16)]
  }

  /** The number a string of hexadecimal digits denotes. */
  function HexValue(r: string): nat
    requires forall i :: 0 <= i < |r| ==> IsHexDigit(r[i])
  {
    if r == [] then 0 else HexValue(r[..|r| - 1]) * 16 + HexDigitValue(r[|r| - 1])
  }

  /** The digits of an escape read back to the character's code, so
      distinct characters get distinct escapes. */
  lemma {:induction false} LowerHexRoundTrip(n: nat)
    ensures HexValue(LowerHex(n)) == n
  {
    if n >= 16 {
      LowerHexRoundTrip(n / 16);
      assert LowerHex(n)[..|LowerHex(n)| - 1] == LowerHex(n / 16);
    }
  }

  /** NUL, a C0 control and delete, as `{:?}` writes them. */
  lemma DebugControlEscapes()
    ensures DebugChar('\0') == "\\0"
    ensures DebugChar(1 as char) == "\\u{1}"
    ensures DebugChar(31 as char) == "\\u{1f}"
    ensures DebugChar(127 as char) == "\\u{7f}"
  {
    assert LowerHex(31) == LowerHex(1) + [HexDigit(15)];
    assert LowerHex(127) == LowerHex(7) + [HexDigit(15)];
  }

  /** A string's `Debug` text: quoted, with quote, backslash, the line
      breaks, tab and NUL escaped, and the other control characters written
      as `\u{..}`. */
  function DebugString(s: string): string {
    "\"" + DebugBody(s) + "\""
  }

  function DebugBody(s: string): string {
    if s == [] then [] else DebugBody(s[..|s| - 1]) + DebugChar(s[|s| - 1])
  }

  function EntityTypeName(t: EntityType): string {
    match t
    case Person => "Person"
    case Place => "Place"
    case Organization => "Organization"
    case Event => "Event"
    case Product => "Product"
    case ConceptType => "Concept"
    case OtherEntity(name) => "Other(" + DebugString(name) + ")"
  }

  function RelationshipTypeName(t: RelationshipType): string {
    match t
    case Has => "Has"
    case IsA => "IsA"
    case PartOf => "PartOf"
    case ConnectedTo => "ConnectedTo"
    case RelatedTo => "RelatedTo"
    case Contains => "Contains"
    case Owns => "Owns"
    case Uses => "Uses"
    case Creates => "Creates"
    case Influences => "Influences"
    case OtherRelationship(text) => "Other(" + DebugString(text) + ")"
  }

  function AttributeTypeName(t: AttributeType): string {
    match t
    case NameAttr => "Name"
    case DescriptionAttr => "Description"
    case Location => "Location"
    case Date => "Date"
    case Number => "Number"
    case Category => "Category"
    case Property => "Property"
    case OtherAttribute(name) => "Other(" + DebugString(name) + ")"
  }

  // ---------------------------------------------------------------------------
  // Sizes and widths

  /** `calculate_node_size`, given the confidence and the attribute count. */
  function NodeSize(confidence: real, attributeCount: nat): real {
    30.0 * (1.0 + confidence * 0.5) * (1.0 + attributeCount as real * 0.1)
  }

  /** `calculate_concept_node_size`. */
  function ConceptNodeSize(confidence: real, relatedCount: nat): real {
    25.0 * (1.0 + confidence * 0.3) * (1.0 + relatedCount as real * 0.15)
  }

  /** `calculate_edge_width`. */
  function EdgeWidth(confidence: real): real {
    1.0 + confidence * 2.0
  }

  /** For a confidence in [0, 1] an entity node is between 1 and 1.5 times
      its attribute-scaled base of 30, and grows with every attribute. */
  lemma NodeSizeBounds(confidence: real, n: nat)
    requires 0.0 <= confidence <= 1.0
    ensures 30.0 * (1.0 + n as real * 0.1) <= NodeSize(confidence, n) <= 45.0 * (1.0 + n as real * 0.1)
    ensures NodeSize(confidence, n) < NodeSize(confidence, n + 1)
  {
    var f := 1.0 + n as real * 0.1;
    var g := 1.0 + confidence * 0.5;
    assert NodeSize(confidence, n) == 30.0 * g * f;
    ScaleBetween(30.0 * f, 1.0, g, 1.5);
    assert NodeSize(confidence, n + 1) == 30.0 * g * (f + 0.1);
  }

  /** For a confidence in [0, 1] a concept node is between 1 and 1.3 times
      its base of 25 scaled by its related entities, and grows with each. */
  lemma ConceptNodeSizeBounds(confidence: real, n: nat)
    requires 0.0 <= confidence <= 1.0
    ensures 25.0 * (1.0 + n as real * 0.15) <= ConceptNodeSize(confidence, n) <= 32.5 * (1.0 + n as real * 0.15)
    ensures ConceptNodeSize(confidence, n) < ConceptNodeSize(confidence, n + 1)
  {
    var f := 1.0 + n as real * 0.15;
    var g := 1.0 + confidence * 0.3;
    assert ConceptNodeSize(confidence, n) == 25.0 * g * f;
    ScaleBetween(25.0 * f, 1.0, g, 1.3);
    assert ConceptNodeSize(confidence, n + 1) == 25.0 * g * (f + 0.15);
  }

  /** For a confidence in [0, 1] an edge is between 1 and 3 wide, and wider
      for a higher confidence. */
  lemma EdgeWidthBounds(confidence: real)
    requires 0.0 <= confidence <= 1.0
    ensures 1.0 <= EdgeWidth(confidence) <= 3.0
    ensures forall other :: confidence < other ==> EdgeWidth(confidence) < EdgeWidth(other)
  {
  }

  lemma ScaleBetween(base: real, lo: real, v: real, hi: real)
    requires base >= 0.0 && lo <= v <= hi
    ensures base * lo <= v * base <= base * hi
  {
  }

  // ---------------------------------------------------------------------------
  // Nodes and edges

  function Span(position: Option<TextPosition>): Option<(nat, nat)> {
    if position.Some? then Some((position.value.start, position.value.end)) else None
  }

  /** The `(name, value)` pairs of the attributes collected into a map: a
      later attribute with the same name replaces an earlier one. */
  function AttributeMap(attributes: seq<Attribute>): map<string, string> {
    if attributes == [] then map[]
    else AttributeMap(attributes[..|attributes| - 1])[attributes[|attributes| - 1].name := attributes[|attributes| - 1].value]
  }

  /** `k` is the last attribute called `key`. */
  predicate LastNamed(attributes: seq<Attribute>, key: string, k: int) {
    0 <= k < |attributes| && attributes[k].name == key &&
    forall j :: k < j < |attributes| ==> attributes[j].name != key
  }

  /** A name is a key of the map iff some attribute has it. */
  lemma {:induction false} AttributeMapKeys(attributes: seq<Attribute>, key: string)
    ensures key in AttributeMap(attributes) <==> exists k :: 0 <= k < |attributes| && attributes[k].name == key
  {
    if attributes != [] {
      var n := |attributes| - 1;
      AttributeMapKeys(attributes[..n], key);
      if exists k :: 0 <= k < |attributes| && attributes[k].name == key {
        var k :| 0 <= k < |attributes| && attributes[k].name == key;
        if k < n {
          assert attributes[..n][k] == attributes[k];
        }
      }
    }
  }

  /** A name maps to the value of the last attribute that has it. */
  lemma {:induction false} AttributeMapValue(attributes: seq<Attribute>, key: string, k: nat)
    requires LastNamed(attributes, key, k)
    ensures key in AttributeMap(attributes) && AttributeMap(attributes)[key] == attributes[k].value
  {
    var n := |attributes| - 1;
    if k < n {
      assert LastNamed(attributes[..n], key, k) by {
        forall j | k < j < n ensures attributes[..n][j].name != key {
          assert attributes[..n][j] == attributes[j];
        }
      }
      AttributeMapValue(attributes[..n], key, k);
    }
  }

  /** `create_entity_node`. */
  function CreateEntityNode(b: Builder, e: Entity): GraphNode {
    GraphNode(e.id, e.name, EntityNode, b.config.nodeColors.entity, b.config.nodeShapes.entity,
              NodeSize(e.confidence, |e.attributes|), None, None, true,
              NodeMetadata(e.confidence, e.name, Some(EntityTypeName(e.entityType)),
                           AttributeMap(e.attributes), Span(e.position)))
  }

  /** `create_concept_node`. */
  function CreateConceptNode(b: Builder, c: Concept): GraphNode {
    GraphNode(c.id, c.name, ConceptNode, b.config.nodeColors.concept, b.config.nodeShapes.concept,
              ConceptNodeSize(c.confidence, |c.relatedEntities|), None, None, true,
              NodeMetadata(c.confidence, c.name, Some("concept"),
                           map["description" := c.description,
                               "related_entities_count" := Decimal(|c.relatedEntities|)],
                           Span(c.position)))
  }

  /** `create_attribute_node`: labelled "name: value", of fixed size 20. */
  function CreateAttributeNode(b: Builder, e: Entity, a: Attribute): GraphNode {
    GraphNode(a.id, a.name + ": " + a.value, AttributeNode, b.config.nodeColors.attribute,
              b.config.nodeShapes.attribute, 20.0, None, None, true,
              NodeMetadata(a.confidence, a.value, Some(AttributeTypeName(a.attributeType)),
                           map["attribute_name" := a.name, "parent_entity" := e.name], None))
  }

  /** `create_relationship_edge`. */
  function CreateRelationshipEdge(b: Builder, r: Relationship): GraphEdge {
    GraphEdge(r.id, r.sourceEntityId, r.targetEntityId, r.labelText, b.config.nodeColors.relationship,
              EdgeWidth(r.confidence), "to", EntityRelationship,
              EdgeMetadata(r.confidence, RelationshipTypeName(r.relationshipType), false, r.confidence))
  }

  /** `create_attribute_edge`. */
  function CreateAttributeEdge(e: Entity, a: Attribute): GraphEdge {
    GraphEdge(e.id + "-" + a.id, e.id, a.id, "has", "#888888", 1.0, "to", EntityAttribute,
              EdgeMetadata(a.confidence, "has_attribute", false, a.confidence))
  }

  /** `create_concept_entity_edge`. */
  function CreateConceptEntityEdge(c: Concept, e: Entity): GraphEdge {
    GraphEdge(c.id + "-" + e.id, c.id, e.id, "relates to", "#CCCCCC", 1.0, "to", ConceptEntity,
              EdgeMetadata((c.confidence + e.confidence) / 2.0, "related_to", true, 0.5))
  }

  function AbsDiff(a: nat, b: nat): nat {
    if a <= b then b - a else a - b
  }

  /** `should_connect_concept_to_entity`: by sentence distance when both
      have a position, otherwise by a case-insensitive mention either way. */
  predicate ShouldConnect(c: Concept, e: Entity) {
    if c.position.Some? && e.position.Some? then
      AbsDiff(c.position.value.sentenceIndex, e.position.value.sentenceIndex) <= 1
    else
      HasSubstring(Lower(c.description), Lower(e.name)) || HasSubstring(Lower(e.name), Lower(c.name))
  }

  /** With both positions known, a concept and an entity connect exactly
      when their sentences are the same or adjacent, whichever comes first. */
  lemma ShouldConnectByPosition(c: Concept, e: Entity)
    requires c.position.Some? && e.position.Some?
    ensures ShouldConnect(c, e) <==>
      c.position.value.sentenceIndex <= e.position.value.sentenceIndex + 1 &&
      e.position.value.sentenceIndex <= c.position.value.sentenceIndex + 1
  {
  }

  /** Without both positions, an entity whose name equals the concept's
      name up to case is connected, and so is one whose name contains the
      concept's or that the description mentions. */
  lemma ShouldConnectByName(c: Concept, e: Entity)
    requires c.position.None? || e.position.None?
    ensures Lower(e.name) == Lower(c.name) ==> ShouldConnect(c, e)
    ensures HasSubstring(Lower(e.name), Lower(c.name)) ==> ShouldConnect(c, e)
    ensures HasSubstring(Lower(c.description), Lower(e.name)) ==> ShouldConnect(c, e)
    ensures !HasSubstring(Lower(c.description), Lower(e.name)) && |c.name| > |e.name| ==> !ShouldConnect(c, e)
  {
    if Lower(e.name) == Lower(c.name) {
      assert OccursAt(Lower(e.name), Lower(c.name), 0);
    }
  }

  // ---------------------------------------------------------------------------
  // What `build_graph` emits

  /** Attributes named "name" are already the entity's label. */
  predicate Shown(a: Attribute) {
    a.name != "name"
  }

  function ShownCount(attributes: seq<Attribute>): nat {
    if attributes == [] then 0
    else ShownCount(attributes[..|attributes| - 1]) + (if Shown(attributes[|attributes| - 1]) then 1 else 0)
  }

  /** The number of attributes, over all entities, not named "name". */
  function ShownAttributes(entities: seq<Entity>): nat {
    if entities == [] then 0
    else ShownAttributes(entities[..|entities| - 1]) + ShownCount(entities[|entities| - 1].attributes)
  }

  /** The attribute nodes of `e` made from `attributes`, in order. */
  function AttributeNodes(b: Builder, e: Entity, attributes: seq<Attribute>): seq<GraphNode> {
    if attributes == [] then []
    else
      var a := attributes[|attributes| - 1];
      AttributeNodes(b, e, attributes[..|attributes| - 1]) + (if Shown(a) then [CreateAttributeNode(b, e, a)] else [])
  }

  function AttributeEdges(e: Entity, attributes: seq<Attribute>): seq<GraphEdge> {
    if attributes == [] then []
    else
      var a := attributes[|attributes| - 1];
      AttributeEdges(e, attributes[..|attributes| - 1]) + (if Shown(a) then [CreateAttributeEdge(e, a)] else [])
  }

  /** Per entity: its node, then the nodes of its shown attributes. */
  function EntityNodes(b: Builder, entities: seq<Entity>): seq<GraphNode> {
    if entities == [] then []
    else
      var e := entities[|entities| - 1];
      EntityNodes(b, entities[..|entities| - 1]) + [CreateEntityNode(b, e)] + AttributeNodes(b, e, e.attributes)
  }

  function EntityAttributeEdges(entities: seq<Entity>): seq<GraphEdge> {
    if entities == [] then []
    else
      var e := entities[|entities| - 1];
      EntityAttributeEdges(entities[..|entities| - 1]) + AttributeEdges(e, e.attributes)
  }

  function ConceptNodes(b: Builder, concepts: seq<Concept>): seq<GraphNode> {
    if concepts == [] then []
    else ConceptNodes(b, concepts[..|concepts| - 1]) + [CreateConceptNode(b, concepts[|concepts| - 1])]
  }

  function RelationshipEdges(b: Builder, relationships: seq<Relationship>): seq<GraphEdge> {
    if relationships == [] then []
    else RelationshipEdges(b, relationships[..|relationships| - 1]) +
         [CreateRelationshipEdge(b, relationships[|relationships| - 1])]
  }

  /** The edges from `c` to the entities it should connect to, in order. */
  function ConnectionsFor(c: Concept, entities: seq<Entity>): seq<GraphEdge> {
    if entities == [] then []
    else
      var e := entities[|entities| - 1];
      ConnectionsFor(c, entities[..|entities| - 1]) + (if ShouldConnect(c, e) then [CreateConceptEntityEdge(c, e)] else [])
  }

  /** Concept by concept, each concept's connections. */
  function Connections(concepts: seq<Concept>, entities: seq<Entity>): seq<GraphEdge> {
    if concepts == [] then []
    else Connections(concepts[..|concepts| - 1], entities) + ConnectionsFor(concepts[|concepts| - 1], entities)
  }

  /** The nodes `build_graph` emits: entities with their attributes, then
      concepts. */
  function GraphNodes(b: Builder, result: ExtractionResult): seq<GraphNode> {
    EntityNodes(b, result.entities) + ConceptNodes(b, result.concepts)
  }

  /** The edges `build_graph` emits: attribute edges, then relationship
      edges, then concept–entity connections. */
  function GraphEdges(b: Builder, result: ExtractionResult): seq<GraphEdge> {
    EntityAttributeEdges(result.entities) + RelationshipEdges(b, result.relationships) +
    Connections(result.concepts, result.entities)
  }

  // ---------------------------------------------------------------------------
  // The loops

  /** One more attribute extends the attribute nodes and edges by the
      attribute's node and edge when it is shown, and by nothing otherwise. */
  lemma AttributeStep(b: Builder, e: Entity, attributes: seq<Attribute>, j: nat,
                      nodesBefore: seq<GraphNode>, edgesBefore: seq<GraphEdge>)
    requires j < |attributes|
    ensures Shown(attributes[j]) ==>
      nodesBefore + AttributeNodes(b, e, attributes[..j + 1]) ==
        nodesBefore + AttributeNodes(b, e, attributes[..j]) + [CreateAttributeNode(b, e, attributes[j])]
    ensures Shown(attributes[j]) ==>
      edgesBefore + AttributeEdges(e, attributes[..j + 1]) ==
        edgesBefore + AttributeEdges(e, attributes[..j]) + [CreateAttributeEdge(e, attributes[j])]
    ensures !Shown(attributes[j]) ==>
      nodesBefore + AttributeNodes(b, e, attributes[..j + 1]) == nodesBefore + AttributeNodes(b, e, attributes[..j])
    ensures !Shown(attributes[j]) ==>
      edgesBefore + AttributeEdges(e, attributes[..j + 1]) == edgesBefore + AttributeEdges(e, attributes[..j])
  {
    assert attributes[..j + 1][..j] == attributes[..j];
  }

  /** The inner loop of the entity loop: a node and an edge per shown
      attribute, each push bumping its key. */
  method AddAttributes(b: Builder, e: Entity, nodes0: seq<GraphNode>, edges0: seq<GraphEdge>,
                       nodeTypes0: map<string, nat>, edgeTypes0: map<string, nat>)
    returns (nodes: seq<GraphNode>, edges: seq<GraphEdge>, nodeTypes: map<string, nat>, edgeTypes: map<string, nat>)
    requires nodeTypes0 == Histogram(NodeKinds(nodes0)) && edgeTypes0 == Histogram(EdgeKinds(edges0))
    ensures nodes == nodes0 + AttributeNodes(b, e, e.attributes)
    ensures edges == edges0 + AttributeEdges(e, e.attributes)
    ensures nodeTypes == Histogram(NodeKinds(nodes)) && edgeTypes == Histogram(EdgeKinds(edges))
  {
    nodes, edges, nodeTypes, edgeTypes := nodes0, edges0, nodeTypes0, edgeTypes0;
    var attributes := e.attributes;
    for j := 0 to |attributes|
      invariant nodes == nodes0 + AttributeNodes(b, e, attributes[..j])
      invariant edges == edges0 + AttributeEdges(e, attributes[..j])
      invariant nodeTypes == Histogram(NodeKinds(nodes)) && edgeTypes == Histogram(EdgeKinds(edges))
    {
      AttributeStep(b, e, attributes, j, nodes0, edges0);
      var attribute := attributes[j];
      if attribute.name != "name" {
        nodes, edges, nodeTypes, edgeTypes := PushAttribute(b, e, attribute, nodes, edges, nodeTypes, edgeTypes);
      }
    }
    assert attributes[..|attributes|] == attributes;
  }

  /** The body of the inner loop for a shown attribute: push its node and
      its edge, bumping "attribute" and "entity_attribute". */
  method PushAttribute(b: Builder, e: Entity, attribute: Attribute, nodes0: seq<GraphNode>, edges0: seq<GraphEdge>,
                       nodeTypes0: map<string, nat>, edgeTypes0: map<string, nat>)
    returns (nodes: seq<GraphNode>, edges: seq<GraphEdge>, nodeTypes: map<string, nat>, edgeTypes: map<string, nat>)
    requires nodeTypes0 == Histogram(NodeKinds(nodes0)) && edgeTypes0 == Histogram(EdgeKinds(edges0))
    ensures nodes == nodes0 + [CreateAttributeNode(b, e, attribute)]
    ensures edges == edges0 + [CreateAttributeEdge(e, attribute)]
    ensures nodeTypes == Histogram(NodeKinds(nodes)) && edgeTypes == Histogram(EdgeKinds(edges))
  {
    var attrNode := CreateAttributeNode(b, e, attribute);
    var attrEdge := CreateAttributeEdge(e, attribute);
    PushNode(map[], nodes0, nodeTypes0, attrNode);
    PushEdge(map[], edges0, edgeTypes0, attrEdge);
    assert NodeKind(attrNode.nodeType) == "attribute" && EdgeKind(attrEdge.edgeType) == "entity_attribute";
    nodeTypes := Bump(nodeTypes0, "attribute");
    edgeTypes := Bump(edgeTypes0, "entity_attribute");
    nodes := nodes0 + [attrNode];
    edges := edges0 + [attrEdge];
  }

  /** One round of the entity loop: push the entity's node, then its
      attributes. */
  method AddEntity(b: Builder, e: Entity, nodes0: seq<GraphNode>, edges0: seq<GraphEdge>,
                   nodeTypes0: map<string, nat>, edgeTypes0: map<string, nat>)
    returns (nodes: seq<GraphNode>, edges: seq<GraphEdge>, nodeTypes: map<string, nat>, edgeTypes: map<string, nat>)
    requires nodeTypes0 == Histogram(NodeKinds(nodes0)) && edgeTypes0 == Histogram(EdgeKinds(edges0))
    ensures nodes == nodes0 + [CreateEntityNode(b, e)] + AttributeNodes(b, e, e.attributes)
    ensures edges == edges0 + AttributeEdges(e, e.attributes)
    ensures nodeTypes == Histogram(NodeKinds(nodes)) && edgeTypes == Histogram(EdgeKinds(edges))
  {
    var node := CreateEntityNode(b, e);
    PushNode(map[], nodes0, nodeTypes0, node);
    assert NodeKind(node.nodeType) == "entity";
    nodes, edges, nodeTypes, edgeTypes :=
      AddAttributes(b, e, nodes0 + [node], edges0, Bump(nodeTypes0, "entity"), edgeTypes0);
  }

  lemma ConceptNodeStep(b: Builder, concepts: seq<Concept>, i: nat, nodesBefore: seq<GraphNode>)
    requires i < |concepts|
    ensures nodesBefore + ConceptNodes(b, concepts[..i + 1]) ==
      nodesBefore + ConceptNodes(b, concepts[..i]) + [CreateConceptNode(b, concepts[i])]
  {
    assert concepts[..i + 1][..i] == concepts[..i];
  }

  /** The concept loop: a node per concept, each bumping "concept". */
  method AddConcepts(b: Builder, concepts: seq<Concept>, nodes0: seq<GraphNode>, nodeTypes0: map<string, nat>)
    returns (nodes: seq<GraphNode>, nodeTypes: map<string, nat>)
    requires nodeTypes0 == Histogram(NodeKinds(nodes0))
    ensures nodes == nodes0 + ConceptNodes(b, concepts)
    ensures nodeTypes == Histogram(NodeKinds(nodes))
  {
    nodes, nodeTypes := nodes0, nodeTypes0;
    for i := 0 to |concepts|
      invariant nodes == nodes0 + ConceptNodes(b, concepts[..i])
      invariant nodeTypes == Histogram(NodeKinds(nodes))
    {
      ConceptNodeStep(b, concepts, i, nodes0);
      var node := CreateConceptNode(b, concepts[i]);
      PushNode(map[], nodes, nodeTypes, node);
      assert NodeKind(node.nodeType) == "concept";
      nodeTypes := Bump(nodeTypes, "concept");
      nodes := nodes + [node];
    }
    assert concepts[..|concepts|] == concepts;
  }

  lemma RelationshipEdgeStep(b: Builder, relationships: seq<Relationship>, i: nat, edgesBefore: seq<GraphEdge>)
    requires i < |relationships|
    ensures edgesBefore + RelationshipEdges(b, relationships[..i + 1]) ==
      edgesBefore + RelationshipEdges(b, relationships[..i]) + [CreateRelationshipEdge(b, relationships[i])]
  {
    assert relationships[..i + 1][..i] == relationships[..i];
  }

  /** The relationship loop: an edge per relationship, each bumping
      "relationship". */
  method AddRelationships(b: Builder, relationships: seq<Relationship>, edges0: seq<GraphEdge>,
                          edgeTypes0: map<string, nat>)
    returns (edges: seq<GraphEdge>, edgeTypes: map<string, nat>)
    requires edgeTypes0 == Histogram(EdgeKinds(edges0))
    ensures edges == edges0 + RelationshipEdges(b, relationships)
    ensures edgeTypes == Histogram(EdgeKinds(edges))
  {
    edges, edgeTypes := edges0, edgeTypes0;
    for i := 0 to |relationships|
      invariant edges == edges0 + RelationshipEdges(b, relationships[..i])
      invariant edgeTypes == Histogram(EdgeKinds(edges))
    {
      RelationshipEdgeStep(b, relationships, i, edges0);
      var edge := CreateRelationshipEdge(b, relationships[i]);
      PushEdge(map[], edges, edgeTypes, edge);
      assert EdgeKind(edge.edgeType) == "relationship";
      edgeTypes := Bump(edgeTypes, "relationship");
      edges := edges + [edge];
    }
    assert relationships[..|relationships|] == relationships;
  }

  /** One more entity extends a concept's connections by its edge when they
      should connect, and by nothing otherwise. */
  lemma ConnectionStep(c: Concept, entities: seq<Entity>, j: nat, edgesBefore: seq<GraphEdge>)
    requires j < |entities|
    ensures ShouldConnect(c, entities[j]) ==>
      ConnectionsFor(c, entities[..j + 1]) == ConnectionsFor(c, entities[..j]) + [CreateConceptEntityEdge(c, entities[j])]
    ensures ShouldConnect(c, entities[j]) ==>
      edgesBefore + ConnectionsFor(c, entities[..j + 1]) ==
        edgesBefore + ConnectionsFor(c, entities[..j]) + [CreateConceptEntityEdge(c, entities[j])]
    ensures !ShouldConnect(c, entities[j]) ==>
      ConnectionsFor(c, entities[..j + 1]) == ConnectionsFor(c, entities[..j])
  {
    assert entities[..j + 1][..j] == entities[..j];
  }

  /** The inner loop of `create_concept_entity_connections`: one concept
      against every entity. */
  method ConnectConcept(concept: Concept, entities: seq<Entity>, edges0: seq<GraphEdge>, edgeTypes0: map<string, nat>)
    returns (edges: seq<GraphEdge>, edgeTypes: map<string, nat>)
    ensures edges == edges0 + ConnectionsFor(concept, entities)
    ensures edgeTypes == Tally(edgeTypes0, EdgeKinds(ConnectionsFor(concept, entities)))
  {
    edges, edgeTypes := edges0, edgeTypes0;
    assert edges0 + ConnectionsFor(concept, entities[..0]) == edges0;
    for j := 0 to |entities|
      invariant edges == edges0 + ConnectionsFor(concept, entities[..j])
      invariant edgeTypes == Tally(edgeTypes0, EdgeKinds(ConnectionsFor(concept, entities[..j])))
    {
      ConnectionStep(concept, entities, j, edges0);
      var entity := entities[j];
      if ShouldConnect(concept, entity) {
        var edge := CreateConceptEntityEdge(concept, entity);
        PushEdge(edgeTypes0, ConnectionsFor(concept, entities[..j]), edgeTypes, edge);
        assert EdgeKind(edge.edgeType) == "concept_entity";
        edgeTypes := Bump(edgeTypes, "concept_entity");
        edges := edges + [edge];
      }
    }
    assert entities[..|entities|] == entities;
  }

  /** One more concept appends its connections, and tallying them after the
      earlier ones is tallying all of them. */
  lemma ConceptConnectionStep(concepts: seq<Concept>, entities: seq<Entity>, i: nat, edgesBefore: seq<GraphEdge>,
                              h0: map<string, nat>)
    requires i < |concepts|
    ensures edgesBefore + Connections(concepts[..i + 1], entities) ==
      edgesBefore + Connections(concepts[..i], entities) + ConnectionsFor(concepts[i], entities)
    ensures Tally(h0, EdgeKinds(Connections(concepts[..i + 1], entities))) ==
      Tally(Tally(h0, EdgeKinds(Connections(concepts[..i], entities))), EdgeKinds(ConnectionsFor(concepts[i], entities)))
  {
    assert concepts[..i + 1][..i] == concepts[..i];
    EdgeKindsAppend(Connections(concepts[..i], entities), ConnectionsFor(concepts[i], entities));
    TallyAppend(h0, EdgeKinds(Connections(concepts[..i], entities)), EdgeKinds(ConnectionsFor(concepts[i], entities)));
  }

  /** `create_concept_entity_connections`: for each concept, for each
      entity, push an edge and bump "concept_entity" when they should be
      connected. */
  method ConnectConcepts(concepts: seq<Concept>, entities: seq<Entity>, edges0: seq<GraphEdge>,
                         edgeTypes0: map<string, nat>)
    returns (edges: seq<GraphEdge>, edgeTypes: map<string, nat>)
    ensures edges == edges0 + Connections(concepts, entities)
    ensures edgeTypes == Tally(edgeTypes0, EdgeKinds(Connections(concepts, entities)))
  {
    edges, edgeTypes := edges0, edgeTypes0;
    assert edges0 + Connections(concepts[..0], entities) == edges0;
    for i := 0 to |concepts|
      invariant edges == edges0 + Connections(concepts[..i], entities)
      invariant edgeTypes == Tally(edgeTypes0, EdgeKinds(Connections(concepts[..i], entities)))
    {
      ConceptConnectionStep(concepts, entities, i, edges0, edgeTypes0);
      edges, edgeTypes := ConnectConcept(concepts[i], entities, edges, edgeTypes);
    }
    assert concepts[..|concepts|] == concepts;
  }

  /** Adding the connections to edges counted by the histogram keeps the
      histogram that of all the edges. */
  lemma ConnectionsCounted(before: seq<GraphEdge>, connections: seq<GraphEdge>)
    ensures Tally(Histogram(EdgeKinds(before)), EdgeKinds(connections)) == Histogram(EdgeKinds(before + connections))
  {
    TallyAppend(map[], EdgeKinds(before), EdgeKinds(connections));
    EdgeKindsAppend(before, connections);
  }

  lemma EntityNodesStep(b: Builder, entities: seq<Entity>, i: nat)
    requires i < |entities|
    ensures EntityNodes(b, entities[..i + 1]) ==
      EntityNodes(b, entities[..i]) + [CreateEntityNode(b, entities[i])] + AttributeNodes(b, entities[i], entities[i].attributes)
    ensures EntityAttributeEdges(entities[..i + 1]) ==
      EntityAttributeEdges(entities[..i]) + AttributeEdges(entities[i], entities[i].attributes)
  {
    assert entities[..i + 1][..i] == entities[..i];
  }

  /** The body of `build_graph` up to its metadata: the nodes, the edges and
      the two histograms, each histogram counting its list by type. */
  method CollectGraph(b: Builder, result: ExtractionResult)
    returns (nodes: seq<GraphNode>, edges: seq<GraphEdge>, nodeTypes: map<string, nat>, edgeTypes: map<string, nat>)
    ensures nodes == GraphNodes(b, result) && edges == GraphEdges(b, result)
    ensures nodeTypes == Histogram(NodeKinds(nodes)) && edgeTypes == Histogram(EdgeKinds(edges))
  {
    nodes, edges, nodeTypes, edgeTypes := [], [], map[], map[];
    var entities := result.entities;
    for i := 0 to |entities|
      invariant nodes == EntityNodes(b, entities[..i]) && edges == EntityAttributeEdges(entities[..i])
      invariant nodeTypes == Histogram(NodeKinds(nodes)) && edgeTypes == Histogram(EdgeKinds(edges))
    {
      EntityNodesStep(b, entities, i);
      nodes, edges, nodeTypes, edgeTypes := AddEntity(b, entities[i], nodes, edges, nodeTypes, edgeTypes);
    }
    assert entities[..|entities|] == entities;
    nodes, nodeTypes := AddConcepts(b, result.concepts, nodes, nodeTypes);
    edges, edgeTypes := AddRelationships(b, result.relationships, edges, edgeTypes);
    ConnectionsCounted(edges, Connections(result.concepts, entities));
    edges, edgeTypes := ConnectConcepts(result.concepts, entities, edges, edgeTypes);
  }

  /** The metadata `build_graph` records. */
  function Metadata(nodes: seq<GraphNode>, edges: seq<GraphEdge>, timestamp: string, sourceText: string): GraphMetadata {
    GraphMetadata(|nodes|, |edges|, Histogram(NodeKinds(nodes)), Histogram(EdgeKinds(edges)), timestamp, |sourceText|)
  }

  /** `build_graph`, with the creation time passed in; it never fails. */
  method BuildGraph(b: Builder, result: ExtractionResult, sourceText: string, timestamp: string)
    returns (r: Result<InteractiveGraph>)
    ensures r.Ok? && fresh(r.value)
    ensures r.value.nodes == GraphNodes(b, result) && r.value.edges == GraphEdges(b, result)
    ensures r.value.config == b.config
    ensures r.value.metadata == Metadata(r.value.nodes, r.value.edges, timestamp, sourceText)
    ensures r.value.metadata.totalNodes == |r.value.nodes| && r.value.metadata.totalEdges == |r.value.edges|
    ensures r.value.metadata.sourceTextLength == |sourceText|
  {
    var nodes, edges, nodeTypes, edgeTypes := CollectGraph(b, result);
    var metadata := GraphMetadata(|nodes|, |edges|, nodeTypes, edgeTypes, timestamp, |sourceText|);
    var graph := new InteractiveGraph(nodes, edges, b.config, metadata);
    return Ok(graph);
  }

  // ---------------------------------------------------------------------------
  // Properties of what `build_graph` emits

  lemma {:induction false} OccurrencesAll(keys: seq<string>, key: string)
    requires forall i :: 0 <= i < |keys| ==> keys[i] == key
    ensures Occurrences(keys, key) == |keys|
  {
    if keys != [] {
      OccurrencesAll(keys[..|keys| - 1], key);
    }
  }

  lemma {:induction false} OccurrencesNone(keys: seq<string>, key: string)
    requires forall i :: 0 <= i < |keys| ==> keys[i] != key
    ensures Occurrences(keys, key) == 0
  {
    if keys != [] {
      OccurrencesNone(keys[..|keys| - 1], key);
    }
  }

  /** An attribute node and edge made from one attribute of the list. */
  predicate FromShown(b: Builder, e: Entity, attributes: seq<Attribute>, node: GraphNode, edge: GraphEdge) {
    exists m :: 0 <= m < |attributes| && Shown(attributes[m]) &&
      node == CreateAttributeNode(b, e, attributes[m]) && edge == CreateAttributeEdge(e, attributes[m])
  }

  /** The attribute nodes and edges of an entity pair up: the `k`-th node
      and the `k`-th edge come from the same shown attribute, there is one
      of each per shown attribute, and every shown attribute has both. */
  lemma {:induction false} AttributeParts(b: Builder, e: Entity, attributes: seq<Attribute>)
    ensures |AttributeNodes(b, e, attributes)| == ShownCount(attributes)
    ensures |AttributeEdges(e, attributes)| == ShownCount(attributes)
    ensures forall k :: 0 <= k < ShownCount(attributes) ==>
      FromShown(b, e, attributes, AttributeNodes(b, e, attributes)[k], AttributeEdges(e, attributes)[k])
    ensures forall m :: 0 <= m < |attributes| && Shown(attributes[m]) ==>
      CreateAttributeNode(b, e, attributes[m]) in AttributeNodes(b, e, attributes) &&
      CreateAttributeEdge(e, attributes[m]) in AttributeEdges(e, attributes)
  {
    if attributes != [] {
      var n := |attributes| - 1;
      var init := attributes[..n];
      AttributeParts(b, e, init);
      var nodes := AttributeNodes(b, e, attributes);
      var edges := AttributeEdges(e, attributes);
      forall k | 0 <= k < ShownCount(attributes) ensures FromShown(b, e, attributes, nodes[k], edges[k]) {
        if k < ShownCount(init) {
          assert nodes[k] == AttributeNodes(b, e, init)[k] && edges[k] == AttributeEdges(e, init)[k];
          var m :| 0 <= m < |init| && Shown(init[m]) &&
            nodes[k] == CreateAttributeNode(b, e, init[m]) && edges[k] == CreateAttributeEdge(e, init[m]);
          assert init[m] == attributes[m];
        } else {
          assert Shown(attributes[n]);
        }
      }
      forall m | 0 <= m < |attributes| && Shown(attributes[m])
        ensures CreateAttributeNode(b, e, attributes[m]) in nodes && CreateAttributeEdge(e, attributes[m]) in edges
      {
        if m < n {
          assert init[m] == attributes[m];
        }
      }
    }
  }

  /** An attribute node or edge made from a shown attribute of a listed
      entity. */
  predicate AttributeNodeOf(b: Builder, entities: seq<Entity>, node: GraphNode) {
    exists e, a :: e in entities && a in e.attributes && Shown(a) && node == CreateAttributeNode(b, e, a)
  }

  predicate AttributeEdgeOf(entities: seq<Entity>, edge: GraphEdge) {
    exists e, a :: e in entities && a in e.attributes && Shown(a) && edge == CreateAttributeEdge(e, a)
  }

  lemma AttributePartsOrigin(b: Builder, e: Entity, entities: seq<Entity>)
    requires e in entities
    ensures forall node :: node in AttributeNodes(b, e, e.attributes) ==> AttributeNodeOf(b, entities, node)
    ensures forall edge :: edge in AttributeEdges(e, e.attributes) ==> AttributeEdgeOf(entities, edge)
  {
    AttributeParts(b, e, e.attributes);
    var nodes := AttributeNodes(b, e, e.attributes);
    var edges := AttributeEdges(e, e.attributes);
    forall node | node in nodes ensures AttributeNodeOf(b, entities, node) {
      var k :| 0 <= k < |nodes| && nodes[k] == node;
      assert FromShown(b, e, e.attributes, nodes[k], edges[k]);
    }
    forall edge | edge in edges ensures AttributeEdgeOf(entities, edge) {
      var k :| 0 <= k < |edges| && edges[k] == edge;
      assert FromShown(b, e, e.attributes, nodes[k], edges[k]);
    }
  }

  /** Every node of the entity part is an entity's node or the node of a
      shown attribute of an entity, and every attribute edge is the edge of
      such an attribute: attributes called "name" never become nodes or
      edges. */
  lemma {:induction false} EntityPartsOrigin(b: Builder, entities: seq<Entity>)
    ensures forall node :: node in EntityNodes(b, entities) ==>
      (node.nodeType == EntityNode && exists e :: e in entities && node == CreateEntityNode(b, e)) ||
      (node.nodeType == AttributeNode && AttributeNodeOf(b, entities, node))
    ensures forall edge :: edge in EntityAttributeEdges(entities) ==>
      edge.edgeType == EntityAttribute && AttributeEdgeOf(entities, edge)
  {
    if entities != [] {
      var n := |entities| - 1;
      var init := entities[..n];
      var e := entities[n];
      EntityPartsOrigin(b, init);
      AttributePartsOrigin(b, e, entities);
      forall node | node in EntityNodes(b, init) && node.nodeType == AttributeNode
        ensures AttributeNodeOf(b, entities, node)
      {
        var e', a :| e' in init && a in e'.attributes && Shown(a) && node == CreateAttributeNode(b, e', a);
        assert e' in entities;
      }
      forall edge | edge in EntityAttributeEdges(init) ensures AttributeEdgeOf(entities, edge) {
        var e', a :| e' in init && a in e'.attributes && Shown(a) && edge == CreateAttributeEdge(e', a);
        assert e' in entities;
      }
    }
  }

  /** Every entity has its node, and every shown attribute its node and its
      edge. */
  lemma {:induction false} EntityPartsMembers(b: Builder, entities: seq<Entity>)
    ensures forall e :: e in entities ==> CreateEntityNode(b, e) in EntityNodes(b, entities)
    ensures forall e, a :: e in entities && a in e.attributes && Shown(a) ==>
      CreateAttributeNode(b, e, a) in EntityNodes(b, entities) && CreateAttributeEdge(e, a) in EntityAttributeEdges(entities)
  {
    if entities != [] {
      var n := |entities| - 1;
      var init := entities[..n];
      var last := entities[n];
      EntityPartsMembers(b, init);
      AttributeParts(b, last, last.attributes);
      forall e | e in entities ensures CreateEntityNode(b, e) in EntityNodes(b, entities) {
        if e != last {
          assert e in init;
        }
      }
      forall e, a | e in entities && a in e.attributes && Shown(a)
        ensures CreateAttributeNode(b, e, a) in EntityNodes(b, entities) && CreateAttributeEdge(e, a) in EntityAttributeEdges(entities)
      {
        if e == last {
          var m :| 0 <= m < |last.attributes| && last.attributes[m] == a;
        } else {
          assert e in init;
        }
      }
    }
  }

  /** The entity part has one node per entity and one node and one edge per
      shown attribute, and the "entity" key occurs once per entity. */
  lemma {:induction false} EntityPartsCount(b: Builder, entities: seq<Entity>)
    ensures |EntityNodes(b, entities)| == |entities| + ShownAttributes(entities)
    ensures |EntityAttributeEdges(entities)| == ShownAttributes(entities)
    ensures Occurrences(NodeKinds(EntityNodes(b, entities)), "entity") == |entities|
  {
    if entities != [] {
      var n := |entities| - 1;
      var init := entities[..n];
      var e := entities[n];
      EntityPartsCount(b, init);
      AttributeParts(b, e, e.attributes);
      AttributePartsOrigin(b, e, entities);
      var attributeNodes := AttributeNodes(b, e, e.attributes);
      forall i | 0 <= i < |attributeNodes| ensures NodeKinds(attributeNodes)[i] != "entity" {
        assert attributeNodes[i] in attributeNodes;
      }
      OccurrencesNone(NodeKinds(attributeNodes), "entity");
      NodeKindsAppend(EntityNodes(b, init), [CreateEntityNode(b, e)]);
      NodeKindsAppend(EntityNodes(b, init) + [CreateEntityNode(b, e)], attributeNodes);
      OccurrencesAppend(NodeKinds(EntityNodes(b, init)), NodeKinds([CreateEntityNode(b, e)]), "entity");
      OccurrencesAppend(NodeKinds(EntityNodes(b, init) + [CreateEntityNode(b, e)]), NodeKinds(attributeNodes), "entity");
      assert NodeKinds([CreateEntityNode(b, e)]) == ["entity"];
    }
  }

  /** The entity part only holds "entity" and "attribute" nodes. */
  lemma EntityPartKinds(b: Builder, entities: seq<Entity>)
    ensures forall i :: 0 <= i < |EntityNodes(b, entities)| ==>
      NodeKinds(EntityNodes(b, entities))[i] == "entity" || NodeKinds(EntityNodes(b, entities))[i] == "attribute"
  {
    EntityPartsOrigin(b, entities);
    var nodes := EntityNodes(b, entities);
    forall i | 0 <= i < |nodes| ensures NodeKinds(nodes)[i] == "entity" || NodeKinds(nodes)[i] == "attribute" {
      assert nodes[i] in nodes;
    }
  }

  /** How often each key occurs among the kinds of the emitted nodes. */
  lemma NodeKeyCounts(b: Builder, result: ExtractionResult)
    ensures Occurrences(NodeKinds(GraphNodes(b, result)), "entity") == |result.entities|
    ensures Occurrences(NodeKinds(GraphNodes(b, result)), "concept") == |result.concepts|
    ensures forall i :: 0 <= i < |GraphNodes(b, result)| ==>
      NodeKinds(GraphNodes(b, result))[i] == "entity" || NodeKinds(GraphNodes(b, result))[i] == "attribute" ||
      NodeKinds(GraphNodes(b, result))[i] == "concept"
  {
    var entityPart := EntityNodes(b, result.entities);
    var conceptPart := ConceptNodes(b, result.concepts);
    EntityPartsCount(b, result.entities);
    EntityPartKinds(b, result.entities);
    ConceptNodesAre(b, result.concepts);
    NodeKindsAppend(entityPart, conceptPart);
    OccurrencesNone(NodeKinds(entityPart), "concept");
    OccurrencesAll(NodeKinds(conceptPart), "concept");
    OccurrencesNone(NodeKinds(conceptPart), "entity");
    OccurrencesAppend(NodeKinds(entityPart), NodeKinds(conceptPart), "entity");
    OccurrencesAppend(NodeKinds(entityPart), NodeKinds(conceptPart), "concept");
  }

  /** The node histogram: one "entity" per entity, one "attribute" per
      attribute not called "name", one "concept" per concept, no other key,
      and the three counts add up to the number of nodes. */
  lemma NodeHistogram(b: Builder, result: ExtractionResult)
    ensures |GraphNodes(b, result)| == |result.entities| + ShownAttributes(result.entities) + |result.concepts|
    ensures Get(Histogram(NodeKinds(GraphNodes(b, result))), "entity") == |result.entities|
    ensures Get(Histogram(NodeKinds(GraphNodes(b, result))), "attribute") == ShownAttributes(result.entities)
    ensures Get(Histogram(NodeKinds(GraphNodes(b, result))), "concept") == |result.concepts|
    ensures Get(Histogram(NodeKinds(GraphNodes(b, result))), "entity") +
            Get(Histogram(NodeKinds(GraphNodes(b, result))), "attribute") +
            Get(Histogram(NodeKinds(GraphNodes(b, result))), "concept") == |GraphNodes(b, result)|
    ensures forall key :: key in Histogram(NodeKinds(GraphNodes(b, result))) ==>
      key == "entity" || key == "attribute" || key == "concept"
  {
    var keys := NodeKinds(GraphNodes(b, result));
    EntityPartsCount(b, result.entities);
    ConceptNodesAre(b, result.concepts);
    NodeKeyCounts(b, result);
    OccurrencesOfThree(keys, "entity", "attribute", "concept");
    HistogramOfThree(keys, "entity", "attribute", "concept");
    TallyCounts(map[], keys, "entity");
    TallyCounts(map[], keys, "attribute");
    TallyCounts(map[], keys, "concept");
  }

  /** The concept part holds each concept's node, in order. */
  lemma {:induction false} ConceptNodesAre(b: Builder, concepts: seq<Concept>)
    ensures |ConceptNodes(b, concepts)| == |concepts|
    ensures forall k :: 0 <= k < |concepts| ==> ConceptNodes(b, concepts)[k] == CreateConceptNode(b, concepts[k])
  {
    if concepts != [] {
      ConceptNodesAre(b, concepts[..|concepts| - 1]);
    }
  }

  /** The relationship part holds each relationship's edge, in order. */
  lemma {:induction false} RelationshipEdgesAre(b: Builder, relationships: seq<Relationship>)
    ensures |RelationshipEdges(b, relationships)| == |relationships|
    ensures forall k :: 0 <= k < |relationships| ==>
      RelationshipEdges(b, relationships)[k] == CreateRelationshipEdge(b, relationships[k])
  {
    if relationships != [] {
      RelationshipEdgesAre(b, relationships[..|relationships| - 1]);
    }
  }

  /** A connection edge from a listed concept to a listed entity that
      should be connected. */
  predicate ConnectionOf(concepts: seq<Concept>, entities: seq<Entity>, edge: GraphEdge) {
    exists c, e :: c in concepts && e in entities && ShouldConnect(c, e) && edge == CreateConceptEntityEdge(c, e)
  }

  /** A concept's connections are exactly the edges to the entities it
      should connect to: at most one per entity. */
  lemma {:induction false} ConnectionsForExactly(c: Concept, entities: seq<Entity>)
    ensures |ConnectionsFor(c, entities)| <= |entities|
    ensures forall edge :: edge in ConnectionsFor(c, entities) ==> ConnectionOf([c], entities, edge)
    ensures forall e :: e in entities && ShouldConnect(c, e) ==> CreateConceptEntityEdge(c, e) in ConnectionsFor(c, entities)
  {
    if entities != [] {
      var n := |entities| - 1;
      var init := entities[..n];
      ConnectionsForExactly(c, init);
      forall edge | edge in ConnectionsFor(c, init) ensures ConnectionOf([c], entities, edge) {
        var c', e :| c' in [c] && e in init && ShouldConnect(c', e) && edge == CreateConceptEntityEdge(c', e);
        assert e in entities;
      }
      forall e | e in entities && ShouldConnect(c, e) ensures CreateConceptEntityEdge(c, e) in ConnectionsFor(c, entities) {
        if e != entities[n] {
          assert e in init;
        }
      }
    }
  }

  /** There is at most one connection per concept–entity pair. */
  lemma {:induction false} ConnectionsCount(concepts: seq<Concept>, entities: seq<Entity>)
    ensures |Connections(concepts, entities)| <= |concepts| * |entities|
  {
    if concepts != [] {
      var n := |concepts| - 1;
      ConnectionsCount(concepts[..n], entities);
      ConnectionsForExactly(concepts[n], entities);
      assert |concepts| * |entities| == n * |entities| + |entities|;
    }
  }

  /** The connections are exactly the edges from each concept to each
      entity it should connect to. */
  lemma {:induction false} ConnectionsExactly(concepts: seq<Concept>, entities: seq<Entity>)
    ensures forall edge :: edge in Connections(concepts, entities) ==> ConnectionOf(concepts, entities, edge)
    ensures forall c, e :: c in concepts && e in entities && ShouldConnect(c, e) ==>
      CreateConceptEntityEdge(c, e) in Connections(concepts, entities)
  {
    if concepts != [] {
      var n := |concepts| - 1;
      var init := concepts[..n];
      var last := concepts[n];
      ConnectionsExactly(init, entities);
      ConnectionsForExactly(last, entities);
      forall edge | edge in Connections(concepts, entities) ensures ConnectionOf(concepts, entities, edge) {
        if edge in Connections(init, entities) {
          var c, e :| c in init && e in entities && ShouldConnect(c, e) && edge == CreateConceptEntityEdge(c, e);
          assert c in concepts;
        } else {
          var c, e :| c in [last] && e in entities && ShouldConnect(c, e) && edge == CreateConceptEntityEdge(c, e);
          assert c in concepts;
        }
      }
      forall c, e | c in concepts && e in entities && ShouldConnect(c, e)
        ensures CreateConceptEntityEdge(c, e) in Connections(concepts, entities)
      {
        if c != last {
          assert c in init;
        }
      }
    }
  }

  /** A connection runs from the concept's node to the entity's node, both
      ways, with the mean of the two nodes' confidences and weight 0.5. */
  lemma ConnectionEdgeShape(b: Builder, c: Concept, e: Entity)
    ensures CreateConceptEntityEdge(c, e).from == CreateConceptNode(b, c).id
    ensures CreateConceptEntityEdge(c, e).to == CreateEntityNode(b, e).id
    ensures CreateConceptEntityEdge(c, e).metadata.confidence ==
      (CreateConceptNode(b, c).metadata.confidence + CreateEntityNode(b, e).metadata.confidence) / 2.0
    ensures CreateConceptEntityEdge(c, e).metadata.bidirectional && CreateConceptEntityEdge(c, e).metadata.weight == 0.5
    ensures CreateConceptEntityEdge(c, e).edgeType == ConceptEntity
  {
  }

  /** An attribute edge runs from the entity's node to the attribute's
      node, is labelled "has", has width 1 and the attribute node's
      confidence, and is named after the two identifiers. */
  lemma AttributeEdgeShape(b: Builder, e: Entity, a: Attribute)
    ensures CreateAttributeEdge(e, a).from == CreateEntityNode(b, e).id
    ensures CreateAttributeEdge(e, a).to == CreateAttributeNode(b, e, a).id
    ensures CreateAttributeEdge(e, a).id == CreateEntityNode(b, e).id + "-" + CreateAttributeNode(b, e, a).id
    ensures CreateAttributeEdge(e, a).labelText == "has" && CreateAttributeEdge(e, a).width == 1.0
    ensures CreateAttributeEdge(e, a).metadata.confidence == CreateAttributeNode(b, e, a).metadata.confidence
  {
  }

  /** Each relationship becomes an edge between the same two identifiers,
      with its label and confidence, one-directional, pointing at the
      target, between 1 and 3 wide for a confidence in [0, 1]. */
  lemma RelationshipEdgesCopy(b: Builder, relationships: seq<Relationship>)
    ensures |RelationshipEdges(b, relationships)| == |relationships|
    ensures forall k :: 0 <= k < |relationships| ==>
      RelationshipEdges(b, relationships)[k].id == relationships[k].id &&
      RelationshipEdges(b, relationships)[k].from == relationships[k].sourceEntityId &&
      RelationshipEdges(b, relationships)[k].to == relationships[k].targetEntityId &&
      RelationshipEdges(b, relationships)[k].labelText == relationships[k].labelText &&
      RelationshipEdges(b, relationships)[k].metadata.confidence == relationships[k].confidence &&
      !RelationshipEdges(b, relationships)[k].metadata.bidirectional &&
      RelationshipEdges(b, relationships)[k].arrows == "to"
    ensures forall k :: 0 <= k < |relationships| && 0.0 <= relationships[k].confidence <= 1.0 ==>
      1.0 <= RelationshipEdges(b, relationships)[k].width <= 3.0
  {
    RelationshipEdgesAre(b, relationships);
    forall k | 0 <= k < |relationships| && 0.0 <= relationships[k].confidence <= 1.0
      ensures 1.0 <= RelationshipEdges(b, relationships)[k].width <= 3.0
    {
      EdgeWidthBounds(relationships[k].confidence);
    }
  }

  /** An entity's node carries its identifier and name, is between 30 and
      45 times its attribute factor in size for a confidence in [0, 1], has
      no position yet, and lists every attribute name as a metadata key. */
  lemma EntityNodeShape(b: Builder, e: Entity)
    requires 0.0 <= e.confidence <= 1.0
    ensures CreateEntityNode(b, e).id == e.id && CreateEntityNode(b, e).labelText == e.name
    ensures 30.0 * (1.0 + |e.attributes| as real * 0.1) <= CreateEntityNode(b, e).size <= 45.0 * (1.0 + |e.attributes| as real * 0.1)
    ensures CreateEntityNode(b, e).x.None? && CreateEntityNode(b, e).y.None?
    ensures forall key :: key in CreateEntityNode(b, e).metadata.attributes <==>
      exists k :: 0 <= k < |e.attributes| && e.attributes[k].name == key
  {
    NodeSizeBounds(e.confidence, |e.attributes|);
    forall key ensures key in CreateEntityNode(b, e).metadata.attributes <==>
      exists k :: 0 <= k < |e.attributes| && e.attributes[k].name == key
    {
      AttributeMapKeys(e.attributes, key);
    }
  }

  /** Attribute edges all carry "entity_attribute", connections all
      "concept_entity". */
  lemma EdgePartKinds(b: Builder, result: ExtractionResult)
    ensures forall i :: 0 <= i < |EntityAttributeEdges(result.entities)| ==>
      EdgeKinds(EntityAttributeEdges(result.entities))[i] == "entity_attribute"
    ensures forall i :: 0 <= i < |Connections(result.concepts, result.entities)| ==>
      EdgeKinds(Connections(result.concepts, result.entities))[i] == "concept_entity"
  {
    var attributePart := EntityAttributeEdges(result.entities);
    var connectionPart := Connections(result.concepts, result.entities);
    EntityPartsOrigin(b, result.entities);
    ConnectionsExactly(result.concepts, result.entities);
    forall i | 0 <= i < |attributePart| ensures EdgeKinds(attributePart)[i] == "entity_attribute" {
      assert attributePart[i] in attributePart;
    }
    forall i | 0 <= i < |connectionPart| ensures EdgeKinds(connectionPart)[i] == "concept_entity" {
      assert connectionPart[i] in connectionPart;
      var c, e :| c in result.concepts && e in result.entities && ShouldConnect(c, e) &&
        connectionPart[i] == CreateConceptEntityEdge(c, e);
    }
  }

  /** Three runs, each of a single key, three keys apart: each key occurs
      as often as its run is long. */
  lemma ThreeRuns(k1: string, k2: string, k3: string, r1: seq<string>, r2: seq<string>, r3: seq<string>)
    requires k1 != k2 && k2 != k3 && k1 != k3
    requires forall i :: 0 <= i < |r1| ==> r1[i] == k1
    requires forall i :: 0 <= i < |r2| ==> r2[i] == k2
    requires forall i :: 0 <= i < |r3| ==> r3[i] == k3
    ensures Occurrences(r1 + r2 + r3, k1) == |r1| && Occurrences(r1 + r2 + r3, k2) == |r2|
    ensures forall i :: 0 <= i < |r1 + r2 + r3| ==>
      (r1 + r2 + r3)[i] == k1 || (r1 + r2 + r3)[i] == k2 || (r1 + r2 + r3)[i] == k3
  {
    OccurrencesAll(r1, k1);
    OccurrencesNone(r1, k2);
    OccurrencesAll(r2, k2);
    OccurrencesNone(r2, k1);
    OccurrencesNone(r3, k1);
    OccurrencesNone(r3, k2);
    OccurrencesAppend(r1, r2, k1);
    OccurrencesAppend(r1, r2, k2);
    OccurrencesAppend(r1 + r2, r3, k1);
    OccurrencesAppend(r1 + r2, r3, k2);
  }

  /** How often each key occurs among the kinds of the emitted edges. */
  lemma EdgeKeyCounts(b: Builder, result: ExtractionResult)
    ensures Occurrences(EdgeKinds(GraphEdges(b, result)), "entity_attribute") == ShownAttributes(result.entities)
    ensures Occurrences(EdgeKinds(GraphEdges(b, result)), "relationship") == |result.relationships|
    ensures forall i :: 0 <= i < |GraphEdges(b, result)| ==>
      EdgeKinds(GraphEdges(b, result))[i] == "entity_attribute" || EdgeKinds(GraphEdges(b, result))[i] == "relationship" ||
      EdgeKinds(GraphEdges(b, result))[i] == "concept_entity"
  {
    var attributePart := EntityAttributeEdges(result.entities);
    var relationshipPart := RelationshipEdges(b, result.relationships);
    var connectionPart := Connections(result.concepts, result.entities);
    EntityPartsCount(b, result.entities);
    RelationshipEdgesAre(b, result.relationships);
    EdgePartKinds(b, result);
    EdgeKindsAppend(attributePart, relationshipPart);
    EdgeKindsAppend(attributePart + relationshipPart, connectionPart);
    ThreeRuns("entity_attribute", "relationship", "concept_entity",
              EdgeKinds(attributePart), EdgeKinds(relationshipPart), EdgeKinds(connectionPart));
  }

  /** The edge histogram: one "entity_attribute" per attribute not called
      "name", one "relationship" per relationship, one "concept_entity" per
      connection, no other key, and the counts add up to the number of
      edges. */
  lemma EdgeHistogram(b: Builder, result: ExtractionResult)
    ensures |GraphEdges(b, result)| ==
      ShownAttributes(result.entities) + |result.relationships| + |Connections(result.concepts, result.entities)|
    ensures Get(Histogram(EdgeKinds(GraphEdges(b, result))), "entity_attribute") == ShownAttributes(result.entities)
    ensures Get(Histogram(EdgeKinds(GraphEdges(b, result))), "relationship") == |result.relationships|
    ensures Get(Histogram(EdgeKinds(GraphEdges(b, result))), "concept_entity") ==
      |Connections(result.concepts, result.entities)|
    ensures Get(Histogram(EdgeKinds(GraphEdges(b, result))), "entity_attribute") +
            Get(Histogram(EdgeKinds(GraphEdges(b, result))), "relationship") +
            Get(Histogram(EdgeKinds(GraphEdges(b, result))), "concept_entity") == |GraphEdges(b, result)|
    ensures forall key :: key in Histogram(EdgeKinds(GraphEdges(b, result))) ==>
      key == "entity_attribute" || key == "relationship" || key == "concept_entity"
  {
    var keys := EdgeKinds(GraphEdges(b, result));
    EntityPartsCount(b, result.entities);
    RelationshipEdgesAre(b, result.relationships);
    EdgeKeyCounts(b, result);
    OccurrencesOfThree(keys, "entity_attribute", "relationship", "concept_entity");
    HistogramOfThree(keys, "entity_attribute", "relationship", "concept_entity");
    TallyCounts(map[], keys, "entity_attribute");
    TallyCounts(map[], keys, "relationship");
    TallyCounts(map[], keys, "concept_entity");
  }

  /** An identifier an extracted relationship may point at: an entity's
      or a concept's. */
  predicate Endpoint(result: ExtractionResult, id: string) {
    id in EntityIds(result.entities) || exists c :: c in result.concepts && c.id == id
  }

  /** Every listed entity and concept has a node with its identifier. */
  lemma EndpointsHaveNodes(b: Builder, result: ExtractionResult, id: string)
    requires Endpoint(result, id)
    ensures id in NodeIds(GraphNodes(b, result))
  {
    EntityPartsMembers(b, result.entities);
    ConceptNodesAre(b, result.concepts);
    if id in EntityIds(result.entities) {
      var e :| e in result.entities && e.id == id;
      assert CreateEntityNode(b, e) in GraphNodes(b, result);
    } else {
      var c :| c in result.concepts && c.id == id;
      var k :| 0 <= k < |result.concepts| && result.concepts[k] == c;
      assert ConceptNodes(b, result.concepts)[k] in GraphNodes(b, result);
    }
  }

  /** No edge dangles: when every relationship points at listed entities or
      concepts, both ends of every emitted edge are identifiers of emitted
      nodes. */
  lemma EdgesJoinNodes(b: Builder, result: ExtractionResult)
    requires forall r :: r in result.relationships ==>
      Endpoint(result, r.sourceEntityId) && Endpoint(result, r.targetEntityId)
    ensures forall edge :: edge in GraphEdges(b, result) ==>
      edge.from in NodeIds(GraphNodes(b, result)) && edge.to in NodeIds(GraphNodes(b, result))
  {
    var nodes := GraphNodes(b, result);
    EntityPartsOrigin(b, result.entities);
    EntityPartsMembers(b, result.entities);
    RelationshipEdgesAre(b, result.relationships);
    ConnectionsExactly(result.concepts, result.entities);
    forall edge | edge in GraphEdges(b, result) ensures edge.from in NodeIds(nodes) && edge.to in NodeIds(nodes) {
      if edge in EntityAttributeEdges(result.entities) {
        var e, a :| e in result.entities && a in e.attributes && Shown(a) && edge == CreateAttributeEdge(e, a);
        assert CreateEntityNode(b, e) in nodes && CreateAttributeNode(b, e, a) in nodes;
      } else if edge in RelationshipEdges(b, result.relationships) {
        var k :| 0 <= k < |result.relationships| && RelationshipEdges(b, result.relationships)[k] == edge;
        assert result.relationships[k] in result.relationships;
        EndpointsHaveNodes(b, result, edge.from);
        EndpointsHaveNodes(b, result, edge.to);
      } else {
        var c, e :| c in result.concepts && e in result.entities && ShouldConnect(c, e) &&
          edge == CreateConceptEntityEdge(c, e);
        EndpointsHaveNodes(b, result, c.id);
        assert e.id in EntityIds(result.entities);
        EndpointsHaveNodes(b, result, e.id);
      }
    }
  }
}
