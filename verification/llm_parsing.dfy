/** Reading an LLM reply: the reply is cut down to the piece from its first
    `[` to its last `]`, that piece is decoded as a JSON array of rows, and
    the rows become entities, relationships or concepts.  JSON decoding is
    the `Decoder` oracle; identifiers come from `uuid(k)` for a counter `k`. */
module LlmParsing {
  import opened Strings
  import opened Config
  import opened ExtractionTypes
  import opened PatternEntities
  import opened NameResolution

  // ---------------------------------------------------------------------------
  // The bracket slice

  /** `response.find('[').unwrap_or(0)`. */
  function JsonStart(response: string): (i: nat)
    ensures i <= |response|
  {
    match FindChar(response, '[')
    case Some(i) => i
    case None => 0
  }

  /** `response.rfind(']').map(|i| i + 1).unwrap_or(response.len())`. */
  function JsonEnd(response: string): (j: nat)
    ensures j <= |response|
  {
    match RFindChar(response, ']')
    case Some(j) => j + 1
    case None => |response|
  }

  /** `&response[json_start..json_end]` is defined only when the start does
      not lie past the end; otherwise the slice panics. */
  predicate SliceInBounds(response: string) {
    JsonStart(response) <= JsonEnd(response)
  }

  /** The slice as written: out of bounds it has no value. */
  function JsonSliceAsWritten(response: string): (json: string)
    requires SliceInBounds(response)
    ensures |json| == JsonEnd(response) - JsonStart(response)
  {
    response[JsonStart(response)..JsonEnd(response)]
  }

  /** The slice panics exactly when the reply has both brackets and every `[`
      lies at least two places after every `]`. */
  lemma SlicePanicsIff(response: string)
    ensures !SliceInBounds(response) <==>
      '[' in response && ']' in response &&
      forall i, j :: 0 <= i < |response| && 0 <= j < |response| && response[i] == '[' && response[j] == ']' ==> j + 1 < i
  {
    var first := FindChar(response, '[');
    var last := RFindChar(response, ']');
    if '[' in response && ']' in response {
      assert first.Some? && last.Some?;
      if forall i, j :: 0 <= i < |response| && 0 <= j < |response| && response[i] == '[' && response[j] == ']' ==> j + 1 < i {
        assert response[first.value] == '[' && response[last.value] == ']';
      }
    }
  }

  /** A reply that closes a bracket before it opens one, such as "] [",
      makes the slice panic. */
  lemma OutOfOrderBracketsPanic()
    ensures !SliceInBounds("] [")
  {
    assert FindChar("] [", '[') == Some(2);
    assert RFindChar("] [", ']') == Some(0);
  }

  /** The slice with the out-of-bounds case reported as a failure (`None`),
      which the callers treat like a reply that does not decode. */
  function JsonSlice(response: string): (json: Option<string>)
    ensures json.Some? <==> SliceInBounds(response)
  {
    if SliceInBounds(response) then Some(response[JsonStart(response)..JsonEnd(response)]) else None
  }

  /** The slice is the widest piece of the reply that could hold the array:
      no `[` before it and no `]` after it. */
  lemma JsonSliceWidest(response: string)
    requires JsonSlice(response).Some?
    ensures response == response[..JsonStart(response)] + JsonSlice(response).value + response[JsonEnd(response)..]
    ensures '[' !in response[..JsonStart(response)]
    ensures ']' !in response[JsonEnd(response)..]
  {
    var s := JsonStart(response);
    var e := JsonEnd(response);
    assert response == response[..s] + response[s..e] + response[e..];
  }

  /** A reply with a `[` before a `]` is cut to a piece that starts with `[`
      and ends with `]`. */
  lemma JsonSliceBracketed(response: string, i: nat, j: nat)
    requires i < j < |response| && response[i] == '[' && response[j] == ']'
    ensures JsonSlice(response).Some?
    ensures |JsonSlice(response).value| >= 2
    ensures JsonSlice(response).value[0] == '['
    ensures JsonSlice(response).value[|JsonSlice(response).value| - 1] == ']'
  {
    assert FindChar(response, '[').Some? && RFindChar(response, ']').Some?;
  }

  /** A reply without brackets is handed to the decoder whole. */
  lemma JsonSliceWithoutBrackets(response: string)
    requires '[' !in response && ']' !in response
    ensures JsonSlice(response) == Some(response)
  {
    assert JsonStart(response) == 0 && JsonEnd(response) == |response|;
    assert response[0..|response|] == response;
  }

  // ---------------------------------------------------------------------------
  // Decoding

  datatype EntityRow = EntityRow(name: string, typeLabel: string, confidence: real)

  datatype RelationshipRow = RelationshipRow(from: string, to: string, relationship: string, confidence: real)

  datatype ConceptRow = ConceptRow(name: string, description: string, confidence: real)

  /** `serde_json::from_str` into a vector of each row shape; `None` is a
      decoding error. */
  datatype Decoder = Decoder(
    entities: string -> Option<seq<EntityRow>>,
    relationships: string -> Option<seq<RelationshipRow>>,
    concepts: string -> Option<seq<ConceptRow>>)

  /** The rows of a reply: its bracket slice, decoded. */
  function Decoded<T>(decode: string -> Option<T>, response: string): (rows: Option<T>)
    ensures rows.Some? ==> SliceInBounds(response)
  {
    match JsonSlice(response)
    case None => None
    case Some(json) => decode(json)
  }

  const EntitiesParseError: GraphError := EntityExtraction("Failed to parse LLM entities")
  const RelationshipsParseError: GraphError := EntityExtraction("Failed to parse LLM relationships")
  const ConceptsParseError: GraphError := EntityExtraction("Failed to parse LLM concepts")

  // ---------------------------------------------------------------------------
  // Entities

  predicate IsKnownTypeLabel(lower: string) {
    lower == "person" || lower == "place" || lower == "organization" ||
    lower == "system" || lower == "process" || lower == "concept"
  }

  /** The type named by a row, matched on its lowercased text; an unknown
      label is kept as written. */
  function LlmEntityType(typeLabel: string): EntityType {
    var lower := Lower(typeLabel);
    if lower == "person" then Person
    else if lower == "place" then Place
    else if lower == "organization" then Organization
    else if lower == "system" then OtherEntity("System")
    else if lower == "process" then OtherEntity("Process")
    else if lower == "concept" then OtherEntity("Concept")
    else OtherEntity(typeLabel)
  }

  /** The three built-in types are recognised ignoring case; a known label
      depends only on its lowercased text; an unknown one is kept verbatim;
      the mapping never yields `Event`, `Product` or `Concept`. */
  lemma LlmEntityTypeCases(typeLabel: string)
    ensures LlmEntityType(typeLabel) == Person <==> Lower(typeLabel) == "person"
    ensures LlmEntityType(typeLabel) == Place <==> Lower(typeLabel) == "place"
    ensures LlmEntityType(typeLabel) == Organization <==> Lower(typeLabel) == "organization"
    ensures IsKnownTypeLabel(Lower(typeLabel)) ==> LlmEntityType(typeLabel) == LlmEntityType(Lower(typeLabel))
    ensures !IsKnownTypeLabel(Lower(typeLabel)) ==> LlmEntityType(typeLabel) == OtherEntity(typeLabel)
    ensures !LlmEntityType(typeLabel).Event? && !LlmEntityType(typeLabel).Product? && !LlmEntityType(typeLabel).ConceptType?
  {
    LowerIdempotent(typeLabel);
  }

  /** The entity a row makes: identifier `uuid(next)`, then one
      "extraction_method" attribute with identifier `uuid(next + 1)`. */
  function LlmEntity(uuid: nat -> string, next: nat, row: EntityRow): Entity {
    Entity(uuid(next), row.name, LlmEntityType(row.typeLabel),
           [Attribute(uuid(next + 1), "extraction_method", "LLM", OtherAttribute("method"), 1.0)],
           row.confidence, None)
  }

  function LlmEntities(uuid: nat -> string, next: nat, rows: seq<EntityRow>): seq<Entity> {
    seq(|rows|, k requires 0 <= k < |rows| => LlmEntity(uuid, next + 2 * k, rows[k]))
  }

  /** `parse_entities_from_llm_response`. */
  function ParsedEntities(decoder: Decoder, uuid: nat -> string, next: nat, response: string): Result<seq<Entity>> {
    match Decoded(decoder.entities, response)
    case None => Err(EntitiesParseError)
    case Some(rows) => Ok(LlmEntities(uuid, next, rows))
  }

  method ParseEntitiesFromLlmResponse(decoder: Decoder, uuid: nat -> string, next0: nat, response: string)
    returns (r: Result<seq<Entity>>, next: nat)
    ensures r == ParsedEntities(decoder, uuid, next0, response)
    ensures next == next0 + (if r.Ok? then 2 * |r.value| else 0)
  {
    var json := JsonSlice(response);
    if json.None? {
      return Err(EntitiesParseError), next0;
    }
    var decoded := decoder.entities(json.value);
    if decoded.None? {
      return Err(EntitiesParseError), next0;
    }
    var rows := decoded.value;
    var entities: seq<Entity> := [];
    next := next0;
    var k := 0;
    while k < |rows|
      invariant k <= |rows| && |entities| == k && next == next0 + 2 * k
      invariant forall j :: 0 <= j < k ==> entities[j] == LlmEntity(uuid, next0 + 2 * j, rows[j])
    {
      var row := rows[k];
      var id := uuid(next);
      var attributeId := uuid(next + 1);
      var entity := Entity(id, row.name, LlmEntityType(row.typeLabel),
                           [Attribute(attributeId, "extraction_method", "LLM", OtherAttribute("method"), 1.0)],
                           row.confidence, None);
      assert entity == LlmEntity(uuid, next0 + 2 * k, rows[k]);
      entities := entities + [entity];
      next := next + 2;
      k := k + 1;
    }
    assert Decoded(decoder.entities, response) == Some(rows);
    assert entities == LlmEntities(uuid, next0, rows);
    r := Ok(entities);
  }

  /** What an LLM entity carries over from its row. */
  predicate LlmEntityFrom(e: Entity, row: EntityRow) {
    e.name == row.name && e.entityType == LlmEntityType(row.typeLabel) &&
    e.confidence == row.confidence && e.position.None? &&
    |e.attributes| == 1 && e.attributes[0].name == "extraction_method" && e.attributes[0].value == "LLM" &&
    e.attributes[0].attributeType == OtherAttribute("method") && e.attributes[0].confidence == 1.0
  }

  /** Parsing succeeds iff the slice decodes; then there is one entity per
      row, in order, and with an identifier source that never repeats no
      identifier (of an entity or of its attribute) is drawn twice. */
  lemma ParsedEntitiesProperties(decoder: Decoder, uuid: nat -> string, next: nat, response: string)
    ensures ParsedEntities(decoder, uuid, next, response).Ok? <==> Decoded(decoder.entities, response).Some?
    ensures ParsedEntities(decoder, uuid, next, response).Ok? ==>
      |ParsedEntities(decoder, uuid, next, response).value| == |Decoded(decoder.entities, response).value| &&
      forall k :: 0 <= k < |ParsedEntities(decoder, uuid, next, response).value| ==>
        LlmEntityFrom(ParsedEntities(decoder, uuid, next, response).value[k], Decoded(decoder.entities, response).value[k])
    ensures ParsedEntities(decoder, uuid, next, response).Ok? && InjectiveIds(uuid) ==>
      forall i, j :: 0 <= i < |ParsedEntities(decoder, uuid, next, response).value| &&
                     0 <= j < |ParsedEntities(decoder, uuid, next, response).value| ==>
        ParsedEntities(decoder, uuid, next, response).value[i].attributes[0].id !=
        ParsedEntities(decoder, uuid, next, response).value[j].id &&
        (i != j ==> ParsedEntities(decoder, uuid, next, response).value[i].id !=
                    ParsedEntities(decoder, uuid, next, response).value[j].id)
  {
    if ParsedEntities(decoder, uuid, next, response).Ok? {
      var es := ParsedEntities(decoder, uuid, next, response).value;
      var rows := Decoded(decoder.entities, response).value;
      assert es == LlmEntities(uuid, next, rows);
      forall k | 0 <= k < |es|
        ensures LlmEntityFrom(es[k], rows[k])
        ensures es[k].id == uuid(next + 2 * k) && es[k].attributes[0].id == uuid(next + 2 * k + 1)
      {
        assert es[k] == LlmEntity(uuid, next + 2 * k, rows[k]);
      }
      if InjectiveIds(uuid) {
        forall i, j | 0 <= i < |es| && 0 <= j < |es|
          ensures es[i].attributes[0].id != es[j].id
          ensures i != j ==> es[i].id != es[j].id
        {
        }
      }
    }
  }

  // ---------------------------------------------------------------------------
  // Relationships

  /** A decoded relationship row, its names lowercased for the lookup; the
      relationship text is both the custom type and the label. */
  function LlmRow(row: RelationshipRow): NamedRow {
    NamedRow(Lower(row.from), Lower(row.to), OtherRelationship(row.relationship), row.relationship, row.confidence)
  }

  function LlmRows(rows: seq<RelationshipRow>): seq<NamedRow> {
    seq(|rows|, k requires 0 <= k < |rows| => LlmRow(rows[k]))
  }

  /** `parse_relationships_from_llm_response`. */
  function ParsedRelationships(decoder: Decoder, uuid: nat -> string, next: nat, response: string,
                               entities: seq<Entity>): Result<seq<Relationship>> {
    match Decoded(decoder.relationships, response)
    case None => Err(RelationshipsParseError)
    case Some(rows) => Ok(ResolvedRows(NameMap(entities), uuid, next, LlmRows(rows)))
  }

  method ParseRelationshipsFromLlmResponse(decoder: Decoder, uuid: nat -> string, next0: nat, response: string,
                                           entities: seq<Entity>)
    returns (r: Result<seq<Relationship>>, next: nat)
    ensures r == ParsedRelationships(decoder, uuid, next0, response, entities)
    ensures next == next0 + (if r.Ok? then |r.value| else 0)
  {
    var json := JsonSlice(response);
    if json.None? {
      return Err(RelationshipsParseError), next0;
    }
    var decoded := decoder.relationships(json.value);
    if decoded.None? {
      return Err(RelationshipsParseError), next0;
    }
    var entityMap := NameMap(entities);
    var relationships;
    relationships, next := ResolveRows(entityMap, uuid, next0, LlmRows(decoded.value));
    r := Ok(relationships);
  }

  /** A row is kept iff both of its names are, ignoring case, the name of
      some entity. */
  lemma LlmRowKept(entities: seq<Entity>, row: RelationshipRow)
    ensures Resolves(NameMap(entities), LlmRow(row)) <==>
      (exists i :: 0 <= i < |entities| && Lower(entities[i].name) == Lower(row.from)) &&
      (exists j :: 0 <= j < |entities| && Lower(entities[j].name) == Lower(row.to))
  {
    NameMapLookup(entities, Lower(row.from));
    NameMapLookup(entities, Lower(row.to));
  }

  /** Parsing succeeds iff the slice decodes; then every relationship joins
      two listed entities, has the row's text as both custom type and label,
      and there are at most as many relationships as rows. */
  lemma ParsedRelationshipsProperties(decoder: Decoder, uuid: nat -> string, next: nat, response: string,
                                      entities: seq<Entity>)
    ensures ParsedRelationships(decoder, uuid, next, response, entities).Ok? <==>
      Decoded(decoder.relationships, response).Some?
    ensures ParsedRelationships(decoder, uuid, next, response, entities).Ok? ==>
      |ParsedRelationships(decoder, uuid, next, response, entities).value| <= |Decoded(decoder.relationships, response).value|
    ensures ParsedRelationships(decoder, uuid, next, response, entities).Ok? ==>
      forall k :: 0 <= k < |ParsedRelationships(decoder, uuid, next, response, entities).value| ==>
        JoinsListed(ParsedRelationships(decoder, uuid, next, response, entities).value[k], entities) &&
        ParsedRelationships(decoder, uuid, next, response, entities).value[k].relationshipType ==
          OtherRelationship(ParsedRelationships(decoder, uuid, next, response, entities).value[k].labelText)
  {
    if Decoded(decoder.relationships, response).Some? {
      var rows := LlmRows(Decoded(decoder.relationships, response).value);
      var names := NameMap(entities);
      ResolvedRowsSound(entities, uuid, next, rows);
      ResolvedRowsSelfLabelled(names, uuid, next, rows);
    }
  }

  // ---------------------------------------------------------------------------
  // Concepts

  function LlmConcept(uuid: nat -> string, next: nat, row: ConceptRow): Concept {
    Concept(uuid(next), row.name, row.description, [], row.confidence, None)
  }

  function LlmConcepts(uuid: nat -> string, next: nat, rows: seq<ConceptRow>): seq<Concept> {
    seq(|rows|, k requires 0 <= k < |rows| => LlmConcept(uuid, next + k, rows[k]))
  }

  /** `parse_concepts_from_llm_response`. */
  function ParsedConcepts(decoder: Decoder, uuid: nat -> string, next: nat, response: string): Result<seq<Concept>> {
    match Decoded(decoder.concepts, response)
    case None => Err(ConceptsParseError)
    case Some(rows) => Ok(LlmConcepts(uuid, next, rows))
  }

  method ParseConceptsFromLlmResponse(decoder: Decoder, uuid: nat -> string, next0: nat, response: string)
    returns (r: Result<seq<Concept>>, next: nat)
    ensures r == ParsedConcepts(decoder, uuid, next0, response)
    ensures next == next0 + (if r.Ok? then |r.value| else 0)
  {
    var json := JsonSlice(response);
    if json.None? {
      return Err(ConceptsParseError), next0;
    }
    var decoded := decoder.concepts(json.value);
    if decoded.None? {
      return Err(ConceptsParseError), next0;
    }
    var rows := decoded.value;
    var concepts: seq<Concept> := [];
    next := next0;
    var k := 0;
    while k < |rows|
      invariant k <= |rows| && |concepts| == k && next == next0 + k
      invariant forall j :: 0 <= j < k ==> concepts[j] == LlmConcept(uuid, next0 + j, rows[j])
    {
      var row := rows[k];
      concepts := concepts + [Concept(uuid(next), row.name, row.description, [], row.confidence, None)];
      next := next + 1;
      k := k + 1;
    }
    assert Decoded(decoder.concepts, response) == Some(rows);
    assert concepts == LlmConcepts(uuid, next0, rows);
    r := Ok(concepts);
  }

  /** Parsing succeeds iff the slice decodes; then there is one concept per
      row, with the row's name, description and confidence, no related
      entities and no position. */
  lemma ParsedConceptsProperties(decoder: Decoder, uuid: nat -> string, next: nat, response: string)
    ensures ParsedConcepts(decoder, uuid, next, response).Ok? <==> Decoded(decoder.concepts, response).Some?
    ensures ParsedConcepts(decoder, uuid, next, response).Ok? ==>
      |ParsedConcepts(decoder, uuid, next, response).value| == |Decoded(decoder.concepts, response).value| &&
      forall k :: 0 <= k < |ParsedConcepts(decoder, uuid, next, response).value| ==>
        ParsedConcepts(decoder, uuid, next, response).value[k].name == Decoded(decoder.concepts, response).value[k].name &&
        ParsedConcepts(decoder, uuid, next, response).value[k].description ==
          Decoded(decoder.concepts, response).value[k].description &&
        ParsedConcepts(decoder, uuid, next, response).value[k].confidence ==
          Decoded(decoder.concepts, response).value[k].confidence &&
        ParsedConcepts(decoder, uuid, next, response).value[k].relatedEntities == [] &&
        ParsedConcepts(decoder, uuid, next, response).value[k].position.None?
  {
  }
}
