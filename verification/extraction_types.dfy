/** What the extractor produces: entities with attributes, relationships
    between them and concepts, plus the extractor itself (its configuration
    and compiled patterns). */
module ExtractionTypes {
  import opened Strings
  import opened Regex
  import opened Config

  datatype EntityType = Person | Place | Organization | Event | Product | ConceptType | OtherEntity(name: string)

  datatype RelationshipType =
    | Has | IsA | PartOf | ConnectedTo | RelatedTo | Contains | Owns | Uses | Creates | Influences
    | OtherRelationship(text: string)

  datatype AttributeType = NameAttr | DescriptionAttr | Location | Date | Number | Category | Property | OtherAttribute(name: string)

  /** Byte offsets of a mention and the index of its sentence. */
  datatype TextPosition = TextPosition(start: nat, end: nat, sentenceIndex: nat)

  datatype Attribute = Attribute(id: string, name: string, value: string, attributeType: AttributeType, confidence: real)

  datatype Entity = Entity(
    id: string,
    name: string,
    entityType: EntityType,
    attributes: seq<Attribute>,
    confidence: real,
    position: Option<TextPosition>)

  datatype Relationship = Relationship(
    id: string,
    sourceEntityId: string,
    targetEntityId: string,
    relationshipType: RelationshipType,
    labelText: string,
    confidence: real,
    position: Option<TextPosition>)

  datatype Concept = Concept(
    id: string,
    name: string,
    description: string,
    relatedEntities: seq<string>,
    confidence: real,
    position: Option<TextPosition>)

  datatype ExtractionMetadata = ExtractionMetadata(
    totalEntities: nat,
    totalRelationships: nat,
    totalConcepts: nat,
    processingTimeMs: nat,
    confidenceThreshold: real,
    extractionMethod: string)

  datatype ExtractionResult = ExtractionResult(
    entities: seq<Entity>,
    relationships: seq<Relationship>,
    concepts: seq<Concept>,
    metadata: ExtractionMetadata)

  /** The identifiers of an entity list. */
  function EntityIds(entities: seq<Entity>): set<string> {
    set e | e in entities :: e.id
  }

  // Confidence levels assigned by the pattern-based extractors.
  const PatternEntityConfidence: real := 0.7
  const PatternConceptConfidence: real := 0.6
  const PatternRelationshipConfidence: real := 0.6
  const EnhancedRelationshipConfidence: real := 0.75
  const ConceptRelationshipConfidence: real := 0.65
  const ContextAttributeConfidence: real := 0.7

  /** `EntityExtractor`: the configuration, the regex library used to compile
      patterns at run time, and the three compiled pattern lists. */
  datatype Extractor = Extractor(
    config: ExtractionConfig,
    regex: Compiler,
    entityPatterns: seq<Pattern>,
    relationshipPatterns: seq<Pattern>,
    conceptPatterns: seq<Pattern>)

  ghost predicate ValidExtractor(ex: Extractor) {
    ValidCompiler(ex.regex) &&
    AllValid(ex.entityPatterns) && AllValid(ex.relationshipPatterns) && AllValid(ex.conceptPatterns)
  }

  /** `compile_patterns`: every pattern compiled in order; the first failure
      is the result. */
  function CompilePatterns(regex: Compiler, sources: seq<string>): (r: Result<seq<Pattern>>)
    ensures r.Ok? <==> forall k :: 0 <= k < |sources| ==> regex.compile(sources[k]).Some?
    ensures r.Ok? ==> |r.value| == |sources|
    ensures r.Ok? ==> forall k :: 0 <= k < |sources| ==> r.value[k] == regex.compile(sources[k]).value
  {
    if sources == [] then Ok([])
    else match regex.compile(sources[0])
      case None => Err(RegexError(sources[0]))
      case Some(p) =>
        match CompilePatterns(regex, sources[1..])
        case Err(e) => Err(e)
        case Ok(ps) =>
          assert forall k :: 1 <= k < |sources| ==> sources[k] == sources[1..][k - 1];
          Ok([p] + ps)
  }

  /** `EntityExtractor::new`. */
  function NewExtractor(config: ExtractionConfig, regex: Compiler): (r: Result<Extractor>)
    ensures r.Ok? <==>
      CompilePatterns(regex, config.entityPatterns).Ok? &&
      CompilePatterns(regex, config.relationshipPatterns).Ok? &&
      CompilePatterns(regex, config.conceptPatterns).Ok?
    ensures r.Ok? ==> r.value.config == config && r.value.regex == regex
    ensures r.Ok? && ValidCompiler(regex) ==> ValidExtractor(r.value)
  {
    match CompilePatterns(regex, config.entityPatterns)
    case Err(e) => Err(e)
    case Ok(ep) =>
      match CompilePatterns(regex, config.relationshipPatterns)
      case Err(e) => Err(e)
      case Ok(rp) =>
        match CompilePatterns(regex, config.conceptPatterns)
        case Err(e) => Err(e)
        case Ok(cp) => Ok(Extractor(config, regex, ep, rp, cp))
  }
}
