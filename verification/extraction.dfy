/** The two extraction pipelines of `EntityExtractor`: `extract_from_text`
    (patterns, or the language model with a fallback to patterns) and
    `extract_with_deep_analysis` (the language-model stages followed by the
    enhanced patterns, the context enhancement and the concept links).
    Every call to the model is replaced by its reply, `None` when the call
    failed; the elapsed time is a parameter. */
module Extraction {
  import opened Strings
  import opened Regex
  import opened Config
  import opened ExtractionTypes
  import opened TextProcessor
  import opened PatternEntities
  import opened PatternRelationships
  import opened NameResolution
  import opened LlmParsing
  import opened DeepAnalysis

  /** The model's reply to each of the three prompts; `None` when the call
      failed. */
  datatype LlmReplies = LlmReplies(entities: Option<string>, relationships: Option<string>, concepts: Option<string>)

  // ---------------------------------------------------------------------------
  // The language-model stages, each falling back to its pattern extractor

  /** `extract_entities_with_llm`: nothing without the model; the parsed
      reply when there is one; otherwise the pattern entities.  The second
      component is the identifier counter after the stage. */
  function EntitiesWithLlm(ex: Extractor, decoder: Decoder, uuid: nat -> string, next: nat, text: ProcessedText,
                           reply: Option<string>): (seq<Entity>, nat) {
    if !ex.config.useLlm then ([], next)
    else if reply.Some? && ParsedEntities(decoder, uuid, next, reply.value).Ok? then
      (ParsedEntities(decoder, uuid, next, reply.value).value, next + 2 * |ParsedEntities(decoder, uuid, next, reply.value).value|)
    else BuildEntities(EntityMaker(ex.regex, uuid), next, EntityMatches(ex, text.sentences))
  }

  method ExtractEntitiesWithLlm(ex: Extractor, decoder: Decoder, uuid: nat -> string, next0: nat, text: ProcessedText,
                                reply: Option<string>)
    returns (entities: seq<Entity>, next: nat)
    ensures entities == EntitiesWithLlm(ex, decoder, uuid, next0, text, reply).0
    ensures next == EntitiesWithLlm(ex, decoder, uuid, next0, text, reply).1
  {
    if !ex.config.useLlm {
      return [], next0;
    }
    match reply
    case None =>
      entities, next := ExtractEntitiesWithPatterns(ex, uuid, next0, text.sentences);
    case Some(response) =>
      var parsed;
      parsed, next := ParseEntitiesFromLlmResponse(decoder, uuid, next0, response);
      if parsed.Ok? {
        entities := parsed.value;
      } else {
        entities, next := ExtractEntitiesWithPatterns(ex, uuid, next0, text.sentences);
      }
  }

  /** `extract_relationships_with_llm`: the pattern relationships without
      the model or without entities; the parsed reply when there is one;
      otherwise the pattern relationships. */
  function RelationshipsWithLlm(ex: Extractor, decoder: Decoder, uuid: nat -> string, next: nat, text: ProcessedText,
                                entities: seq<Entity>, reply: Option<string>): (seq<Relationship>, nat) {
    if ex.config.useLlm && entities != [] && reply.Some? &&
       ParsedRelationships(decoder, uuid, next, reply.value, entities).Ok? then
      (ParsedRelationships(decoder, uuid, next, reply.value, entities).value,
       next + |ParsedRelationships(decoder, uuid, next, reply.value, entities).value|)
    else
      (BuildRelationships(RelationshipFinder(ex.relationshipPatterns), uuid, next, AllPairs(entities, text.sentences)),
       next + |BuildRelationships(RelationshipFinder(ex.relationshipPatterns), uuid, next, AllPairs(entities, text.sentences))|)
  }

  method ExtractRelationshipsWithLlm(ex: Extractor, decoder: Decoder, uuid: nat -> string, next0: nat,
                                     text: ProcessedText, entities: seq<Entity>, reply: Option<string>)
    returns (relationships: seq<Relationship>, next: nat)
    ensures relationships == RelationshipsWithLlm(ex, decoder, uuid, next0, text, entities, reply).0
    ensures next == RelationshipsWithLlm(ex, decoder, uuid, next0, text, entities, reply).1
  {
    if !ex.config.useLlm || entities == [] {
      relationships, next := ExtractRelationshipsWithPatterns(ex, uuid, next0, text.sentences, entities);
      return;
    }
    match reply
    case None =>
      relationships, next := ExtractRelationshipsWithPatterns(ex, uuid, next0, text.sentences, entities);
    case Some(response) =>
      var parsed;
      parsed, next := ParseRelationshipsFromLlmResponse(decoder, uuid, next0, response, entities);
      if parsed.Ok? {
        relationships := parsed.value;
      } else {
        relationships, next := ExtractRelationshipsWithPatterns(ex, uuid, next0, text.sentences, entities);
      }
  }

  /** `extract_concepts_with_llm`: the pattern concepts without the model;
      the parsed reply when there is one; otherwise the pattern concepts. */
  function ConceptsWithLlm(ex: Extractor, decoder: Decoder, uuid: nat -> string, next: nat, text: ProcessedText,
                           reply: Option<string>): (seq<Concept>, nat) {
    if ex.config.useLlm && reply.Some? && ParsedConcepts(decoder, uuid, next, reply.value).Ok? then
      (ParsedConcepts(decoder, uuid, next, reply.value).value, next + |ParsedConcepts(decoder, uuid, next, reply.value).value|)
    else
      (BuildConcepts(uuid, next, ConceptMatches(ex, text.sentences)),
       next + |BuildConcepts(uuid, next, ConceptMatches(ex, text.sentences))|)
  }

  method ExtractConceptsWithLlm(ex: Extractor, decoder: Decoder, uuid: nat -> string, next0: nat, text: ProcessedText,
                                reply: Option<string>)
    returns (concepts: seq<Concept>, next: nat)
    ensures concepts == ConceptsWithLlm(ex, decoder, uuid, next0, text, reply).0
    ensures next == ConceptsWithLlm(ex, decoder, uuid, next0, text, reply).1
  {
    if !ex.config.useLlm {
      concepts, next := ExtractConceptsWithPatterns(ex, uuid, next0, text.sentences);
      return;
    }
    match reply
    case None =>
      concepts, next := ExtractConceptsWithPatterns(ex, uuid, next0, text.sentences);
    case Some(response) =>
      var parsed;
      parsed, next := ParseConceptsFromLlmResponse(decoder, uuid, next0, response);
      if parsed.Ok? {
        concepts := parsed.value;
      } else {
        concepts, next := ExtractConceptsWithPatterns(ex, uuid, next0, text.sentences);
      }
  }

  // ---------------------------------------------------------------------------
  // What the stages guarantee

  /** A relationship between two entities of the list. */
  predicate Joins(r: Relationship, entities: seq<Entity>) {
    r.sourceEntityId in EntityIds(entities) && r.targetEntityId in EntityIds(entities)
  }

  /** Whichever way the relationship stage goes (parsed reply or pattern
      fallback), every relationship it yields joins two of the entities it
      was given; with the model on and a parsable reply there are at most as
      many relationships as reply rows. */
  lemma RelationshipsWithLlmJoin(ex: Extractor, decoder: Decoder, uuid: nat -> string, next: nat, text: ProcessedText,
                                 entities: seq<Entity>, reply: Option<string>)
    ensures forall k :: 0 <= k < |RelationshipsWithLlm(ex, decoder, uuid, next, text, entities, reply).0| ==>
      Joins(RelationshipsWithLlm(ex, decoder, uuid, next, text, entities, reply).0[k], entities)
    ensures RelationshipsWithLlm(ex, decoder, uuid, next, text, entities, reply).1 ==
      next + |RelationshipsWithLlm(ex, decoder, uuid, next, text, entities, reply).0|
  {
    var rs := RelationshipsWithLlm(ex, decoder, uuid, next, text, entities, reply).0;
    if ex.config.useLlm && entities != [] && reply.Some? &&
       ParsedRelationships(decoder, uuid, next, reply.value, entities).Ok? {
      ParsedRelationshipsProperties(decoder, uuid, next, reply.value, entities);
      forall k | 0 <= k < |rs| ensures Joins(rs[k], entities) {
        assert JoinsListed(rs[k], entities);
      }
    } else {
      PatternRelationshipsProperties(ex.relationshipPatterns, uuid, next, entities, text.sentences);
      forall k | 0 <= k < |rs| ensures Joins(rs[k], entities) {
        assert SoundRelationship(rs[k], entities, text.sentences);
      }
    }
  }

  /** The entity stage: empty without the model; the reply's entities, in
      row order and without positions, when it parses; otherwise the
      pattern entities. */
  lemma EntitiesWithLlmCases(ex: Extractor, decoder: Decoder, uuid: nat -> string, next: nat, text: ProcessedText,
                             reply: Option<string>)
    ensures !ex.config.useLlm ==> EntitiesWithLlm(ex, decoder, uuid, next, text, reply).0 == []
    ensures ex.config.useLlm && reply.Some? && Decoded(decoder.entities, reply.value).Some? ==>
      |EntitiesWithLlm(ex, decoder, uuid, next, text, reply).0| == |Decoded(decoder.entities, reply.value).value| &&
      forall k :: 0 <= k < |EntitiesWithLlm(ex, decoder, uuid, next, text, reply).0| ==>
        LlmEntityFrom(EntitiesWithLlm(ex, decoder, uuid, next, text, reply).0[k], Decoded(decoder.entities, reply.value).value[k])
    ensures ex.config.useLlm && (reply.None? || Decoded(decoder.entities, reply.value).None?) ==>
      EntitiesWithLlm(ex, decoder, uuid, next, text, reply).0 ==
        BuildEntities(EntityMaker(ex.regex, uuid), next, EntityMatches(ex, text.sentences)).0
  {
    if reply.Some? {
      ParsedEntitiesProperties(decoder, uuid, next, reply.value);
    }
  }

  // ---------------------------------------------------------------------------
  // extract_from_text

  /** The summary of a result; the threshold and method name depend on the
      pipeline. */
  function Summary(entities: seq<Entity>, relationships: seq<Relationship>, concepts: seq<Concept>,
                   elapsedMs: nat, threshold: real, methodName: string): ExtractionMetadata {
    ExtractionMetadata(|entities|, |relationships|, |concepts|, elapsedMs, threshold, methodName)
  }

  const PatternThreshold: real := 0.5
  const DeepThreshold: real := 0.6
  const PatternMethod: string := "Pattern-based"

  /** The method name `extract_from_text` reports. */
  function MethodName(config: ExtractionConfig): string {
    if config.useLlm then "LLM-" + config.llmModel else PatternMethod
  }

  /** The entity step of `extract_from_text`: the model stage or the
      pattern extractor. */
  function EntityStage(ex: Extractor, decoder: Decoder, uuid: nat -> string, next: nat, text: ProcessedText,
                       replies: LlmReplies): (seq<Entity>, nat) {
    if ex.config.useLlm then EntitiesWithLlm(ex, decoder, uuid, next, text, replies.entities)
    else BuildEntities(EntityMaker(ex.regex, uuid), next, EntityMatches(ex, text.sentences))
  }

  /** `extract_from_text`: entities, then relationships between them, then
      concepts, drawing identifiers in that order.  Without the model the
      relationship and concept stages reduce to their pattern extractors,
      so one function covers both branches of the source. */
  function FromText(ex: Extractor, decoder: Decoder, uuid: nat -> string, next: nat, text: ProcessedText,
                    replies: LlmReplies, elapsedMs: nat): ExtractionResult {
    var es := EntityStage(ex, decoder, uuid, next, text, replies);
    var rs := RelationshipsWithLlm(ex, decoder, uuid, es.1, text, es.0, replies.relationships);
    var cs := ConceptsWithLlm(ex, decoder, uuid, rs.1, text, replies.concepts);
    ExtractionResult(es.0, rs.0, cs.0, Summary(es.0, rs.0, cs.0, elapsedMs, PatternThreshold, MethodName(ex.config)))
  }

  /** The first choice of `extract_from_text`. */
  method RunEntityStage(ex: Extractor, decoder: Decoder, uuid: nat -> string, next0: nat, text: ProcessedText,
                        replies: LlmReplies)
    returns (entities: seq<Entity>, next: nat)
    ensures entities == EntityStage(ex, decoder, uuid, next0, text, replies).0
    ensures next == EntityStage(ex, decoder, uuid, next0, text, replies).1
  {
    if ex.config.useLlm {
      entities, next := ExtractEntitiesWithLlm(ex, decoder, uuid, next0, text, replies.entities);
    } else {
      entities, next := ExtractEntitiesWithPatterns(ex, uuid, next0, text.sentences);
    }
  }

  /** The second choice of `extract_from_text`; without the model the
      pattern extractor is what the model stage falls back to anyway. */
  method RunRelationshipStage(ex: Extractor, decoder: Decoder, uuid: nat -> string, next0: nat, text: ProcessedText,
                              entities: seq<Entity>, replies: LlmReplies)
    returns (relationships: seq<Relationship>, next: nat)
    ensures relationships == RelationshipsWithLlm(ex, decoder, uuid, next0, text, entities, replies.relationships).0
    ensures next == RelationshipsWithLlm(ex, decoder, uuid, next0, text, entities, replies.relationships).1
  {
    if ex.config.useLlm {
      relationships, next := ExtractRelationshipsWithLlm(ex, decoder, uuid, next0, text, entities, replies.relationships);
    } else {
      relationships, next := ExtractRelationshipsWithPatterns(ex, uuid, next0, text.sentences, entities);
    }
  }

  /** The third choice of `extract_from_text`. */
  method RunConceptStage(ex: Extractor, decoder: Decoder, uuid: nat -> string, next0: nat, text: ProcessedText,
                         replies: LlmReplies)
    returns (concepts: seq<Concept>, next: nat)
    ensures concepts == ConceptsWithLlm(ex, decoder, uuid, next0, text, replies.concepts).0
    ensures next == ConceptsWithLlm(ex, decoder, uuid, next0, text, replies.concepts).1
  {
    if ex.config.useLlm {
      concepts, next := ExtractConceptsWithLlm(ex, decoder, uuid, next0, text, replies.concepts);
    } else {
      concepts, next := ExtractConceptsWithPatterns(ex, uuid, next0, text.sentences);
    }
  }

  method ExtractFromText(ex: Extractor, decoder: Decoder, uuid: nat -> string, next0: nat, text: ProcessedText,
                         replies: LlmReplies, elapsedMs: nat)
    returns (r: Result<ExtractionResult>)
    ensures r == Ok(FromText(ex, decoder, uuid, next0, text, replies, elapsedMs))
  {
    var entities, relationships, concepts;
    var next := next0;
    entities, next := RunEntityStage(ex, decoder, uuid, next, text, replies);
    relationships, next := RunRelationshipStage(ex, decoder, uuid, next, text, entities, replies);
    concepts, next := RunConceptStage(ex, decoder, uuid, next, text, replies);
    var methodName := if ex.config.useLlm then "LLM-" + ex.config.llmModel else "Pattern-based";
    var metadata := ExtractionMetadata(|entities|, |relationships|, |concepts|, elapsedMs, 0.5, methodName);
    r := Ok(ExtractionResult(entities, relationships, concepts, metadata));
  }

  /** The result of `extract_from_text` counts what it holds, reports
      threshold 0.5 and the method that ran, and every relationship joins
      two entities of the same result. */
  lemma FromTextProperties(ex: Extractor, decoder: Decoder, uuid: nat -> string, next: nat, text: ProcessedText,
                           replies: LlmReplies, elapsedMs: nat)
    ensures FromText(ex, decoder, uuid, next, text, replies, elapsedMs).metadata.totalEntities ==
      |FromText(ex, decoder, uuid, next, text, replies, elapsedMs).entities|
    ensures FromText(ex, decoder, uuid, next, text, replies, elapsedMs).metadata.totalRelationships ==
      |FromText(ex, decoder, uuid, next, text, replies, elapsedMs).relationships|
    ensures FromText(ex, decoder, uuid, next, text, replies, elapsedMs).metadata.totalConcepts ==
      |FromText(ex, decoder, uuid, next, text, replies, elapsedMs).concepts|
    ensures FromText(ex, decoder, uuid, next, text, replies, elapsedMs).metadata.confidenceThreshold == 0.5
    ensures FromText(ex, decoder, uuid, next, text, replies, elapsedMs).metadata.extractionMethod ==
      (if ex.config.useLlm then "LLM-" + ex.config.llmModel else "Pattern-based")
    ensures forall k :: 0 <= k < |FromText(ex, decoder, uuid, next, text, replies, elapsedMs).relationships| ==>
      Joins(FromText(ex, decoder, uuid, next, text, replies, elapsedMs).relationships[k],
            FromText(ex, decoder, uuid, next, text, replies, elapsedMs).entities)
  {
    var es := EntityStage(ex, decoder, uuid, next, text, replies);
    RelationshipsWithLlmJoin(ex, decoder, uuid, es.1, text, es.0, replies.relationships);
  }

  /** Without the model no reply is consulted: the result is the pattern
      extractors' output, each drawing identifiers after the previous one. */
  lemma FromTextWithoutLlm(ex: Extractor, decoder: Decoder, uuid: nat -> string, next: nat, text: ProcessedText,
                           replies: LlmReplies, elapsedMs: nat)
    requires !ex.config.useLlm
    ensures FromText(ex, decoder, uuid, next, text, replies, elapsedMs).entities ==
      BuildEntities(EntityMaker(ex.regex, uuid), next, EntityMatches(ex, text.sentences)).0
    ensures FromText(ex, decoder, uuid, next, text, replies, elapsedMs).relationships ==
      BuildRelationships(RelationshipFinder(ex.relationshipPatterns), uuid,
                         BuildEntities(EntityMaker(ex.regex, uuid), next, EntityMatches(ex, text.sentences)).1,
                         AllPairs(BuildEntities(EntityMaker(ex.regex, uuid), next, EntityMatches(ex, text.sentences)).0,
                                  text.sentences))
    ensures FromText(ex, decoder, uuid, next, text, replies, elapsedMs).concepts ==
      BuildConcepts(uuid, RelationshipsWithLlm(ex, decoder, uuid,
                                               BuildEntities(EntityMaker(ex.regex, uuid), next, EntityMatches(ex, text.sentences)).1,
                                               text,
                                               BuildEntities(EntityMaker(ex.regex, uuid), next, EntityMatches(ex, text.sentences)).0,
                                               replies.relationships).1,
                    ConceptMatches(ex, text.sentences))
  {
  }

  // ---------------------------------------------------------------------------
  // extract_with_deep_analysis

  const DeepAnalysisRequiresLlm: GraphError :=
    EntityExtraction("Deep analysis requires LLM to be enabled. Use --use-llm flag.")

  /** What the three model stages of deep analysis yield, and the
      identifier counter after them. */
  datatype FirstStages = FirstStages(entities: seq<Entity>, relationships: seq<Relationship>, concepts: seq<Concept>,
                                     next: nat)

  function First(ex: Extractor, decoder: Decoder, uuid: nat -> string, next: nat, text: ProcessedText,
                 replies: LlmReplies): FirstStages {
    var es := EntitiesWithLlm(ex, decoder, uuid, next, text, replies.entities);
    var rs := RelationshipsWithLlm(ex, decoder, uuid, es.1, text, es.0, replies.relationships);
    var cs := ConceptsWithLlm(ex, decoder, uuid, rs.1, text, replies.concepts);
    FirstStages(es.0, rs.0, cs.0, cs.1)
  }

  /** All stages of deep analysis: the first three, then the relationships
      the enhanced-pattern rows resolve to among the first-stage entities,
      the context enhancement of those entities, and the links from the
      concepts to the enhanced entities. */
  datatype DeepStages = DeepStages(
    first: FirstStages,
    deep: seq<Relationship>,
    enhanced: seq<Entity>,
    links: seq<Relationship>)

  /** The identifier counter after the enhanced-pattern relationships. */
  function AfterDeep(uuid: nat -> string, rows: seq<NamedRow>, f: FirstStages): nat {
    f.next + |ResolvedRows(NameMap(f.entities), uuid, f.next, rows)|
  }

  /** The identifier counter after the context enhancement. */
  function AfterEnhancement(uuid: nat -> string, context: string -> ContextInfo, rows: seq<NamedRow>, f: FirstStages): nat {
    AfterDeep(uuid, rows, f) + DrawnFor(context, f.entities)
  }

  /** The later stages, for the rows the enhanced patterns capture and the
      context each entity name has in the text. */
  function Later(uuid: nat -> string, context: string -> ContextInfo, rows: seq<NamedRow>, f: FirstStages): DeepStages {
    var enhanced := EnhancedEntities(context, uuid, AfterDeep(uuid, rows, f), f.entities);
    DeepStages(f, ResolvedRows(NameMap(f.entities), uuid, f.next, rows), enhanced,
               ConceptLinks(uuid, AfterEnhancement(uuid, context, rows, f), MentionPairs(f.concepts, enhanced)))
  }

  function Stages(ex: Extractor, decoder: Decoder, uuid: nat -> string, next: nat, text: ProcessedText,
                  replies: LlmReplies): DeepStages {
    Later(uuid, ContextOf(text.cleanedText), EnhancedRows(ex.regex, EnhancedPatterns, Lower(text.cleanedText)),
          First(ex, decoder, uuid, next, text, replies))
  }

  /** `extract_with_deep_analysis`: an error without the model; otherwise
      the enhanced entities, the first-stage relationships followed by the
      enhanced-pattern ones and the concept links, and the concepts. */
  function WithDeepAnalysis(ex: Extractor, decoder: Decoder, uuid: nat -> string, next: nat, text: ProcessedText,
                            replies: LlmReplies, elapsedMs: nat): Result<ExtractionResult> {
    if !ex.config.useLlm then Err(DeepAnalysisRequiresLlm)
    else
      var s := Stages(ex, decoder, uuid, next, text, replies);
      var relationships := s.first.relationships + s.deep + s.links;
      Ok(ExtractionResult(s.enhanced, relationships, s.first.concepts,
                          Summary(s.enhanced, relationships, s.first.concepts, elapsedMs, DeepThreshold,
                                  "Deep-Analysis-LLM-" + ex.config.llmModel)))
  }

  /** Phase 1 of `extract_with_deep_analysis`. */
  method RunFirstStages(ex: Extractor, decoder: Decoder, uuid: nat -> string, next0: nat, text: ProcessedText,
                        replies: LlmReplies)
    returns (entities: seq<Entity>, relationships: seq<Relationship>, concepts: seq<Concept>, next: nat)
    ensures FirstStages(entities, relationships, concepts, next) == First(ex, decoder, uuid, next0, text, replies)
  {
    entities, next := ExtractEntitiesWithLlm(ex, decoder, uuid, next0, text, replies.entities);
    relationships, next := ExtractRelationshipsWithLlm(ex, decoder, uuid, next, text, entities, replies.relationships);
    concepts, next := ExtractConceptsWithLlm(ex, decoder, uuid, next, text, replies.concepts);
  }

  /** Phases 2 to 4 of `extract_with_deep_analysis`. */
  method RunLaterStages(regex: Compiler, uuid: nat -> string, text: ProcessedText, entities0: seq<Entity>,
                        relationships0: seq<Relationship>, concepts: seq<Concept>, next0: nat)
    returns (entities: seq<Entity>, relationships: seq<Relationship>)
    ensures entities == Later(uuid, ContextOf(text.cleanedText), EnhancedRows(regex, EnhancedPatterns, Lower(text.cleanedText)),
                              FirstStages(entities0, relationships0, concepts, next0)).enhanced
    ensures relationships == relationships0 +
      Later(uuid, ContextOf(text.cleanedText), EnhancedRows(regex, EnhancedPatterns, Lower(text.cleanedText)),
            FirstStages(entities0, relationships0, concepts, next0)).deep +
      Later(uuid, ContextOf(text.cleanedText), EnhancedRows(regex, EnhancedPatterns, Lower(text.cleanedText)),
            FirstStages(entities0, relationships0, concepts, next0)).links
  {
    ghost var rows := EnhancedRows(regex, EnhancedPatterns, Lower(text.cleanedText));
    ghost var f := FirstStages(entities0, relationships0, concepts, next0);
    var deep, links, next;
    deep, next := ExtractRelationshipsWithEnhancedPatterns(regex, uuid, next0, text.cleanedText, entities0);
    relationships := relationships0 + deep;
    assert next == AfterDeep(uuid, rows, f);
    entities, next := EnhanceEntitiesWithContext(text.cleanedText, uuid, next, entities0);
    assert next == AfterEnhancement(uuid, ContextOf(text.cleanedText), rows, f);
    links, next := ExtractConceptRelationships(uuid, next, concepts, entities);
    relationships := relationships + links;
  }

  method ExtractWithDeepAnalysis(ex: Extractor, decoder: Decoder, uuid: nat -> string, next0: nat, text: ProcessedText,
                                 replies: LlmReplies, elapsedMs: nat)
    returns (r: Result<ExtractionResult>)
    ensures r == WithDeepAnalysis(ex, decoder, uuid, next0, text, replies, elapsedMs)
  {
    if !ex.config.useLlm {
      return Err(EntityExtraction("Deep analysis requires LLM to be enabled. Use --use-llm flag."));
    }
    var entities, relationships, concepts, next := RunFirstStages(ex, decoder, uuid, next0, text, replies);
    entities, relationships := RunLaterStages(ex.regex, uuid, text, entities, relationships, concepts, next);
    var metadata := ExtractionMetadata(|entities|, |relationships|, |concepts|, elapsedMs, 0.6,
                                       "Deep-Analysis-LLM-" + ex.config.llmModel);
    r := Ok(ExtractionResult(entities, relationships, concepts, metadata));
  }

  /** A relationship of a deep-analysis result points at one of its
      entities and starts from one of its entities or concepts. */
  predicate Anchored(r: Relationship, entities: seq<Entity>, concepts: seq<Concept>) {
    r.targetEntityId in EntityIds(entities) &&
    (r.sourceEntityId in EntityIds(entities) || exists c :: c in concepts && c.id == r.sourceEntityId)
  }

  /** Two lists of the same length whose entities carry the same
      identifiers, position by position. */
  predicate SameIds(a: seq<Entity>, b: seq<Entity>) {
    |a| == |b| && forall k :: 0 <= k < |a| ==> a[k].id == b[k].id
  }

  lemma SameIdsSameSet(a: seq<Entity>, b: seq<Entity>)
    requires SameIds(a, b)
    ensures EntityIds(a) == EntityIds(b)
  {
    forall x | x in EntityIds(a) ensures x in EntityIds(b) {
      var k :| 0 <= k < |a| && a[k].id == x;
      assert b[k].id == x;
    }
    forall x | x in EntityIds(b) ensures x in EntityIds(a) {
      var k :| 0 <= k < |b| && b[k].id == x;
      assert a[k].id == x;
    }
  }

  /** Enhancement keeps every identifier in its place. */
  lemma EnhancedIds(context: string -> ContextInfo, uuid: nat -> string, next: nat, es: seq<Entity>)
    ensures SameIds(EnhancedEntities(context, uuid, next, es), es)
  {
    EnhancedEntitiesProperties(context, uuid, next, es);
  }

  predicate AllAnchored(rs: seq<Relationship>, entities: seq<Entity>, concepts: seq<Concept>) {
    forall k :: 0 <= k < |rs| ==> Anchored(rs[k], entities, concepts)
  }

  /** The model stages yield relationships between their own entities. */
  lemma FirstStagesJoin(ex: Extractor, decoder: Decoder, uuid: nat -> string, next: nat, text: ProcessedText,
                        replies: LlmReplies)
    ensures forall k :: 0 <= k < |First(ex, decoder, uuid, next, text, replies).relationships| ==>
      Joins(First(ex, decoder, uuid, next, text, replies).relationships[k], First(ex, decoder, uuid, next, text, replies).entities)
  {
    var es := EntitiesWithLlm(ex, decoder, uuid, next, text, replies.entities);
    RelationshipsWithLlmJoin(ex, decoder, uuid, es.1, text, es.0, replies.relationships);
  }

  /** What the later stages contribute: relationships between the
      first-stage entities, an enhanced list with the same length and
      identifiers, and links from the concepts to the enhanced entities. */
  lemma LaterStagesProperties(uuid: nat -> string, context: string -> ContextInfo, rows: seq<NamedRow>, f: FirstStages)
    ensures forall k :: 0 <= k < |Later(uuid, context, rows, f).deep| ==>
      JoinsListed(Later(uuid, context, rows, f).deep[k], f.entities)
    ensures SameIds(Later(uuid, context, rows, f).enhanced, f.entities)
    ensures AllAnchored(Later(uuid, context, rows, f).links, Later(uuid, context, rows, f).enhanced, f.concepts)
  {
    var s := Later(uuid, context, rows, f);
    ResolvedRowsSound(f.entities, uuid, f.next, rows);
    EnhancedIds(context, uuid, AfterDeep(uuid, rows, f), f.entities);
    LinksAnchored(uuid, AfterEnhancement(uuid, context, rows, f), f.concepts, s.enhanced);
  }

  /** Every concept link starts from a concept and ends at an entity. */
  lemma LinksAnchored(uuid: nat -> string, next: nat, concepts: seq<Concept>, entities: seq<Entity>)
    ensures AllAnchored(ConceptLinks(uuid, next, MentionPairs(concepts, entities)), entities, concepts)
  {
    var links := ConceptLinks(uuid, next, MentionPairs(concepts, entities));
    ConceptLinksProperties(uuid, next, concepts, entities);
    forall k | 0 <= k < |links| ensures Anchored(links[k], entities, concepts) {
      assert LinkOf(links[k], uuid(next + k), concepts, entities);
      var c, e :| c in concepts && e in entities && DescribedIn(c, e) && links[k] == ConceptLink(uuid(next + k), c, e);
    }
  }

  /** Relationships between the first-stage entities, followed by links to
      the enhanced ones, are all anchored in the enhanced list. */
  lemma ConcatAnchored(rels: seq<Relationship>, deep: seq<Relationship>, links: seq<Relationship>,
                       entities: seq<Entity>, enhanced: seq<Entity>, concepts: seq<Concept>)
    requires forall k :: 0 <= k < |rels| ==> Joins(rels[k], entities)
    requires forall k :: 0 <= k < |deep| ==> JoinsListed(deep[k], entities)
    requires SameIds(enhanced, entities)
    requires AllAnchored(links, enhanced, concepts)
    ensures AllAnchored(rels + deep + links, enhanced, concepts)
  {
    SameIdsSameSet(enhanced, entities);
    var all := rels + deep + links;
    forall k | 0 <= k < |all| ensures Anchored(all[k], enhanced, concepts) {
      if k < |rels| {
        assert all[k] == rels[k];
      } else if k < |rels| + |deep| {
        assert all[k] == deep[k - |rels|];
      } else {
        assert all[k] == links[k - |rels| - |deep|];
      }
    }
  }

  /** Deep analysis fails exactly when the model is off, with the source's
      message; otherwise its result counts what it holds, reports threshold
      0.6 and the model's name, keeps one enhanced entity per first-stage
      entity, keeps the first-stage relationships as a prefix, and every
      relationship points at an entity of the result and starts from an
      entity or a concept of the result. */
  lemma DeepAnalysisProperties(ex: Extractor, decoder: Decoder, uuid: nat -> string, next: nat, text: ProcessedText,
                               replies: LlmReplies, elapsedMs: nat)
    ensures WithDeepAnalysis(ex, decoder, uuid, next, text, replies, elapsedMs).Err? <==> !ex.config.useLlm
    ensures !ex.config.useLlm ==>
      WithDeepAnalysis(ex, decoder, uuid, next, text, replies, elapsedMs).error ==
        EntityExtraction("Deep analysis requires LLM to be enabled. Use --use-llm flag.")
    ensures ex.config.useLlm ==>
      WithDeepAnalysis(ex, decoder, uuid, next, text, replies, elapsedMs).value.metadata ==
        ExtractionMetadata(|WithDeepAnalysis(ex, decoder, uuid, next, text, replies, elapsedMs).value.entities|,
                           |WithDeepAnalysis(ex, decoder, uuid, next, text, replies, elapsedMs).value.relationships|,
                           |WithDeepAnalysis(ex, decoder, uuid, next, text, replies, elapsedMs).value.concepts|,
                           elapsedMs, 0.6, "Deep-Analysis-LLM-" + ex.config.llmModel)
    ensures ex.config.useLlm ==>
      |WithDeepAnalysis(ex, decoder, uuid, next, text, replies, elapsedMs).value.entities| ==
        |First(ex, decoder, uuid, next, text, replies).entities|
    ensures ex.config.useLlm ==>
      First(ex, decoder, uuid, next, text, replies).relationships <=
        WithDeepAnalysis(ex, decoder, uuid, next, text, replies, elapsedMs).value.relationships
    ensures ex.config.useLlm ==>
      AllAnchored(WithDeepAnalysis(ex, decoder, uuid, next, text, replies, elapsedMs).value.relationships,
                  WithDeepAnalysis(ex, decoder, uuid, next, text, replies, elapsedMs).value.entities,
                  WithDeepAnalysis(ex, decoder, uuid, next, text, replies, elapsedMs).value.concepts)
  {
    if ex.config.useLlm {
      var s := Stages(ex, decoder, uuid, next, text, replies);
      FirstStagesJoin(ex, decoder, uuid, next, text, replies);
      LaterStagesProperties(uuid, ContextOf(text.cleanedText), EnhancedRows(ex.regex, EnhancedPatterns, Lower(text.cleanedText)), s.first);
      ConcatAnchored(s.first.relationships, s.deep, s.links, s.first.entities, s.enhanced, s.first.concepts);
      assert s.first.relationships <= s.first.relationships + s.deep + s.links;
    }
  }
}
