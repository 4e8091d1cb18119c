/** The extra steps of deep analysis: keyword context of an entity and the
    attributes it adds, concept-to-entity links by case-insensitive
    substring, and the enhanced relationship patterns whose captured words
    are resolved against the entity names. */
module DeepAnalysis {
  import opened Strings
  import opened Regex
  import opened ExtractionTypes
  import opened PatternEntities
  import opened NameResolution

  // ---------------------------------------------------------------------------
  // analyze_entity_context

  /** The map `analyze_entity_context` returns: it only ever holds the keys
      "role" and "domain". */
  datatype ContextInfo = ContextInfo(role: Option<string>, domain: Option<string>)

  /** The number of keys of the map. */
  function ContextSize(info: ContextInfo): (n: nat)
    ensures n <= 2
    ensures n == 0 <==> info.role.None? && info.domain.None?
  {
    (if info.role.Some? then 1 else 0) + (if info.domain.Some? then 1 else 0)
  }

  /** Keyword and role name, in the order they are tried. */
  const RolePatterns: seq<(string, string)> := [
    ("manager", "management_role"),
    ("developer", "technical_role"),
    ("customer", "business_role"),
    ("user", "user_role"),
    ("system", "system_component"),
    ("process", "business_process")]

  /** Keyword and domain name, in the order they are tried. */
  const DomainPatterns: seq<(string, string)> := [
    ("database", "data_management"),
    ("server", "infrastructure"),
    ("application", "software"),
    ("network", "networking"),
    ("security", "cybersecurity")]

  /** The entity name and the role keyword are adjacent, in either order,
      separated by one space. */
  predicate RoleIndicated(text: string, entityLower: string, keyword: string) {
    HasSubstring(text, entityLower + " " + keyword) || HasSubstring(text, keyword + " " + entityLower)
  }

  function RoleHit(text: string, entityLower: string): string -> bool {
    keyword => RoleIndicated(text, entityLower, keyword)
  }

  function DomainHit(text: string): string -> bool {
    keyword => HasSubstring(text, keyword)
  }

  /** The value of the first entry of `table` whose keyword is hit. */
  function FirstMatch(table: seq<(string, string)>, hit: string -> bool): Option<string> {
    if table == [] then None
    else if hit(table[0].0) then Some(table[0].1)
    else FirstMatch(table[1..], hit)
  }

  /** `k` is the first entry of the table whose keyword is hit. */
  predicate FirstHitAt(table: seq<(string, string)>, hit: string -> bool, k: int) {
    0 <= k < |table| && hit(table[k].0) && forall j :: 0 <= j < k ==> !hit(table[j].0)
  }

  /** The search finds a value iff some keyword is hit, and then it is the
      value of the first entry hit. */
  lemma {:induction false} FirstMatchMeaning(table: seq<(string, string)>, hit: string -> bool)
    ensures FirstMatch(table, hit).Some? <==> exists k :: 0 <= k < |table| && hit(table[k].0)
    ensures FirstMatch(table, hit).Some? ==>
      exists k :: FirstHitAt(table, hit, k) && FirstMatch(table, hit).value == table[k].1
  {
    if table != [] {
      FirstMatchMeaning(table[1..], hit);
      if hit(table[0].0) {
        assert FirstHitAt(table, hit, 0);
      } else {
        if FirstMatch(table, hit).Some? {
          var k :| FirstHitAt(table[1..], hit, k) && FirstMatch(table[1..], hit).value == table[1..][k].1;
          assert FirstHitAt(table, hit, k + 1);
        }
        if exists k :: 0 <= k < |table| && hit(table[k].0) {
          var k :| 0 <= k < |table| && hit(table[k].0);
          assert hit(table[1..][k - 1].0);
        }
      }
    }
  }

  /** The context of an entity in the cleaned text. */
  function Context(cleanedText: string, entityName: string): ContextInfo {
    ContextInfo(FirstMatch(RolePatterns, RoleHit(Lower(cleanedText), Lower(entityName))),
                FirstMatch(DomainPatterns, DomainHit(Lower(cleanedText))))
  }

  lemma FirstMatchSuffix(table: seq<(string, string)>, hit: string -> bool, k: nat)
    requires k < |table| && !hit(table[k].0)
    ensures FirstMatch(table[k..], hit) == FirstMatch(table[k + 1..], hit)
  {
    assert table[k..][1..] == table[k + 1..];
  }

  /** `analyze_entity_context`: the first role keyword next to the entity
      name and the first domain keyword anywhere, both in the lowercased
      text. */
  method AnalyzeEntityContext(cleanedText: string, entityName: string) returns (info: ContextInfo)
    ensures info == Context(cleanedText, entityName)
  {
    var text := Lower(cleanedText);
    var entityLower := Lower(entityName);
    var role: Option<string> := None;
    var k := 0;
    while k < |RolePatterns|
      invariant k <= |RolePatterns|
      invariant FirstMatch(RolePatterns, RoleHit(text, entityLower)) == FirstMatch(RolePatterns[k..], RoleHit(text, entityLower))
    {
      if RoleIndicated(text, entityLower, RolePatterns[k].0) {
        role := Some(RolePatterns[k].1);
        break;
      }
      FirstMatchSuffix(RolePatterns, RoleHit(text, entityLower), k);
      k := k + 1;
    }
    var domain: Option<string> := None;
    k := 0;
    while k < |DomainPatterns|
      invariant k <= |DomainPatterns|
      invariant FirstMatch(DomainPatterns, DomainHit(text)) == FirstMatch(DomainPatterns[k..], DomainHit(text))
    {
      if HasSubstring(text, DomainPatterns[k].0) {
        domain := Some(DomainPatterns[k].1);
        break;
      }
      FirstMatchSuffix(DomainPatterns, DomainHit(text), k);
      k := k + 1;
    }
    info := ContextInfo(role, domain);
  }

  // ---------------------------------------------------------------------------
  // enhance_entities_with_context

  function RoleAttribute(id: string, role: string): Attribute {
    Attribute(id, "contextual_role", role, OtherAttribute("role"), ContextAttributeConfidence)
  }

  function DomainAttribute(id: string, domain: string): Attribute {
    Attribute(id, "domain", domain, OtherAttribute("domain"), ContextAttributeConfidence)
  }

  /** The attributes the context adds: the role first, then the domain, each
      drawing the next identifier. */
  function ContextAttributes(uuid: nat -> string, next: nat, info: ContextInfo): (attrs: seq<Attribute>)
    ensures |attrs| == ContextSize(info)
  {
    (if info.role.Some? then [RoleAttribute(uuid(next), info.role.value)] else []) +
    (if info.domain.Some? then [DomainAttribute(uuid(next + (if info.role.Some? then 1 else 0)), info.domain.value)] else [])
  }

  /** `(confidence * 1.2).min(1.0)`. */
  function Boost(confidence: real): (c: real)
    ensures c <= 1.0
    ensures 0.0 <= confidence <= 1.0 ==> confidence <= c
  {
    if confidence * 1.2 < 1.0 then confidence * 1.2 else 1.0
  }

  /** One entity after enhancement: the context attributes appended, and the
      confidence boosted when the context has more than two keys. */
  function EnhancedEntity(uuid: nat -> string, next: nat, e: Entity, info: ContextInfo): Entity {
    e.(attributes := e.attributes + ContextAttributes(uuid, next, info),
       confidence := if ContextSize(info) > 2 then Boost(e.confidence) else e.confidence)
  }

  /** How enhancement changes an entity: nothing but its attribute list,
      which keeps every old attribute and gains at most one
      "contextual_role" and at most one "domain" attribute at 0.7.  The
      context never has more than two keys, so the boost never applies and
      the confidence is unchanged. */
  predicate EnhancementOf(e': Entity, e: Entity, info: ContextInfo) {
    e'.id == e.id && e'.name == e.name && e'.entityType == e.entityType && e'.position == e.position &&
    e'.confidence == e.confidence &&
    |e'.attributes| == |e.attributes| + ContextSize(info) && e'.attributes[..|e.attributes|] == e.attributes &&
    (forall k :: |e.attributes| <= k < |e'.attributes| ==>
       e'.attributes[k].confidence == ContextAttributeConfidence &&
       (e'.attributes[k].name == "contextual_role" || e'.attributes[k].name == "domain")) &&
    (info.role.Some? ==> e'.attributes[|e.attributes|] == RoleAttribute(e'.attributes[|e.attributes|].id, info.role.value)) &&
    (info.domain.Some? ==>
       e'.attributes[|e'.attributes| - 1] == DomainAttribute(e'.attributes[|e'.attributes| - 1].id, info.domain.value))
  }

  lemma EnhancedEntityIsEnhancement(uuid: nat -> string, next: nat, e: Entity, info: ContextInfo, e': Entity)
    requires e' == EnhancedEntity(uuid, next, e, info)
    ensures EnhancementOf(e', e, info)
  {
    assert e'.attributes[..|e.attributes|] == e.attributes;
  }

  /** `(x * 1.2).min(1.0)` never exceeds 1.0; the branch that applies it is
      dead because the context holds at most two keys. */
  lemma BoostNeverApplies(e: Entity, info: ContextInfo, uuid: nat -> string, next: nat)
    ensures EnhancedEntity(uuid, next, e, info).confidence == e.confidence
    ensures e.confidence <= 1.0 ==> EnhancedEntity(uuid, next, e, info).confidence <= 1.0
  {
  }

  /** The context function of a text: each entity name's context in it. */
  function ContextOf(cleanedText: string): string -> ContextInfo {
    name => Context(cleanedText, name)
  }

  /** The identifiers drawn while enhancing `es`. */
  function DrawnFor(context: string -> ContextInfo, es: seq<Entity>): nat {
    if es == [] then 0
    else DrawnFor(context, es[..|es| - 1]) + ContextSize(context(es[|es| - 1].name))
  }

  /** Every entity enhanced with its own context, in list order. */
  function EnhancedEntities(context: string -> ContextInfo, uuid: nat -> string, next: nat, es: seq<Entity>): (r: seq<Entity>)
    ensures |r| == |es|
  {
    if es == [] then []
    else
      EnhancedEntities(context, uuid, next, es[..|es| - 1]) +
      [EnhancedEntity(uuid, next + DrawnFor(context, es[..|es| - 1]), es[|es| - 1], context(es[|es| - 1].name))]
  }

  lemma EnhancedEntitiesSnoc(context: string -> ContextInfo, uuid: nat -> string, next: nat, es: seq<Entity>, k: nat)
    requires k < |es|
    ensures EnhancedEntities(context, uuid, next, es[..k + 1]) ==
      EnhancedEntities(context, uuid, next, es[..k]) +
      [EnhancedEntity(uuid, next + DrawnFor(context, es[..k]), es[k], context(es[k].name))]
    ensures DrawnFor(context, es[..k + 1]) == DrawnFor(context, es[..k]) + ContextSize(context(es[k].name))
  {
    PrefixSnoc(es, k);
  }

  /** The updates the loop body makes to one entity once its context is
      known: push the role, then the domain attribute, then apply the boost
      rule. */
  method ApplyContext(uuid: nat -> string, next0: nat, entity0: Entity, info: ContextInfo)
    returns (entity: Entity, next: nat)
    ensures entity == EnhancedEntity(uuid, next0, entity0, info)
    ensures next == next0 + ContextSize(info)
  {
    entity, next := entity0, next0;
    if info.role.Some? {
      entity := entity.(attributes := entity.attributes + [RoleAttribute(uuid(next), info.role.value)]);
      next := next + 1;
    }
    if info.domain.Some? {
      entity := entity.(attributes := entity.attributes + [DomainAttribute(uuid(next), info.domain.value)]);
      next := next + 1;
    }
    if ContextSize(info) > 2 {
      entity := entity.(confidence := Boost(entity.confidence));
    }
  }

  /** The loop's state after `k` entities: those are enhanced, the rest are
      untouched. */
  predicate EnhancedSoFar(context: string -> ContextInfo, uuid: nat -> string, next0: nat, entities: seq<Entity>, k: nat,
                          enhanced: seq<Entity>, next: nat) {
    k <= |entities| && |enhanced| == |entities| &&
    enhanced[..k] == EnhancedEntities(context, uuid, next0, entities[..k]) &&
    enhanced[k..] == entities[k..] &&
    next == next0 + DrawnFor(context, entities[..k])
  }

  /** Enhancing the next entity with its context extends the loop's state by
      one entity. */
  lemma EnhancedSoFarStep(context: string -> ContextInfo, uuid: nat -> string, next0: nat, entities: seq<Entity>, k: nat,
                          enhanced: seq<Entity>, next: nat, entity: Entity)
    requires k < |entities| && EnhancedSoFar(context, uuid, next0, entities, k, enhanced, next)
    requires entity == EnhancedEntity(uuid, next, entities[k], context(entities[k].name))
    ensures EnhancedSoFar(context, uuid, next0, entities, k + 1, enhanced[k := entity],
                          next + ContextSize(context(entities[k].name)))
  {
    var enhanced' := enhanced[k := entity];
    EnhancedEntitiesSnoc(context, uuid, next0, entities, k);
    assert enhanced'[..k + 1] == enhanced[..k] + [entity];
    assert enhanced'[k + 1..] == entities[k + 1..] by {
      assert enhanced'[k + 1..] == enhanced[k..][1..];
      assert entities[k..][1..] == entities[k + 1..];
    }
  }

  /** One iteration of the loop of `enhance_entities_with_context`. */
  method EnhanceStep(cleanedText: string, uuid: nat -> string, next0: nat, entities: seq<Entity>, k: nat,
                     enhanced: seq<Entity>, next: nat)
    returns (enhanced': seq<Entity>, next': nat)
    requires k < |entities| && EnhancedSoFar(ContextOf(cleanedText), uuid, next0, entities, k, enhanced, next)
    ensures EnhancedSoFar(ContextOf(cleanedText), uuid, next0, entities, k + 1, enhanced', next')
  {
    assert enhanced[k] == entities[k..][0] == entities[k];
    var info := AnalyzeEntityContext(cleanedText, enhanced[k].name);
    assert info == ContextOf(cleanedText)(entities[k].name);
    var entity;
    entity, next' := ApplyContext(uuid, next, enhanced[k], info);
    EnhancedSoFarStep(ContextOf(cleanedText), uuid, next0, entities, k, enhanced, next, entity);
    enhanced' := enhanced[k := entity];
  }

  /** `enhance_entities_with_context`: every entity of the list is updated
      in place. */
  method EnhanceEntitiesWithContext(cleanedText: string, uuid: nat -> string, next0: nat, entities: seq<Entity>)
    returns (enhanced: seq<Entity>, next: nat)
    ensures enhanced == EnhancedEntities(ContextOf(cleanedText), uuid, next0, entities)
    ensures next == next0 + DrawnFor(ContextOf(cleanedText), entities)
  {
    enhanced, next := entities, next0;
    var k := 0;
    while k < |enhanced|
      invariant EnhancedSoFar(ContextOf(cleanedText), uuid, next0, entities, k, enhanced, next)
    {
      enhanced, next := EnhanceStep(cleanedText, uuid, next0, entities, k, enhanced, next);
      k := k + 1;
    }
    assert entities[..k] == entities && enhanced[..k] == enhanced;
  }

  /** The `k`-th entity is enhanced with its own context and the identifiers
      after those its predecessors drew. */
  lemma {:induction false} EnhancedEntitiesAt(context: string -> ContextInfo, uuid: nat -> string, next: nat,
                                              es: seq<Entity>, k: nat)
    requires k < |es|
    ensures EnhancedEntities(context, uuid, next, es)[k] ==
      EnhancedEntity(uuid, next + DrawnFor(context, es[..k]), es[k], context(es[k].name))
  {
    var r := EnhancedEntities(context, uuid, next, es);
    assert r[k] == r[..k + 1][k];
    EnhancedEntitiesPrefix(context, uuid, next, es, k + 1);
    EnhancedEntitiesSnoc(context, uuid, next, es, k);
  }

  /** Enhancing a prefix of the list gives the prefix of the enhanced list. */
  lemma {:induction false} EnhancedEntitiesPrefix(context: string -> ContextInfo, uuid: nat -> string, next: nat,
                                                  es: seq<Entity>, m: nat)
    requires m <= |es|
    ensures EnhancedEntities(context, uuid, next, es)[..m] == EnhancedEntities(context, uuid, next, es[..m])
    decreases |es|
  {
    if m == |es| {
      assert es[..m] == es;
    } else {
      var n := |es| - 1;
      var init := EnhancedEntities(context, uuid, next, es[..n]);
      assert EnhancedEntities(context, uuid, next, es)[..n] == init;
      EnhancedEntitiesPrefix(context, uuid, next, es[..n], m);
      assert es[..n][..m] == es[..m];
    }
  }

  /** Enhancement keeps the list's length and order and changes each entity
      only as `EnhancementOf` allows, with the context of its own name. */
  lemma EnhancedEntitiesProperties(context: string -> ContextInfo, uuid: nat -> string, next: nat, es: seq<Entity>)
    ensures |EnhancedEntities(context, uuid, next, es)| == |es|
    ensures forall k :: 0 <= k < |es| ==> EnhancementOf(EnhancedEntities(context, uuid, next, es)[k], es[k], context(es[k].name))
  {
    var r := EnhancedEntities(context, uuid, next, es);
    forall k | 0 <= k < |es| ensures EnhancementOf(r[k], es[k], context(es[k].name)) {
      EnhancedEntitiesAt(context, uuid, next, es, k);
      EnhancedEntityIsEnhancement(uuid, next + DrawnFor(context, es[..k]), es[k], context(es[k].name), r[k]);
    }
  }

  // ---------------------------------------------------------------------------
  // extract_concept_relationships

  /** The concept's description mentions the entity's name, ignoring case. */
  predicate DescribedIn(c: Concept, e: Entity) {
    HasSubstring(Lower(c.description), Lower(e.name))
  }

  function ConceptLink(id: string, c: Concept, e: Entity): Relationship {
    Relationship(id, c.id, e.id, RelatedTo, "relates to", ConceptRelationshipConfidence, None)
  }

  /** The entities one concept's description mentions, in list order. */
  function MentionsOf(c: Concept, entities: seq<Entity>): (ps: seq<(Concept, Entity)>)
    ensures |ps| <= |entities|
  {
    if entities == [] then []
    else
      var e := entities[|entities| - 1];
      MentionsOf(c, entities[..|entities| - 1]) + (if DescribedIn(c, e) then [(c, e)] else [])
  }

  /** The (concept, entity) pairs to link, concept by concept. */
  function MentionPairs(concepts: seq<Concept>, entities: seq<Entity>): seq<(Concept, Entity)> {
    if concepts == [] then []
    else MentionPairs(concepts[..|concepts| - 1], entities) + MentionsOf(concepts[|concepts| - 1], entities)
  }

  function ConceptLinks(uuid: nat -> string, next: nat, pairs: seq<(Concept, Entity)>): seq<Relationship> {
    seq(|pairs|, k requires 0 <= k < |pairs| => ConceptLink(uuid(next + k), pairs[k].0, pairs[k].1))
  }

  predicate LinkedSoFar(rels: seq<Relationship>, uuid: nat -> string, next: nat, pairs: seq<(Concept, Entity)>) {
    |rels| == |pairs| &&
    forall k :: 0 <= k < |pairs| ==> rels[k] == ConceptLink(uuid(next + k), pairs[k].0, pairs[k].1)
  }

  lemma LinkedSoFarAppend(rels: seq<Relationship>, uuid: nat -> string, next: nat, pairs: seq<(Concept, Entity)>,
                          c: Concept, e: Entity)
    requires LinkedSoFar(rels, uuid, next, pairs)
    ensures LinkedSoFar(rels + [ConceptLink(uuid(next + |rels|), c, e)], uuid, next, pairs + [(c, e)])
  {
  }

  lemma MentionsStep(c: Concept, entities: seq<Entity>, j: nat)
    requires j < |entities|
    ensures MentionsOf(c, entities[..j + 1]) ==
      MentionsOf(c, entities[..j]) + (if DescribedIn(c, entities[j]) then [(c, entities[j])] else [])
  {
    var s := entities[..j + 1];
    assert s[..|s| - 1] == entities[..j];
  }

  /** One step of the inner loop: the `j`-th entity is linked iff the
      description mentions it, which extends the pairs linked so far. */
  lemma LinkStep(rels: seq<Relationship>, uuid: nat -> string, next: nat, done: seq<(Concept, Entity)>,
                 c: Concept, entities: seq<Entity>, j: nat)
    requires j < |entities|
    requires LinkedSoFar(rels, uuid, next, done + MentionsOf(c, entities[..j]))
    ensures DescribedIn(c, entities[j]) ==>
      LinkedSoFar(rels + [ConceptLink(uuid(next + |rels|), c, entities[j])], uuid, next, done + MentionsOf(c, entities[..j + 1]))
    ensures !DescribedIn(c, entities[j]) ==> LinkedSoFar(rels, uuid, next, done + MentionsOf(c, entities[..j + 1]))
  {
    var before := MentionsOf(c, entities[..j]);
    MentionsStep(c, entities, j);
    if DescribedIn(c, entities[j]) {
      LinkedSoFarAppend(rels, uuid, next, done + before, c, entities[j]);
      assert done + before + [(c, entities[j])] == done + (before + [(c, entities[j])]);
    } else {
      assert before + [] == before;
    }
  }

  lemma ConceptStep(concepts: seq<Concept>, entities: seq<Entity>, i: nat)
    requires i < |concepts|
    ensures MentionPairs(concepts[..i + 1], entities) ==
      MentionPairs(concepts[..i], entities) + MentionsOf(concepts[i], entities[..|entities|])
  {
    PrefixSnoc(concepts, i);
    assert entities[..|entities|] == entities;
  }

  /** `extract_concept_relationships`: for each concept, for each entity,
      a "relates to" relationship from the concept to the entity when the
      lowercased description contains the lowercased name. */
  method ExtractConceptRelationships(uuid: nat -> string, next0: nat, concepts: seq<Concept>, entities: seq<Entity>)
    returns (relationships: seq<Relationship>, next: nat)
    ensures relationships == ConceptLinks(uuid, next0, MentionPairs(concepts, entities))
    ensures next == next0 + |relationships|
  {
    relationships, next := [], next0;
    var i := 0;
    while i < |concepts|
      invariant i <= |concepts|
      invariant LinkedSoFar(relationships, uuid, next0, MentionPairs(concepts[..i], entities))
      invariant next == next0 + |relationships|
    {
      var concept := concepts[i];
      var j := 0;
      while j < |entities|
        invariant j <= |entities|
        invariant LinkedSoFar(relationships, uuid, next0,
                              MentionPairs(concepts[..i], entities) + MentionsOf(concept, entities[..j]))
        invariant next == next0 + |relationships|
      {
        var entity := entities[j];
        LinkStep(relationships, uuid, next0, MentionPairs(concepts[..i], entities), concept, entities, j);
        if HasSubstring(Lower(concept.description), Lower(entity.name)) {
          relationships := relationships + [Relationship(uuid(next), concept.id, entity.id, RelatedTo, "relates to",
                                                         ConceptRelationshipConfidence, None)];
          next := next + 1;
        }
        j := j + 1;
      }
      ConceptStep(concepts, entities, i);
      i := i + 1;
    }
    assert concepts[..i] == concepts;
  }

  /** A pair is linked iff its concept is listed, its entity is listed and
      the description mentions the entity. */
  lemma {:induction false} MentionsOfMembers(c: Concept, entities: seq<Entity>, p: (Concept, Entity))
    ensures p in MentionsOf(c, entities) <==> p.0 == c && p.1 in entities && DescribedIn(c, p.1)
  {
    if entities != [] {
      var n := |entities| - 1;
      MentionsOfMembers(c, entities[..n], p);
      assert entities == entities[..n] + [entities[n]];
    }
  }

  lemma {:induction false} MentionPairsMembers(concepts: seq<Concept>, entities: seq<Entity>, p: (Concept, Entity))
    ensures p in MentionPairs(concepts, entities) <==> p.0 in concepts && p.1 in entities && DescribedIn(p.0, p.1)
  {
    if concepts != [] {
      var n := |concepts| - 1;
      MentionPairsMembers(concepts[..n], entities, p);
      MentionsOfMembers(concepts[n], entities, p);
      assert concepts == concepts[..n] + [concepts[n]];
    }
  }

  /** Every link runs from a listed concept to a listed entity that its
      description mentions, is `RelatedTo` with label "relates to" at 0.65
      and has no position; identifiers differ when the source never repeats. */
  lemma ConceptLinksProperties(uuid: nat -> string, next: nat, concepts: seq<Concept>, entities: seq<Entity>)
    ensures forall k :: 0 <= k < |ConceptLinks(uuid, next, MentionPairs(concepts, entities))| ==>
      LinkOf(ConceptLinks(uuid, next, MentionPairs(concepts, entities))[k], uuid(next + k), concepts, entities)
    ensures forall k :: 0 <= k < |ConceptLinks(uuid, next, MentionPairs(concepts, entities))| ==>
      ConceptLinks(uuid, next, MentionPairs(concepts, entities))[k].relationshipType == RelatedTo &&
      ConceptLinks(uuid, next, MentionPairs(concepts, entities))[k].labelText == "relates to" &&
      ConceptLinks(uuid, next, MentionPairs(concepts, entities))[k].confidence == ConceptRelationshipConfidence &&
      ConceptLinks(uuid, next, MentionPairs(concepts, entities))[k].position.None?
    ensures InjectiveIds(uuid) ==>
      forall i, j :: 0 <= i < j < |ConceptLinks(uuid, next, MentionPairs(concepts, entities))| ==>
        ConceptLinks(uuid, next, MentionPairs(concepts, entities))[i].id !=
        ConceptLinks(uuid, next, MentionPairs(concepts, entities))[j].id
  {
    var pairs := MentionPairs(concepts, entities);
    forall k | 0 <= k < |pairs| ensures LinkOf(ConceptLinks(uuid, next, pairs)[k], uuid(next + k), concepts, entities) {
      MentionPairsMembers(concepts, entities, pairs[k]);
      assert pairs[k] in pairs;
      assert pairs[k].0 in concepts && pairs[k].1 in entities && DescribedIn(pairs[k].0, pairs[k].1);
    }
  }

  /** `r` links a listed concept to a listed entity its description mentions. */
  predicate LinkOf(r: Relationship, id: string, concepts: seq<Concept>, entities: seq<Entity>) {
    exists c, e :: c in concepts && e in entities && DescribedIn(c, e) && r == ConceptLink(id, c, e)
  }

  // ---------------------------------------------------------------------------
  // extract_relationships_with_enhanced_patterns

  /** The enhanced patterns, in the order they are tried, with the custom
      relationship type each one names. */
  const EnhancedPatterns: seq<(string, RelationshipType)> := [
    (@"(\w+)\s+manages?\s+(\w+)", OtherRelationship("manages")),
    (@"(\w+)\s+depends?\s+on\s+(\w+)", OtherRelationship("depends_on")),
    (@"(\w+)\s+implements?\s+(\w+)", OtherRelationship("implements")),
    (@"(\w+)\s+inherits?\s+from\s+(\w+)", OtherRelationship("inherits_from")),
    (@"(\w+)\s+communicates?\s+with\s+(\w+)", OtherRelationship("communicates_with")),
    (@"(\w+)\s+provides?\s+(\w+)", OtherRelationship("provides")),
    (@"(\w+)\s+requires?\s+(\w+)", OtherRelationship("requires"))]

  /** The label of an enhanced relationship: the custom type's text, or
      "enhanced relationship" for a built-in type. */
  function EnhancedLabel(t: RelationshipType): string {
    match t
    case OtherRelationship(l) => l
    case _ => "enhanced relationship"
  }

  /** The rows one compiled pattern yields: groups 1 and 2 of each capture. */
  function CaptureRows(p: Pattern, t: RelationshipType, text: string): seq<NamedRow> {
    seq(|p.captures12(text)|, k requires 0 <= k < |p.captures12(text)| =>
      NamedRow(p.captures12(text)[k].0.text, p.captures12(text)[k].1.text, t, EnhancedLabel(t),
               EnhancedRelationshipConfidence))
  }

  /** The rows of every pattern that compiles, pattern by pattern; a pattern
      that does not compile is skipped. */
  function EnhancedRows(regex: Compiler, table: seq<(string, RelationshipType)>, text: string): seq<NamedRow> {
    if table == [] then []
    else
      (match regex.compile(table[0].0)
       case None => []
       case Some(p) => CaptureRows(p, table[0].1, text)) +
      EnhancedRows(regex, table[1..], text)
  }

  /** `extract_relationships_with_enhanced_patterns`: the captured words of
      the lowercased text are looked up in the name map; a capture whose two
      words both name entities becomes a relationship. */
  method ExtractRelationshipsWithEnhancedPatterns(regex: Compiler, uuid: nat -> string, next0: nat,
                                                  cleanedText: string, entities: seq<Entity>)
    returns (relationships: seq<Relationship>, next: nat)
    ensures relationships == ResolvedRows(NameMap(entities), uuid, next0, EnhancedRows(regex, EnhancedPatterns, Lower(cleanedText)))
    ensures next == next0 + |relationships|
  {
    var entityNames := NameMap(entities);
    relationships, next := ResolveRows(entityNames, uuid, next0, EnhancedRows(regex, EnhancedPatterns, Lower(cleanedText)));
  }

  /** A row of a table whose types are all custom carries its type's text as
      label, at 0.75. */
  predicate EnhancedRow(row: NamedRow, table: seq<(string, RelationshipType)>) {
    SelfLabelled(row) && row.confidence == EnhancedRelationshipConfidence &&
    exists k :: 0 <= k < |table| && table[k].1 == row.relationshipType
  }

  lemma {:induction false} EnhancedRowsShape(regex: Compiler, table: seq<(string, RelationshipType)>, text: string)
    requires forall k :: 0 <= k < |table| ==> table[k].1.OtherRelationship?
    ensures forall m :: 0 <= m < |EnhancedRows(regex, table, text)| ==> EnhancedRow(EnhancedRows(regex, table, text)[m], table)
  {
    if table != [] {
      var rest := EnhancedRows(regex, table[1..], text);
      EnhancedRowsShape(regex, table[1..], text);
      var head := match regex.compile(table[0].0) case None => [] case Some(p) => CaptureRows(p, table[0].1, text);
      assert EnhancedRows(regex, table, text) == head + rest;
      forall m | 0 <= m < |head + rest| ensures EnhancedRow((head + rest)[m], table) {
        if m < |head| {
          assert head[m].relationshipType == table[0].1;
        } else {
          var r := rest[m - |head|];
          assert EnhancedRow(r, table[1..]);
          var k :| 0 <= k < |table[1..]| && table[1..][k].1 == r.relationshipType;
          assert table[k + 1].1 == r.relationshipType;
        }
      }
    }
  }

  /** The relationships made from the rows of a table of custom types join
      two listed entities and carry one of the table's types, labelled with
      its own text, at 0.75. */
  lemma ResolvedEnhancedRows(regex: Compiler, table: seq<(string, RelationshipType)>, uuid: nat -> string, next: nat,
                             text: string, entities: seq<Entity>)
    requires forall k :: 0 <= k < |table| ==> table[k].1.OtherRelationship?
    ensures |ResolvedRows(NameMap(entities), uuid, next, EnhancedRows(regex, table, text))| <= |EnhancedRows(regex, table, text)|
    ensures forall k :: 0 <= k < |ResolvedRows(NameMap(entities), uuid, next, EnhancedRows(regex, table, text))| ==>
      JoinsListed(ResolvedRows(NameMap(entities), uuid, next, EnhancedRows(regex, table, text))[k], entities) &&
      EnhancedRelationship(ResolvedRows(NameMap(entities), uuid, next, EnhancedRows(regex, table, text))[k], table)
  {
    var rows := EnhancedRows(regex, table, text);
    var names := NameMap(entities);
    var rs := ResolvedRows(names, uuid, next, rows);
    EnhancedRowsShape(regex, table, text);
    ResolvedRowsSound(entities, uuid, next, rows);
    forall k | 0 <= k < |rs| ensures EnhancedRelationship(rs[k], table) {
      ResolvedRowsFrom(names, uuid, next, rows, k);
      var m :| 0 <= m < |rows| && Resolves(names, rows[m]) && rs[k] == ResolvedRelationship(names, uuid(next + k), rows[m]);
      assert EnhancedRow(rows[m], table);
    }
  }

  /** Every enhanced relationship joins two listed entities, has one of the
      seven custom types with that type's text as label, and confidence
      0.75; the fallback label "enhanced relationship" is never used. */
  lemma EnhancedRelationshipsProperties(regex: Compiler, uuid: nat -> string, next: nat, cleanedText: string,
                                        entities: seq<Entity>)
    ensures |ResolvedRows(NameMap(entities), uuid, next, EnhancedRows(regex, EnhancedPatterns, Lower(cleanedText)))| <=
      |EnhancedRows(regex, EnhancedPatterns, Lower(cleanedText))|
    ensures forall k :: 0 <= k < |ResolvedRows(NameMap(entities), uuid, next, EnhancedRows(regex, EnhancedPatterns, Lower(cleanedText)))| ==>
      JoinsListed(ResolvedRows(NameMap(entities), uuid, next, EnhancedRows(regex, EnhancedPatterns, Lower(cleanedText)))[k], entities) &&
      EnhancedRelationship(ResolvedRows(NameMap(entities), uuid, next, EnhancedRows(regex, EnhancedPatterns, Lower(cleanedText)))[k],
                           EnhancedPatterns)
  {
    assert forall k :: 0 <= k < |EnhancedPatterns| ==> EnhancedPatterns[k].1.OtherRelationship? by {
      EnhancedPatternsCustom();
    }
    ResolvedEnhancedRows(regex, EnhancedPatterns, uuid, next, Lower(cleanedText), entities);
  }

  lemma EnhancedPatternsCustom()
    ensures forall k :: 0 <= k < |EnhancedPatterns| ==> EnhancedPatterns[k].1.OtherRelationship?
  {
  }

  /** One of the table's custom types, labelled with its own text, at 0.75. */
  predicate EnhancedRelationship(r: Relationship, table: seq<(string, RelationshipType)>) {
    r.relationshipType == OtherRelationship(r.labelText) && r.confidence == EnhancedRelationshipConfidence &&
    exists k :: 0 <= k < |table| && table[k].1 == r.relationshipType
  }
}
