/** The pattern-based entity and concept extractors: every match of every
    pattern in every sentence, trimmed, kept the first time its text is seen
    when it is long enough, and turned into an entity (with a name attribute
    and, when the sentence describes it, a description attribute) or a
    concept.  Identifiers come from `uuid(k)` for a counter `k` that every
    draw advances. */
module PatternEntities {
  import opened Strings
  import opened Regex
  import opened ExtractionTypes
  import opened Heuristics
  import opened Candidates

  const MinEntityLength: nat := 2
  const MinConceptLength: nat := 3
  const NameAttributeConfidence: real := 1.0

  /** No two counters give the same identifier. */
  ghost predicate InjectiveIds(uuid: nat -> string) {
    forall a: nat, b: nat :: uuid(a) == uuid(b) ==> a == b
  }

  // ---------------------------------------------------------------------------
  // Descriptions

  /** The two description patterns, "<entity>, a ..." and "a ... <entity>",
      built around the escaped entity name. */
  function DescriptionSources(entity: string): (ps: seq<string>)
    ensures |ps| == 2
  {
    [Escape(entity) + ",?\\s+(?:a|an|the)\\s+([^,\\.]+)",
     "(?:a|an|the)\\s+([^,\\s]+)\\s+" + Escape(entity)]
  }

  /** The trimmed first capture group of the first pattern that compiles and
      matches. */
  function DescriptionFrom(regex: Compiler, sources: seq<string>, context: string): Option<string>
    decreases |sources|
  {
    if sources == [] then None
    else match regex.compile(sources[0])
      case Some(p) =>
        (match p.capture1(context)
         case Some(m) => Some(Trim(m.text))
         case None => DescriptionFrom(regex, sources[1..], context))
      case None => DescriptionFrom(regex, sources[1..], context)
  }

  predicate Captures(regex: Compiler, source: string, context: string) {
    regex.compile(source).Some? && regex.compile(source).value.capture1(context).Some?
  }

  /** A description is found exactly when some pattern compiles and
      captures; it is then trimmed. */
  lemma {:induction false} DescriptionFromMeaning(regex: Compiler, sources: seq<string>, context: string)
    ensures DescriptionFrom(regex, sources, context).Some? <==>
      exists k :: 0 <= k < |sources| && Captures(regex, sources[k], context)
    ensures DescriptionFrom(regex, sources, context).Some? ==> Trimmed(DescriptionFrom(regex, sources, context).value)
    decreases |sources|
  {
    if sources != [] {
      DescriptionFromMeaning(regex, sources[1..], context);
      if !Captures(regex, sources[0], context) {
        assert DescriptionFrom(regex, sources, context) == DescriptionFrom(regex, sources[1..], context);
        forall k | 1 <= k < |sources|
          ensures sources[k] == sources[1..][k - 1]
        {
        }
      }
    }
  }

  /** With a sound regex library a description is a piece of the context. */
  lemma {:induction false} DescriptionInContext(regex: Compiler, sources: seq<string>, context: string)
    requires ValidCompiler(regex)
    ensures DescriptionFrom(regex, sources, context).Some? ==>
      HasSubstring(context, DescriptionFrom(regex, sources, context).value)
    decreases |sources|
  {
    if sources != [] {
      if Captures(regex, sources[0], context) {
        var m := regex.compile(sources[0]).value.capture1(context).value;
        assert DescriptionFrom(regex, sources, context) == Some(Trim(m.text));
        assert FoundIn(m, context);
        TrimmedInfix(context, m.start, m.end);
      } else {
        DescriptionInContext(regex, sources[1..], context);
      }
    }
  }

  /** `extract_description_from_context`. */
  method ExtractDescriptionFromContext(ex: Extractor, entity: string, context: string) returns (d: Option<string>)
    ensures d == DescriptionFrom(ex.regex, DescriptionSources(entity), context)
  {
    var patterns := DescriptionSources(entity);
    var k := 0;
    while k < |patterns|
      invariant 0 <= k <= |patterns|
      invariant DescriptionFrom(ex.regex, patterns, context) == DescriptionFrom(ex.regex, patterns[k..], context)
    {
      assert patterns[k..][1..] == patterns[k + 1..];
      match ex.regex.compile(patterns[k]) {
        case Some(p) =>
          match p.capture1(context) {
            case Some(m) =>
              return Some(Trim(m.text));
            case None =>
          }
        case None =>
      }
      k := k + 1;
    }
    return None;
  }

  // ---------------------------------------------------------------------------
  // Attributes

  /** `extract_entity_attributes`: the name attribute, then a description
      attribute when the context describes the entity. */
  function EntityAttributes(regex: Compiler, uuid: nat -> string, next: nat, entity: string, context: string): (attrs: seq<Attribute>)
    ensures 1 <= |attrs| <= 2
  {
    var nameAttr := Attribute(uuid(next), "name", entity, NameAttr, NameAttributeConfidence);
    match DescriptionFrom(regex, DescriptionSources(entity), context)
    case Some(d) => [nameAttr, Attribute(uuid(next + 1), "description", d, DescriptionAttr, ContextAttributeConfidence)]
    case None => [nameAttr]
  }

  /** The name attribute always comes first with full confidence; the
      description attribute is there exactly when a description is found. */
  lemma EntityAttributesShape(regex: Compiler, uuid: nat -> string, next: nat, entity: string, context: string)
    ensures EntityAttributes(regex, uuid, next, entity, context)[0] ==
      Attribute(uuid(next), "name", entity, NameAttr, NameAttributeConfidence)
    ensures |EntityAttributes(regex, uuid, next, entity, context)| == 2 <==>
      DescriptionFrom(regex, DescriptionSources(entity), context).Some?
    ensures |EntityAttributes(regex, uuid, next, entity, context)| == 2 ==>
      EntityAttributes(regex, uuid, next, entity, context)[1] ==
        Attribute(uuid(next + 1), "description", DescriptionFrom(regex, DescriptionSources(entity), context).value,
                  DescriptionAttr, ContextAttributeConfidence)
  {
  }

  method ExtractEntityAttributes(ex: Extractor, uuid: nat -> string, next: nat, entity: string, context: string)
    returns (attrs: seq<Attribute>)
    ensures attrs == EntityAttributes(ex.regex, uuid, next, entity, context)
  {
    attrs := [Attribute(uuid(next), "name", entity, NameAttr, NameAttributeConfidence)];
    var d := ExtractDescriptionFromContext(ex, entity, context);
    if d.Some? {
      attrs := attrs + [Attribute(uuid(next + 1), "description", d.value, DescriptionAttr, ContextAttributeConfidence)];
    }
  }

  // ---------------------------------------------------------------------------
  // Entities

  function Position(c: Candidate): TextPosition {
    TextPosition(c.found.start, c.found.end, c.sentenceIndex)
  }

  /** The recorded position picks, out of its sentence, a text that trims to
      `name`. */
  predicate LocatedIn(name: string, pos: Option<TextPosition>, sentences: seq<string>) {
    pos.Some? && pos.value.sentenceIndex < |sentences| &&
    pos.value.start <= pos.value.end <= |sentences[pos.value.sentenceIndex]| &&
    name == Trim(sentences[pos.value.sentenceIndex][pos.value.start..pos.value.end])
  }

  /** What an entity taken from the match `c` looks like, identifiers aside. */
  predicate EntityFrom(e: Entity, regex: Compiler, c: Candidate) {
    e.name == Text(c) &&
    e.entityType == ClassifyEntityType(Text(c)) &&
    e.confidence == PatternEntityConfidence &&
    e.position == Some(Position(c)) &&
    1 <= |e.attributes| <= 2 &&
    e.attributes[0].value == Text(c) && e.attributes[0].attributeType == NameAttr &&
    (|e.attributes| == 2 <==> DescriptionFrom(regex, DescriptionSources(Text(c)), c.sentence).Some?)
  }

  /** The entity for the match `c`; the attributes draw their identifiers
      before the entity does. */
  function PatternEntity(regex: Compiler, uuid: nat -> string, next: nat, c: Candidate): Entity {
    EntityRecord(uuid, next, c, EntityAttributes(regex, uuid, next, Text(c), c.sentence))
  }

  /** The entity record for the match `c` with the attributes `attrs`. */
  function EntityRecord(uuid: nat -> string, next: nat, c: Candidate, attrs: seq<Attribute>): Entity {
    Entity(uuid(next + |attrs|), Text(c), ClassifyEntityType(Text(c)), attrs, PatternEntityConfidence, Some(Position(c)))
  }

  /** The entity made from `c` is as `EntityFrom` describes. */
  lemma PatternEntityShape(regex: Compiler, uuid: nat -> string, next: nat, c: Candidate)
    ensures EntityFrom(PatternEntity(regex, uuid, next, c), regex, c)
  {
    EntityAttributesShape(regex, uuid, next, Text(c), c.sentence);
  }

  /** The attributes of the entity made at counter `next` take counters
      `next`, `next + 1`, ... and the entity the one after them. */
  lemma PatternEntityIds(regex: Compiler, uuid: nat -> string, next: nat, c: Candidate)
    ensures PatternEntity(regex, uuid, next, c).id == uuid(next + |PatternEntity(regex, uuid, next, c).attributes|)
    ensures forall k :: 0 <= k < |PatternEntity(regex, uuid, next, c).attributes| ==>
      PatternEntity(regex, uuid, next, c).attributes[k].id == uuid(next + k)
  {
    EntityAttributesShape(regex, uuid, next, Text(c), c.sentence);
  }

  /** `PatternEntity` for one regex library and identifier source, as a
      function of the counter and the match. */
  function EntityMaker(regex: Compiler, uuid: nat -> string): (nat, Candidate) -> Entity {
    (next: nat, c: Candidate) => PatternEntity(regex, uuid, next, c)
  }

  /** The entities built so far and the next counter, after one more entity;
      an entity uses one counter per attribute and one for itself. */
  function Extend(make: (nat, Candidate) -> Entity, prev: (seq<Entity>, nat), c: Candidate): (seq<Entity>, nat) {
    var e := make(prev.1, c);
    (prev.0 + [e], prev.1 + |e.attributes| + 1)
  }

  /** The entities for the selected matches, in order, and the next counter. */
  function BuildEntities(make: (nat, Candidate) -> Entity, next: nat, picked: seq<Candidate>): (r: (seq<Entity>, nat))
    ensures |r.0| == |picked| && next <= r.1
    decreases |picked|
  {
    if picked == [] then ([], next)
    else
      var n := |picked| - 1;
      Extend(make, BuildEntities(make, next, picked[..n]), picked[n])
  }

  lemma BuildEntitiesSnoc(make: (nat, Candidate) -> Entity, next: nat, picked: seq<Candidate>, c: Candidate)
    ensures BuildEntities(make, next, picked + [c]) == Extend(make, BuildEntities(make, next, picked), c)
  {
    var p := picked + [c];
    assert p[..|picked|] == picked;
    assert p[|picked|] == c;
  }

  /** The j-th built entity is the one made from the j-th match, at the
      counter the earlier entities leave. */
  lemma {:induction false} BuildEntitiesAt(make: (nat, Candidate) -> Entity, next: nat, picked: seq<Candidate>)
    ensures forall j :: 0 <= j < |picked| ==>
      BuildEntities(make, next, picked).0[j] == make(BuildEntities(make, next, picked[..j]).1, picked[j])
    decreases |picked|
  {
    if picked != [] {
      var n := |picked| - 1;
      var prev := BuildEntities(make, next, picked[..n]);
      var r := BuildEntities(make, next, picked);
      assert r.0 == prev.0 + [make(prev.1, picked[n])];
      BuildEntitiesAt(make, next, picked[..n]);
      forall j | 0 <= j < |picked|
        ensures r.0[j] == make(BuildEntities(make, next, picked[..j]).1, picked[j])
      {
        if j < n {
          PrefixOfPrefix(picked, n, j);
          assert r.0[j] == prev.0[j];
        }
      }
    }
  }

  /** Every built entity is the one its match calls for. */
  lemma BuildEntitiesShape(regex: Compiler, uuid: nat -> string, next: nat, picked: seq<Candidate>)
    ensures forall j :: 0 <= j < |picked| ==>
      EntityFrom(BuildEntities(EntityMaker(regex, uuid), next, picked).0[j], regex, picked[j])
  {
    var make := EntityMaker(regex, uuid);
    BuildEntitiesAt(make, next, picked);
    forall j | 0 <= j < |picked|
      ensures EntityFrom(BuildEntities(make, next, picked).0[j], regex, picked[j])
    {
      PatternEntityShape(regex, uuid, BuildEntities(make, next, picked[..j]).1, picked[j]);
    }
  }

  /** The entity made at counter `next` has the identifier of the counter
      after its attributes' counters. */
  ghost predicate IdAfterAttributes(e: Entity, uuid: nat -> string, next: nat) {
    e.id == uuid(next + |e.attributes|)
  }

  /** `make` gives each entity the identifier of the last counter it uses. */
  ghost predicate DrawsIds(make: (nat, Candidate) -> Entity, uuid: nat -> string) {
    forall next: nat, c: Candidate :: IdAfterAttributes(make(next, c), uuid, next)
  }

  lemma EntityMakerDrawsIds(regex: Compiler, uuid: nat -> string)
    ensures DrawsIds(EntityMaker(regex, uuid), uuid)
  {
    var make := EntityMaker(regex, uuid);
    forall next: nat, c: Candidate
      ensures IdAfterAttributes(make(next, c), uuid, next)
    {
      PatternEntityIds(regex, uuid, next, c);
    }
  }

  /** The identifiers of `es` come from counters in `[lo, hi)`. */
  ghost predicate IdsDrawnFrom(es: seq<Entity>, uuid: nat -> string, lo: nat, hi: nat) {
    forall j :: 0 <= j < |es| ==> exists k: nat :: lo <= k < hi && es[j].id == uuid(k)
  }

  lemma {:induction false} BuildEntitiesIds(make: (nat, Candidate) -> Entity, uuid: nat -> string, next: nat, picked: seq<Candidate>)
    requires DrawsIds(make, uuid)
    ensures IdsDrawnFrom(BuildEntities(make, next, picked).0, uuid, next, BuildEntities(make, next, picked).1)
    decreases |picked|
  {
    if picked != [] {
      var n := |picked| - 1;
      BuildEntitiesIds(make, uuid, next, picked[..n]);
      var prev := BuildEntities(make, next, picked[..n]);
      var e := make(prev.1, picked[n]);
      var r := BuildEntities(make, next, picked);
      forall j | 0 <= j < |r.0|
        ensures exists k: nat :: next <= k < r.1 && r.0[j].id == uuid(k)
      {
        if j < n {
          var k: nat :| next <= k < prev.1 && prev.0[j].id == uuid(k);
          assert r.0[j] == prev.0[j];
        } else {
          assert r.0[j] == e;
          assert IdAfterAttributes(e, uuid, prev.1);
        }
      }
    }
  }

  /** Entity identifiers are pairwise different when the identifier source
      never repeats. */
  lemma {:induction false} BuildEntitiesDistinctIds(make: (nat, Candidate) -> Entity, uuid: nat -> string, next: nat, picked: seq<Candidate>)
    requires DrawsIds(make, uuid) && InjectiveIds(uuid)
    ensures forall i, j :: 0 <= i < j < |picked| ==>
      BuildEntities(make, next, picked).0[i].id != BuildEntities(make, next, picked).0[j].id
    decreases |picked|
  {
    if picked != [] {
      var n := |picked| - 1;
      BuildEntitiesDistinctIds(make, uuid, next, picked[..n]);
      BuildEntitiesIds(make, uuid, next, picked[..n]);
      var prev := BuildEntities(make, next, picked[..n]);
      var e := make(prev.1, picked[n]);
      var r := BuildEntities(make, next, picked);
      forall i, j | 0 <= i < j < |picked|
        ensures r.0[i].id != r.0[j].id
      {
        assert r.0[i] == prev.0[i];
        if j == n {
          var k: nat :| next <= k < prev.1 && prev.0[i].id == uuid(k);
          assert r.0[j] == e;
          assert IdAfterAttributes(e, uuid, prev.1);
        } else {
          assert r.0[j] == prev.0[j];
        }
      }
    }
  }

  /** A match whose text is too short or already seen adds no entity. */
  lemma EntitySkipped(make: (nat, Candidate) -> Entity, next0: nat, done: seq<Candidate>, c: Candidate)
    requires |Text(c)| < MinEntityLength || Text(c) in LongTexts(done, MinEntityLength)
    ensures BuildEntities(make, next0, Selected(done + [c], MinEntityLength)) ==
      BuildEntities(make, next0, Selected(done, MinEntityLength))
  {
    SelectedSnoc(done, c, MinEntityLength);
    if |Text(c)| >= MinEntityLength {
      LongTextsMember(done, Text(c), MinEntityLength);
    }
  }

  /** A match with a new long enough text adds the entity made from it. */
  lemma EntityAdded(make: (nat, Candidate) -> Entity, next0: nat, done: seq<Candidate>, c: Candidate, e: Entity)
    requires |Text(c)| >= MinEntityLength && Text(c) !in LongTexts(done, MinEntityLength)
    requires e == make(BuildEntities(make, next0, Selected(done, MinEntityLength)).1, c)
    ensures BuildEntities(make, next0, Selected(done + [c], MinEntityLength)) ==
      (BuildEntities(make, next0, Selected(done, MinEntityLength)).0 + [e],
       BuildEntities(make, next0, Selected(done, MinEntityLength)).1 + |e.attributes| + 1)
  {
    SelectedSnoc(done, c, MinEntityLength);
    LongTextsMember(done, Text(c), MinEntityLength);
    BuildEntitiesSnoc(make, next0, Selected(done, MinEntityLength), c);
  }

  /** One step of the walk that adds an entity, in the loop's own terms. */
  lemma EntityStep(regex: Compiler, uuid: nat -> string, next0: nat, all: seq<Candidate>, k: nat,
                   entities: seq<Entity>, next: nat, attrs: seq<Attribute>)
    requires k < |all|
    requires entities == BuildEntities(EntityMaker(regex, uuid), next0, Selected(all[..k], MinEntityLength)).0
    requires next == BuildEntities(EntityMaker(regex, uuid), next0, Selected(all[..k], MinEntityLength)).1
    requires |Text(all[k])| >= MinEntityLength && Text(all[k]) !in LongTexts(all[..k], MinEntityLength)
    requires attrs == EntityAttributes(regex, uuid, next, Text(all[k]), all[k].sentence)
    ensures LongTexts(all[..k + 1], MinEntityLength) == LongTexts(all[..k], MinEntityLength) + {Text(all[k])}
    ensures entities + [EntityRecord(uuid, next, all[k], attrs)] ==
      BuildEntities(EntityMaker(regex, uuid), next0, Selected(all[..k + 1], MinEntityLength)).0
    ensures next + |attrs| + 1 == BuildEntities(EntityMaker(regex, uuid), next0, Selected(all[..k + 1], MinEntityLength)).1
  {
    var make := EntityMaker(regex, uuid);
    var c := all[k];
    PrefixSnoc(all, k);
    LongTextsSnoc(all[..k], c, MinEntityLength);
    var e := EntityRecord(uuid, next, c, attrs);
    assert e == make(next, c);
    EntityAdded(make, next0, all[..k], c, e);
  }

  /** One step of the walk that skips a match, in the loop's own terms. */
  lemma EntitySkip(regex: Compiler, uuid: nat -> string, next0: nat, all: seq<Candidate>, k: nat)
    requires k < |all|
    requires |Text(all[k])| < MinEntityLength || Text(all[k]) in LongTexts(all[..k], MinEntityLength)
    ensures LongTexts(all[..k + 1], MinEntityLength) == LongTexts(all[..k], MinEntityLength)
    ensures BuildEntities(EntityMaker(regex, uuid), next0, Selected(all[..k + 1], MinEntityLength)) ==
      BuildEntities(EntityMaker(regex, uuid), next0, Selected(all[..k], MinEntityLength))
  {
    var c := all[k];
    PrefixSnoc(all, k);
    LongTextsSnoc(all[..k], c, MinEntityLength);
    EntitySkipped(EntityMaker(regex, uuid), next0, all[..k], c);
  }

  /** The body of the three nested loops of `extract_entities_with_patterns`,
      run over the matches in walking order: a trimmed text shorter than two
      bytes or already in the seen-set is skipped, any other becomes an
      entity. */
  method EntitiesFromMatches(ex: Extractor, uuid: nat -> string, next0: nat, matches: seq<Candidate>)
    returns (entities: seq<Entity>, next: nat)
    ensures (entities, next) == BuildEntities(EntityMaker(ex.regex, uuid), next0, Selected(matches, MinEntityLength))
  {
    entities, next := [], next0;
    var seen: set<string> := {};
    var k := 0;
    while k < |matches|
      invariant 0 <= k <= |matches|
      invariant seen == LongTexts(matches[..k], MinEntityLength)
      invariant entities == BuildEntities(EntityMaker(ex.regex, uuid), next0, Selected(matches[..k], MinEntityLength)).0
      invariant next == BuildEntities(EntityMaker(ex.regex, uuid), next0, Selected(matches[..k], MinEntityLength)).1
    {
      var c := matches[k];
      var text := Text(c);
      if |text| < MinEntityLength || text in seen {
        EntitySkip(ex.regex, uuid, next0, matches, k);
      } else {
        var attrs := ExtractEntityAttributes(ex, uuid, next, text, c.sentence);
        EntityStep(ex.regex, uuid, next0, matches, k, entities, next, attrs);
        seen := seen + {text};
        entities, next := entities + [EntityRecord(uuid, next, c, attrs)], next + |attrs| + 1;
      }
      k := k + 1;
    }
    assert matches[..k] == matches;
  }

  /** The matches the entity extractor keeps. */
  function EntityMatches(ex: Extractor, sentences: seq<string>): seq<Candidate> {
    Selected(AllCandidates(ex.entityPatterns, sentences), MinEntityLength)
  }

  /** `extract_entities_with_patterns`: sentences, then patterns, then
      matches, in the order `AllCandidates` lists them. */
  method ExtractEntitiesWithPatterns(ex: Extractor, uuid: nat -> string, next0: nat, sentences: seq<string>)
    returns (entities: seq<Entity>, next: nat)
    ensures (entities, next) == BuildEntities(EntityMaker(ex.regex, uuid), next0, EntityMatches(ex, sentences))
  {
    entities, next := EntitiesFromMatches(ex, uuid, next0, AllCandidates(ex.entityPatterns, sentences));
  }

  /** The extracted entities: one per distinct trimmed match text of at least
      two bytes, each made from the first match with that text, with
      pairwise different identifiers when the identifier source never
      repeats. */
  lemma PatternEntitiesProperties(ex: Extractor, uuid: nat -> string, next0: nat, sentences: seq<string>)
    ensures |BuildEntities(EntityMaker(ex.regex, uuid), next0, EntityMatches(ex, sentences)).0| == |EntityMatches(ex, sentences)|
    ensures forall j :: 0 <= j < |EntityMatches(ex, sentences)| ==>
      EntityFrom(BuildEntities(EntityMaker(ex.regex, uuid), next0, EntityMatches(ex, sentences)).0[j], ex.regex,
                 EntityMatches(ex, sentences)[j])
    ensures forall i, j :: 0 <= i < j < |EntityMatches(ex, sentences)| ==>
      Text(EntityMatches(ex, sentences)[i]) != Text(EntityMatches(ex, sentences)[j])
    ensures forall t :: t in Texts(EntityMatches(ex, sentences)) <==>
      t in Texts(AllCandidates(ex.entityPatterns, sentences)) && |t| >= MinEntityLength
    ensures InjectiveIds(uuid) ==> forall i, j :: 0 <= i < j < |EntityMatches(ex, sentences)| ==>
      BuildEntities(EntityMaker(ex.regex, uuid), next0, EntityMatches(ex, sentences)).0[i].id !=
      BuildEntities(EntityMaker(ex.regex, uuid), next0, EntityMatches(ex, sentences)).0[j].id
  {
    var sel := EntityMatches(ex, sentences);
    SelectedProperties(AllCandidates(ex.entityPatterns, sentences), MinEntityLength);
    BuildEntitiesShape(ex.regex, uuid, next0, sel);
    if InjectiveIds(uuid) {
      EntityMakerDrawsIds(ex.regex, uuid);
      BuildEntitiesDistinctIds(EntityMaker(ex.regex, uuid), uuid, next0, sel);
    }
  }

  /** With a sound regex library, every entity's position points back at
      its name in its sentence. */
  lemma PatternEntityPositions(ex: Extractor, uuid: nat -> string, next0: nat, sentences: seq<string>)
    requires AllValid(ex.entityPatterns)
    ensures forall j :: 0 <= j < |EntityMatches(ex, sentences)| ==>
      LocatedIn(BuildEntities(EntityMaker(ex.regex, uuid), next0, EntityMatches(ex, sentences)).0[j].name,
                BuildEntities(EntityMaker(ex.regex, uuid), next0, EntityMatches(ex, sentences)).0[j].position, sentences)
  {
    var cs := AllCandidates(ex.entityPatterns, sentences);
    var sel := EntityMatches(ex, sentences);
    var es := BuildEntities(EntityMaker(ex.regex, uuid), next0, sel).0;
    BuildEntitiesShape(ex.regex, uuid, next0, sel);
    SelectedFromWalk(cs, MinEntityLength);
    AllCandidatesLocated(ex.entityPatterns, sentences);
    forall j | 0 <= j < |sel|
      ensures LocatedIn(es[j].name, es[j].position, sentences)
    {
      CandidateLocated(cs, sentences, sel[j]);
    }
  }

  /** A well-formed match of the walk is located where its position says. */
  lemma CandidateLocated(cs: seq<Candidate>, sentences: seq<string>, c: Candidate)
    requires AllWellFormed(cs) && InSentences(cs, sentences) && c in cs
    ensures LocatedIn(Text(c), Some(Position(c)), sentences)
  {
    var k :| 0 <= k < |cs| && cs[k] == c;
  }

  // ---------------------------------------------------------------------------
  // Concepts

  /** What a concept taken from the match `c` looks like, identifier aside. */
  predicate ConceptFrom(k: Concept, c: Candidate) {
    k.name == Text(c) &&
    k.description == GenerateConceptDescription(Text(c), c.sentence) &&
    k.relatedEntities == [] &&
    k.confidence == PatternConceptConfidence &&
    k.position == Some(Position(c))
  }

  function PatternConcept(uuid: nat -> string, next: nat, c: Candidate): Concept {
    Concept(uuid(next), Text(c), GenerateConceptDescription(Text(c), c.sentence), [], PatternConceptConfidence, Some(Position(c)))
  }

  /** The concepts for the selected matches: the j-th is made from the j-th
      match and draws counter `next + j`. */
  function BuildConcepts(uuid: nat -> string, next: nat, picked: seq<Candidate>): (r: seq<Concept>)
    ensures |r| == |picked|
    decreases |picked|
  {
    if picked == [] then []
    else
      var n := |picked| - 1;
      BuildConcepts(uuid, next, picked[..n]) + [PatternConcept(uuid, next + n, picked[n])]
  }

  /** Every built concept is the one its match calls for, with counter
      `next + j`. */
  lemma {:induction false} BuildConceptsShape(uuid: nat -> string, next: nat, picked: seq<Candidate>)
    ensures forall j :: 0 <= j < |picked| ==>
      ConceptFrom(BuildConcepts(uuid, next, picked)[j], picked[j]) && BuildConcepts(uuid, next, picked)[j].id == uuid(next + j)
    decreases |picked|
  {
    if picked != [] {
      var n := |picked| - 1;
      BuildConceptsShape(uuid, next, picked[..n]);
      var r := BuildConcepts(uuid, next, picked);
      var prev := BuildConcepts(uuid, next, picked[..n]);
      forall j | 0 <= j < |picked|
        ensures ConceptFrom(r[j], picked[j]) && r[j].id == uuid(next + j)
      {
        if j < n {
          assert r[j] == prev[j] && picked[..n][j] == picked[j];
        }
      }
    }
  }

  /** A match whose text is too short or already seen adds no concept. */
  lemma ConceptSkipped(uuid: nat -> string, next0: nat, done: seq<Candidate>, c: Candidate)
    requires |Text(c)| < MinConceptLength || Text(c) in LongTexts(done, MinConceptLength)
    ensures BuildConcepts(uuid, next0, Selected(done + [c], MinConceptLength)) ==
      BuildConcepts(uuid, next0, Selected(done, MinConceptLength))
  {
    SelectedSnoc(done, c, MinConceptLength);
    if |Text(c)| >= MinConceptLength {
      LongTextsMember(done, Text(c), MinConceptLength);
    }
  }

  /** A match with a new long enough text adds the concept made from it. */
  lemma ConceptAdded(uuid: nat -> string, next0: nat, done: seq<Candidate>, c: Candidate, next: nat)
    requires |Text(c)| >= MinConceptLength && Text(c) !in LongTexts(done, MinConceptLength)
    requires next == next0 + |Selected(done, MinConceptLength)|
    ensures BuildConcepts(uuid, next0, Selected(done + [c], MinConceptLength)) ==
      BuildConcepts(uuid, next0, Selected(done, MinConceptLength)) + [PatternConcept(uuid, next, c)]
  {
    var sel := Selected(done, MinConceptLength);
    assert Selected(done + [c], MinConceptLength) == sel + [c] by {
      SelectedSnoc(done, c, MinConceptLength);
      LongTextsMember(done, Text(c), MinConceptLength);
    }
    BuildConceptsSnoc(uuid, next0, sel, c, next);
  }

  /** The concept for one more match draws the counter after the others. */
  lemma BuildConceptsSnoc(uuid: nat -> string, next0: nat, picked: seq<Candidate>, c: Candidate, next: nat)
    requires next == next0 + |picked|
    ensures BuildConcepts(uuid, next0, picked + [c]) == BuildConcepts(uuid, next0, picked) + [PatternConcept(uuid, next, c)]
  {
    PrefixSnoc(picked + [c], |picked|);
    assert (picked + [c])[..|picked|] == picked;
  }

  /** One step of the walk that adds a concept, in the loop's own terms. */
  lemma ConceptStep(uuid: nat -> string, next0: nat, all: seq<Candidate>, k: nat, concepts: seq<Concept>, next: nat)
    requires k < |all|
    requires concepts == BuildConcepts(uuid, next0, Selected(all[..k], MinConceptLength))
    requires next == next0 + |concepts|
    requires |Text(all[k])| >= MinConceptLength && Text(all[k]) !in LongTexts(all[..k], MinConceptLength)
    ensures LongTexts(all[..k + 1], MinConceptLength) == LongTexts(all[..k], MinConceptLength) + {Text(all[k])}
    ensures concepts + [PatternConcept(uuid, next, all[k])] == BuildConcepts(uuid, next0, Selected(all[..k + 1], MinConceptLength))
  {
    var c := all[k];
    PrefixSnoc(all, k);
    LongTextsSnoc(all[..k], c, MinConceptLength);
    ConceptAdded(uuid, next0, all[..k], c, next);
  }

  /** One step of the walk that skips a match, in the loop's own terms. */
  lemma ConceptSkip(uuid: nat -> string, next0: nat, all: seq<Candidate>, k: nat)
    requires k < |all|
    requires |Text(all[k])| < MinConceptLength || Text(all[k]) in LongTexts(all[..k], MinConceptLength)
    ensures LongTexts(all[..k + 1], MinConceptLength) == LongTexts(all[..k], MinConceptLength)
    ensures BuildConcepts(uuid, next0, Selected(all[..k + 1], MinConceptLength)) ==
      BuildConcepts(uuid, next0, Selected(all[..k], MinConceptLength))
  {
    var c := all[k];
    PrefixSnoc(all, k);
    LongTextsSnoc(all[..k], c, MinConceptLength);
    ConceptSkipped(uuid, next0, all[..k], c);
  }

  /** The loops of `extract_concepts_with_patterns` over the matches in
      walking order: as for entities, with a three-byte minimum and no
      attributes. */
  method ConceptsFromMatches(uuid: nat -> string, next0: nat, matches: seq<Candidate>)
    returns (concepts: seq<Concept>, next: nat)
    ensures concepts == BuildConcepts(uuid, next0, Selected(matches, MinConceptLength))
    ensures next == next0 + |concepts|
  {
    concepts, next := [], next0;
    var seen: set<string> := {};
    var k := 0;
    while k < |matches|
      invariant 0 <= k <= |matches|
      invariant seen == LongTexts(matches[..k], MinConceptLength)
      invariant concepts == BuildConcepts(uuid, next0, Selected(matches[..k], MinConceptLength))
      invariant next == next0 + |concepts|
    {
      var c := matches[k];
      var text := Text(c);
      if |text| < MinConceptLength || text in seen {
        ConceptSkip(uuid, next0, matches, k);
      } else {
        var concept := PatternConcept(uuid, next, c);
        ConceptStep(uuid, next0, matches, k, concepts, next);
        seen := seen + {text};
        concepts, next := concepts + [concept], next + 1;
      }
      k := k + 1;
    }
    assert matches[..k] == matches;
  }

  /** `extract_concepts_with_patterns`: sentences, then patterns, then
      matches, in the order `AllCandidates` lists them. */
  method ExtractConceptsWithPatterns(ex: Extractor, uuid: nat -> string, next0: nat, sentences: seq<string>)
    returns (concepts: seq<Concept>, next: nat)
    ensures concepts == BuildConcepts(uuid, next0, ConceptMatches(ex, sentences))
    ensures next == next0 + |concepts|
  {
    concepts, next := ConceptsFromMatches(uuid, next0, AllCandidates(ex.conceptPatterns, sentences));
  }

  /** The matches the concept extractor keeps. */
  function ConceptMatches(ex: Extractor, sentences: seq<string>): seq<Candidate> {
    Selected(AllCandidates(ex.conceptPatterns, sentences), MinConceptLength)
  }

  /** The extracted concepts: one per distinct trimmed match text of at least
      three bytes, each made from the first match with that text. */
  lemma PatternConceptsProperties(ex: Extractor, uuid: nat -> string, next0: nat, sentences: seq<string>)
    ensures forall i, j :: 0 <= i < j < |ConceptMatches(ex, sentences)| ==>
      BuildConcepts(uuid, next0, ConceptMatches(ex, sentences))[i].name !=
      BuildConcepts(uuid, next0, ConceptMatches(ex, sentences))[j].name
    ensures forall j :: 0 <= j < |ConceptMatches(ex, sentences)| ==>
      |BuildConcepts(uuid, next0, ConceptMatches(ex, sentences))[j].name| >= MinConceptLength &&
      Trimmed(BuildConcepts(uuid, next0, ConceptMatches(ex, sentences))[j].name)
    ensures forall t :: t in Texts(ConceptMatches(ex, sentences)) <==>
      t in Texts(AllCandidates(ex.conceptPatterns, sentences)) && |t| >= MinConceptLength
  {
    var sel := ConceptMatches(ex, sentences);
    SelectedProperties(AllCandidates(ex.conceptPatterns, sentences), MinConceptLength);
    BuildConceptsShape(uuid, next0, sel);
  }

  /** Concept identifiers are pairwise different when the identifier source
      never repeats: the j-th concept draws counter `next0 + j`. */
  lemma PatternConceptIds(ex: Extractor, uuid: nat -> string, next0: nat, sentences: seq<string>)
    requires InjectiveIds(uuid)
    ensures forall i, j :: 0 <= i < j < |ConceptMatches(ex, sentences)| ==>
      BuildConcepts(uuid, next0, ConceptMatches(ex, sentences))[i].id !=
      BuildConcepts(uuid, next0, ConceptMatches(ex, sentences))[j].id
  {
    BuildConceptsShape(uuid, next0, ConceptMatches(ex, sentences));
  }

  /** With a sound regex library, every concept's position points back at
      its name in its sentence. */
  lemma PatternConceptPositions(ex: Extractor, uuid: nat -> string, next0: nat, sentences: seq<string>)
    requires AllValid(ex.conceptPatterns)
    ensures forall j :: 0 <= j < |ConceptMatches(ex, sentences)| ==>
      LocatedIn(BuildConcepts(uuid, next0, ConceptMatches(ex, sentences))[j].name,
                BuildConcepts(uuid, next0, ConceptMatches(ex, sentences))[j].position, sentences)
  {
    var cs := AllCandidates(ex.conceptPatterns, sentences);
    var sel := ConceptMatches(ex, sentences);
    BuildConceptsShape(uuid, next0, sel);
    SelectedFromWalk(cs, MinConceptLength);
    AllCandidatesLocated(ex.conceptPatterns, sentences);
    forall j | 0 <= j < |sel|
      ensures LocatedIn(Text(sel[j]), Some(Position(sel[j])), sentences)
    {
      CandidateLocated(cs, sentences, sel[j]);
    }
  }
}
