/** The pattern-based relationship extractor: for every sentence, the
    entities mentioned in it, and for every ordered pair of them (the first
    listed before the second), the span of the sentence from the earlier
    to the later mention; the first relationship pattern that matches the
    span makes the pair a relationship.  Identifiers come from `uuid(k)`
    for a counter `k` that every relationship advances. */
module PatternRelationships {
  import opened Strings
  import opened Regex
  import opened ExtractionTypes
  import opened Heuristics
  import opened PatternEntities

  // ---------------------------------------------------------------------------
  // Entities of a sentence and their pairs

  /** An entity with a position belongs to the sentence its position names;
      one without belongs to every sentence that contains its name. */
  predicate MentionedIn(e: Entity, index: nat, sentence: string) {
    match e.position
    case Some(pos) => pos.sentenceIndex == index
    case None => HasSubstring(sentence, e.name)
  }

  /** The entities of one sentence, in the order of the entity list. */
  function SentenceEntities(entities: seq<Entity>, index: nat, sentence: string): (es: seq<Entity>)
    ensures |es| <= |entities|
    ensures forall e :: e in es <==> e in entities && MentionedIn(e, index, sentence)
    decreases |entities|
  {
    if entities == [] then []
    else
      var n := |entities| - 1;
      assert entities == entities[..n] + [entities[n]];
      SentenceEntities(entities[..n], index, sentence)
        + (if MentionedIn(entities[n], index, sentence) then [entities[n]] else [])
  }

  /** Two entities of one sentence, `first` listed before `second`. */
  datatype Pair = Pair(sentenceIndex: nat, sentence: string, first: Entity, second: Entity)

  /** Every pair `(es[i], es[j])` with `i < j`, `i` varying slowest. */
  function PairsFrom(index: nat, sentence: string, es: seq<Entity>): (ps: seq<Pair>)
    ensures 2 * |ps| == |es| * (|es| - 1)
    decreases |es|
  {
    if es == [] then []
    else
      seq(|es| - 1, j requires 0 <= j < |es| - 1 => Pair(index, sentence, es[0], es[j + 1]))
        + PairsFrom(index, sentence, es[1..])
  }

  /** The pairs of every sentence, sentence by sentence. */
  function AllPairs(entities: seq<Entity>, sentences: seq<string>): seq<Pair>
    decreases |sentences|
  {
    if sentences == [] then []
    else
      var n := |sentences| - 1;
      AllPairs(entities, sentences[..n]) + PairsFrom(n, sentences[n], SentenceEntities(entities, n, sentences[n]))
  }

  /** A pair of two entities of the list, both mentioned in the sentence it
      names. */
  predicate PairOf(p: Pair, entities: seq<Entity>, sentences: seq<string>) {
    p.sentenceIndex < |sentences| && p.sentence == sentences[p.sentenceIndex] &&
    p.first in entities && p.second in entities &&
    MentionedIn(p.first, p.sentenceIndex, p.sentence) && MentionedIn(p.second, p.sentenceIndex, p.sentence)
  }

  /** Every pair of one sentence is made of two of its entities. */
  lemma {:induction false} PairsFromMembers(index: nat, sentence: string, es: seq<Entity>)
    ensures forall k :: 0 <= k < |PairsFrom(index, sentence, es)| ==>
      PairsFrom(index, sentence, es)[k].sentenceIndex == index &&
      PairsFrom(index, sentence, es)[k].sentence == sentence &&
      PairsFrom(index, sentence, es)[k].first in es && PairsFrom(index, sentence, es)[k].second in es
    decreases |es|
  {
    if es != [] {
      PairsFromMembers(index, sentence, es[1..]);
      var ps := PairsFrom(index, sentence, es);
      var head := seq(|es| - 1, j requires 0 <= j < |es| - 1 => Pair(index, sentence, es[0], es[j + 1]));
      var tail := PairsFrom(index, sentence, es[1..]);
      assert ps == head + tail;
      forall k | 0 <= k < |ps|
        ensures ps[k].sentenceIndex == index && ps[k].sentence == sentence && ps[k].first in es && ps[k].second in es
      {
        if k < |head| {
          assert ps[k] == head[k];
          assert es[k + 1] in es;
        } else {
          assert ps[k] == tail[k - |head|];
          assert forall e :: e in es[1..] ==> e in es;
        }
      }
    }
  }

  /** Every pair of the walk joins two entities of one sentence. */
  lemma {:induction false} AllPairsOf(entities: seq<Entity>, sentences: seq<string>)
    ensures forall k :: 0 <= k < |AllPairs(entities, sentences)| ==> PairOf(AllPairs(entities, sentences)[k], entities, sentences)
    decreases |sentences|
  {
    if sentences != [] {
      var n := |sentences| - 1;
      AllPairsOf(entities, sentences[..n]);
      var prev := AllPairs(entities, sentences[..n]);
      var es := SentenceEntities(entities, n, sentences[n]);
      var last := PairsFrom(n, sentences[n], es);
      PairsFromMembers(n, sentences[n], es);
      var ps := AllPairs(entities, sentences);
      assert ps == prev + last;
      forall k | 0 <= k < |ps|
        ensures PairOf(ps[k], entities, sentences)
      {
        if k < |prev| {
          assert ps[k] == prev[k];
          assert PairOf(prev[k], entities, sentences[..n]);
          assert sentences[..n][prev[k].sentenceIndex] == sentences[prev[k].sentenceIndex];
        } else {
          assert ps[k] == last[k - |prev|];
        }
      }
    }
  }

  // ---------------------------------------------------------------------------
  // One pair

  /** The piece of the sentence from the earlier mention's start to the
      later mention's end, when both names occur (at their first
      occurrence). */
  function Span(sentence: string, name1: string, name2: string): (r: Option<(nat, nat)>)
    ensures r.Some? ==> r.value.0 <= r.value.1 <= |sentence|
  {
    match (Find(sentence, name1), Find(sentence, name2))
    case (Some(pos1), Some(pos2)) =>
      Some((if pos1 <= pos2 then pos1 else pos2,
            if pos1 + |name1| >= pos2 + |name2| then pos1 + |name1| else pos2 + |name2|))
    case _ => None
  }

  /** The span exists exactly when both names occur, and it covers the first
      occurrence of each. */
  lemma SpanCoversMentions(sentence: string, name1: string, name2: string)
    ensures Span(sentence, name1, name2).Some? <==> HasSubstring(sentence, name1) && HasSubstring(sentence, name2)
    ensures Span(sentence, name1, name2).Some? ==>
      Span(sentence, name1, name2).value.0 <= Find(sentence, name1).value &&
      Find(sentence, name1).value + |name1| <= Span(sentence, name1, name2).value.1 &&
      Span(sentence, name1, name2).value.0 <= Find(sentence, name2).value &&
      Find(sentence, name2).value + |name2| <= Span(sentence, name1, name2).value.1
    ensures Span(sentence, name1, name2).Some? ==>
      Span(sentence, name1, name2).value.0 == Find(sentence, name1).value ||
      Span(sentence, name1, name2).value.0 == Find(sentence, name2).value
  {
    HasSubstringFind(sentence, name1);
    HasSubstringFind(sentence, name2);
  }

  /** The span holds both names. */
  lemma SpanHoldsNames(sentence: string, name1: string, name2: string)
    requires Span(sentence, name1, name2).Some?
    ensures HasSubstring(sentence[Span(sentence, name1, name2).value.0..Span(sentence, name1, name2).value.1], name1)
    ensures HasSubstring(sentence[Span(sentence, name1, name2).value.0..Span(sentence, name1, name2).value.1], name2)
  {
    var span := Span(sentence, name1, name2).value;
    SpanCoversMentions(sentence, name1, name2);
    HasSubstringInSlice(sentence, name1, Find(sentence, name1).value, span.0, span.1);
    HasSubstringInSlice(sentence, name2, Find(sentence, name2).value, span.0, span.1);
  }

  /** Some pattern of the list matches the text. */
  predicate AnyMatch(patterns: seq<Pattern>, text: string) {
    exists k :: 0 <= k < |patterns| && patterns[k].isMatch(text)
  }

  /** The text of the span (empty when there is none). */
  function SpanText(p: Pair): string {
    match Span(p.sentence, p.first.name, p.second.name)
    case None => []
    case Some(span) => p.sentence[span.0..span.1]
  }

  /** The relationship a pair yields with identifier `id`: none when a name
      is missing from the sentence or no pattern matches the span. */
  function RelationshipFor(patterns: seq<Pattern>, p: Pair, id: string): Option<Relationship> {
    match Span(p.sentence, p.first.name, p.second.name)
    case None => None
    case Some(span) =>
      var text := SpanText(p);
      if AnyMatch(patterns, text) then
        var t := ClassifyRelationshipType(text);
        Some(Relationship(id, p.first.id, p.second.id, t, GenerateRelationshipLabel(t, p.first.name, p.second.name),
                          PatternRelationshipConfidence, Some(TextPosition(span.0, span.1, p.sentenceIndex))))
      else None
  }

  /** `find_relationship_between_entities`: the patterns are tried in list
      order and the first that matches the span returns the relationship;
      which pattern matched does not show in it. */
  method FindRelationshipBetweenEntities(patterns: seq<Pattern>, entity1: Entity, entity2: Entity,
                                         sentence: string, sentenceIndex: nat, id: string)
    returns (r: Option<Relationship>)
    ensures r == RelationshipFor(patterns, Pair(sentenceIndex, sentence, entity1, entity2), id)
  {
    var k := 0;
    while k < |patterns|
      invariant 0 <= k <= |patterns|
      invariant Span(sentence, entity1.name, entity2.name).Some? ==>
        forall i :: 0 <= i < k ==>
          !patterns[i].isMatch(sentence[Span(sentence, entity1.name, entity2.name).value.0..Span(sentence, entity1.name, entity2.name).value.1])
    {
      var pos1 := Find(sentence, entity1.name);
      var pos2 := Find(sentence, entity2.name);
      if pos1.Some? && pos2.Some? {
        var start := if pos1.value <= pos2.value then pos1.value else pos2.value;
        var end := if pos1.value + |entity1.name| >= pos2.value + |entity2.name| then pos1.value + |entity1.name|
                   else pos2.value + |entity2.name|;
        var substring := sentence[start..end];
        if patterns[k].isMatch(substring) {
          ghost var pair := Pair(sentenceIndex, sentence, entity1, entity2);
          assert Span(sentence, entity1.name, entity2.name) == Some((start, end));
          assert SpanText(pair) == substring;
          assert AnyMatch(patterns, substring);
          var t := ClassifyRelationshipType(substring);
          var labelText := GenerateRelationshipLabel(t, entity1.name, entity2.name);
          return Some(Relationship(id, entity1.id, entity2.id, t, labelText, PatternRelationshipConfidence,
                                   Some(TextPosition(start, end, sentenceIndex))));
        }
      }
      k := k + 1;
    }
    return None;
  }

  /** A pair yields a relationship exactly when both names occur and a
      pattern matches the span between them. */
  lemma RelationshipForExists(patterns: seq<Pattern>, p: Pair, id: string)
    ensures RelationshipFor(patterns, p, id).Some? <==>
      HasSubstring(p.sentence, p.first.name) && HasSubstring(p.sentence, p.second.name) &&
      AnyMatch(patterns, SpanText(p))
  {
    SpanCoversMentions(p.sentence, p.first.name, p.second.name);
  }

  /** What a relationship yielded by a pair states: it carries the given
      identifier, runs from the first entity to the second, is located in
      the pair's sentence on a span holding both names, and has confidence
      0.6. */
  lemma RelationshipForFields(patterns: seq<Pattern>, p: Pair, id: string)
    requires RelationshipFor(patterns, p, id).Some?
    ensures RelationshipFor(patterns, p, id).value.id == id
    ensures RelationshipFor(patterns, p, id).value.sourceEntityId == p.first.id
    ensures RelationshipFor(patterns, p, id).value.targetEntityId == p.second.id
    ensures RelationshipFor(patterns, p, id).value.confidence == PatternRelationshipConfidence
    ensures Located(RelationshipFor(patterns, p, id).value, p)
  {
    SpanHoldsNames(p.sentence, p.first.name, p.second.name);
  }

  /** The relationship's type is the classification of the span, and its
      label starts with the first name and ends with the second. */
  lemma RelationshipForLabel(patterns: seq<Pattern>, p: Pair, id: string)
    requires RelationshipFor(patterns, p, id).Some?
    ensures RelationshipFor(patterns, p, id).value.relationshipType == ClassifyRelationshipType(SpanText(p))
    ensures RelationshipFor(patterns, p, id).value.labelText[..|p.first.name|] == p.first.name
    ensures RelationshipFor(patterns, p, id).value.labelText[|RelationshipFor(patterns, p, id).value.labelText| - |p.second.name|..] == p.second.name
  {
    var t := ClassifyRelationshipType(SpanText(p));
    LabelParts(t, p.first.name, p.second.name);
  }

  /** The relationship's position lies in the pair's sentence and its span
      holds both entity names. */
  predicate Located(r: Relationship, p: Pair) {
    r.position.Some? &&
    r.position.value.sentenceIndex == p.sentenceIndex &&
    r.position.value.start <= r.position.value.end <= |p.sentence| &&
    HasSubstring(p.sentence[r.position.value.start..r.position.value.end], p.first.name) &&
    HasSubstring(p.sentence[r.position.value.start..r.position.value.end], p.second.name)
  }

  /** A pattern list that never matches yields no relationship, and a
      name missing from the sentence yields none either. */
  lemma NoRelationshipWithoutBothNames(patterns: seq<Pattern>, p: Pair, id: string)
    requires !HasSubstring(p.sentence, p.first.name) || !HasSubstring(p.sentence, p.second.name)
    ensures RelationshipFor(patterns, p, id) == None
  {
    SpanCoversMentions(p.sentence, p.first.name, p.second.name);
  }

  // ---------------------------------------------------------------------------
  // All pairs

  /** The relationship finder of a pattern list, as a value the walk below
      is written over. */
  function RelationshipFinder(patterns: seq<Pattern>): (Pair, string) -> Option<Relationship> {
    (p: Pair, id: string) => RelationshipFor(patterns, p, id)
  }

  /** The relationships so far, followed by the one the pair yields (if
      any) with the next identifier. */
  function AddRelationship(find: (Pair, string) -> Option<Relationship>, uuid: nat -> string, next: nat,
                           prev: seq<Relationship>, p: Pair): seq<Relationship>
  {
    match find(p, uuid(next + |prev|))
    case None => prev
    case Some(r) => prev + [r]
  }

  /** The relationships of the pairs, in walking order, the k-th one
      identified by `uuid(next + k)`. */
  function BuildRelationships(find: (Pair, string) -> Option<Relationship>, uuid: nat -> string, next: nat,
                              pairs: seq<Pair>): (rs: seq<Relationship>)
    ensures |rs| <= |pairs|
    decreases |pairs|
  {
    if pairs == [] then []
    else
      var n := |pairs| - 1;
      AddRelationship(find, uuid, next, BuildRelationships(find, uuid, next, pairs[..n]), pairs[n])
  }

  lemma RelationshipStep(find: (Pair, string) -> Option<Relationship>, uuid: nat -> string, next0: nat,
                         pairs: seq<Pair>, k: nat, relationships: seq<Relationship>, next: nat, found: Option<Relationship>)
    requires k < |pairs|
    requires relationships == BuildRelationships(find, uuid, next0, pairs[..k])
    requires next == next0 + |relationships|
    requires found == find(pairs[k], uuid(next))
    ensures BuildRelationships(find, uuid, next0, pairs[..k + 1]) ==
      if found.Some? then relationships + [found.value] else relationships
  {
    PrefixOfPrefix(pairs, k + 1, k);
  }

  /** The loops of `extract_relationships_with_patterns`, run over the pairs
      in walking order. */
  method RelationshipsFromPairs(patterns: seq<Pattern>, uuid: nat -> string, next0: nat, pairs: seq<Pair>)
    returns (relationships: seq<Relationship>, next: nat)
    ensures relationships == BuildRelationships(RelationshipFinder(patterns), uuid, next0, pairs)
    ensures next == next0 + |relationships|
  {
    relationships, next := [], next0;
    var k := 0;
    while k < |pairs|
      invariant 0 <= k <= |pairs|
      invariant relationships == BuildRelationships(RelationshipFinder(patterns), uuid, next0, pairs[..k])
      invariant next == next0 + |relationships|
    {
      relationships, next := PairStep(patterns, uuid, next0, pairs, k, relationships, next);
      k := k + 1;
    }
    assert pairs[..k] == pairs;
  }

  /** One pass of the inner loop body: the pair's relationship, if any, is
      pushed with the next identifier. */
  method PairStep(patterns: seq<Pattern>, uuid: nat -> string, next0: nat, pairs: seq<Pair>, k: nat,
                  relationships: seq<Relationship>, next: nat)
    returns (relationships': seq<Relationship>, next': nat)
    requires k < |pairs|
    requires relationships == BuildRelationships(RelationshipFinder(patterns), uuid, next0, pairs[..k])
    requires next == next0 + |relationships|
    ensures relationships' == BuildRelationships(RelationshipFinder(patterns), uuid, next0, pairs[..k + 1])
    ensures next' == next0 + |relationships'|
  {
    var p := pairs[k];
    var found := FindRelationshipBetweenEntities(patterns, p.first, p.second, p.sentence, p.sentenceIndex, uuid(next));
    assert found == RelationshipFinder(patterns)(p, uuid(next)) by {
      assert p == Pair(p.sentenceIndex, p.sentence, p.first, p.second);
    }
    RelationshipStep(RelationshipFinder(patterns), uuid, next0, pairs, k, relationships, next, found);
    if found.Some? {
      relationships', next' := relationships + [found.value], next + 1;
    } else {
      relationships', next' := relationships, next;
    }
  }

  /** `extract_relationships_with_patterns`. */
  method ExtractRelationshipsWithPatterns(ex: Extractor, uuid: nat -> string, next0: nat,
                                          sentences: seq<string>, entities: seq<Entity>)
    returns (relationships: seq<Relationship>, next: nat)
    ensures relationships == BuildRelationships(RelationshipFinder(ex.relationshipPatterns), uuid, next0, AllPairs(entities, sentences))
    ensures next == next0 + |relationships|
  {
    relationships, next := RelationshipsFromPairs(ex.relationshipPatterns, uuid, next0, AllPairs(entities, sentences));
  }

  /** A relationship between two entities of the list, located in one of the
      sentences, with confidence 0.6. */
  predicate SoundRelationship(r: Relationship, entities: seq<Entity>, sentences: seq<string>) {
    r.sourceEntityId in EntityIds(entities) && r.targetEntityId in EntityIds(entities) &&
    r.confidence == PatternRelationshipConfidence &&
    r.position.Some? && r.position.value.sentenceIndex < |sentences| &&
    r.position.value.start <= r.position.value.end <= |sentences[r.position.value.sentenceIndex]|
  }

  /** What the finder yields for a pair of the list is sound and carries the
      identifier it was given. */
  ghost predicate SoundFor(find: (Pair, string) -> Option<Relationship>, p: Pair, id: string,
                           entities: seq<Entity>, sentences: seq<string>) {
    PairOf(p, entities, sentences) && find(p, id).Some? ==>
      SoundRelationship(find(p, id).value, entities, sentences) && find(p, id).value.id == id
  }

  ghost predicate SoundFinder(find: (Pair, string) -> Option<Relationship>, entities: seq<Entity>, sentences: seq<string>) {
    forall p: Pair, id: string :: SoundFor(find, p, id, entities, sentences)
  }

  lemma RelationshipFinderSound(patterns: seq<Pattern>, entities: seq<Entity>, sentences: seq<string>)
    ensures SoundFinder(RelationshipFinder(patterns), entities, sentences)
  {
    var find := RelationshipFinder(patterns);
    forall p: Pair, id: string
      ensures SoundFor(find, p, id, entities, sentences)
    {
      if PairOf(p, entities, sentences) && find(p, id).Some? {
        RelationshipForFields(patterns, p, id);
        var r := find(p, id).value;
        assert r.sourceEntityId in EntityIds(entities) by {
          assert p.first in entities;
        }
        assert r.targetEntityId in EntityIds(entities) by {
          assert p.second in entities;
        }
      }
    }
  }

  /** Every relationship of the list is sound and the k-th carries the
      identifier `uuid(next + k)`. */
  ghost predicate AllSound(rs: seq<Relationship>, uuid: nat -> string, next: nat, entities: seq<Entity>, sentences: seq<string>) {
    forall k :: 0 <= k < |rs| ==> SoundRelationship(rs[k], entities, sentences) && rs[k].id == uuid(next + k)
  }

  /** A pair of the list keeps the relationships sound. */
  lemma AddRelationshipSound(find: (Pair, string) -> Option<Relationship>, uuid: nat -> string, next: nat,
                             prev: seq<Relationship>, p: Pair, entities: seq<Entity>, sentences: seq<string>)
    requires SoundFinder(find, entities, sentences)
    requires PairOf(p, entities, sentences)
    requires AllSound(prev, uuid, next, entities, sentences)
    ensures AllSound(AddRelationship(find, uuid, next, prev, p), uuid, next, entities, sentences)
  {
    var id := uuid(next + |prev|);
    var found := find(p, id);
    if found.Some? {
      assert SoundFor(find, p, id, entities, sentences);
      var r := found.value;
      var rs := prev + [r];
      assert AddRelationship(find, uuid, next, prev, p) == rs;
      forall k | 0 <= k < |rs|
        ensures SoundRelationship(rs[k], entities, sentences) && rs[k].id == uuid(next + k)
      {
        if k < |prev| {
          assert rs[k] == prev[k];
          assert prev[k].id == uuid(next + k);
        } else {
          assert k == |prev| && rs[k] == r;
          assert r.id == id;
        }
      }
    }
  }

  /** Built from pairs of the list by a sound finder, every relationship is
      sound and the k-th carries the identifier `uuid(next + k)`. */
  lemma {:induction false} BuildRelationshipsSound(find: (Pair, string) -> Option<Relationship>, uuid: nat -> string,
                                                   next: nat, pairs: seq<Pair>, entities: seq<Entity>, sentences: seq<string>)
    requires SoundFinder(find, entities, sentences)
    requires forall k :: 0 <= k < |pairs| ==> PairOf(pairs[k], entities, sentences)
    ensures AllSound(BuildRelationships(find, uuid, next, pairs), uuid, next, entities, sentences)
    decreases |pairs|
  {
    if pairs != [] {
      var n := |pairs| - 1;
      assert forall k :: 0 <= k < n ==> pairs[..n][k] == pairs[k];
      BuildRelationshipsSound(find, uuid, next, pairs[..n], entities, sentences);
      AddRelationshipSound(find, uuid, next, BuildRelationships(find, uuid, next, pairs[..n]), pairs[n], entities, sentences);
    }
  }

  /** The relationships found: at most one per pair of entities sharing a
      sentence, each between two listed entities and located in a
      sentence, with confidence 0.6, and with pairwise different
      identifiers when the identifier source never repeats. */
  lemma PatternRelationshipsProperties(patterns: seq<Pattern>, uuid: nat -> string, next: nat,
                                       entities: seq<Entity>, sentences: seq<string>)
    ensures |BuildRelationships(RelationshipFinder(patterns), uuid, next, AllPairs(entities, sentences))| <=
      |AllPairs(entities, sentences)|
    ensures forall k :: 0 <= k < |BuildRelationships(RelationshipFinder(patterns), uuid, next, AllPairs(entities, sentences))| ==>
      SoundRelationship(BuildRelationships(RelationshipFinder(patterns), uuid, next, AllPairs(entities, sentences))[k],
                        entities, sentences)
    ensures InjectiveIds(uuid) ==>
      forall i, j :: 0 <= i < j < |BuildRelationships(RelationshipFinder(patterns), uuid, next, AllPairs(entities, sentences))| ==>
        BuildRelationships(RelationshipFinder(patterns), uuid, next, AllPairs(entities, sentences))[i].id !=
        BuildRelationships(RelationshipFinder(patterns), uuid, next, AllPairs(entities, sentences))[j].id
  {
    AllPairsOf(entities, sentences);
    RelationshipFinderSound(patterns, entities, sentences);
    BuildRelationshipsSound(RelationshipFinder(patterns), uuid, next, AllPairs(entities, sentences), entities, sentences);
  }
}
