/** The keyword heuristics of the extractor: entity and relationship
    classification cascades, relationship labels and concept descriptions. */
module Heuristics {
  import opened Strings
  import opened ExtractionTypes

  predicate HasOrganizationKeyword(lower: string) {
    HasSubstring(lower, "corp") || HasSubstring(lower, "inc") || HasSubstring(lower, "company")
  }

  predicate HasConceptKeyword(lower: string) {
    HasSubstring(lower, "system") || HasSubstring(lower, "process") || HasSubstring(lower, "method")
  }

  /** The first character is an upper-case letter (an empty text has none). */
  predicate StartsUpper(text: string) {
    text != [] && IsUpper(text[0])
  }

  /** Proper-noun shape: capitalised and at most three words. */
  predicate LooksLikeProperNoun(text: string) {
    StartsUpper(text) && |SplitWhitespace(text)| <= 3
  }

  /** `classify_entity_type`: organisation keywords first, then the
      proper-noun shape, then concept keywords, else `Other` with the
      lowercased text. */
  function ClassifyEntityType(text: string): EntityType {
    var lower := Lower(text);
    if HasOrganizationKeyword(lower) then Organization
    else if LooksLikeProperNoun(text) then Person
    else if HasConceptKeyword(lower) then ConceptType
    else OtherEntity(lower)
  }

  /** What each class of the cascade means. */
  lemma ClassifyEntityTypeCascade(text: string)
    ensures HasOrganizationKeyword(Lower(text)) ==> ClassifyEntityType(text) == Organization
    ensures ClassifyEntityType(text) == Person <==> !HasOrganizationKeyword(Lower(text)) && LooksLikeProperNoun(text)
    ensures ClassifyEntityType(text) == ConceptType ==> HasConceptKeyword(Lower(text)) && !LooksLikeProperNoun(text)
    ensures ClassifyEntityType(text).OtherEntity? ==>
      ClassifyEntityType(text).name == Lower(text) && !HasConceptKeyword(Lower(text))
    ensures !ClassifyEntityType(text).Place? && !ClassifyEntityType(text).Event? && !ClassifyEntityType(text).Product?
  {
  }

  /** A capitalised company name is an organisation, not a person. */
  lemma ClassifyCapitalisedCompany()
    ensures ClassifyEntityType("TechCorp") == Organization
  {
    assert OccursAt(Lower("TechCorp"), "corp", 4);
  }

  /** The keyword test is a substring test: a first name containing "inc"
      is classified as an organisation. */
  lemma ClassifyNameContainingInc()
    ensures ClassifyEntityType("Vincent") == Organization
  {
    assert OccursAt(Lower("Vincent"), "inc", 1);
  }

  /** A single capitalised word without an organisation keyword, such as
      a first name, is classified as a person. */
  lemma ClassifyPlainName(name: string)
    requires IsWord(name) && StartsUpper(name) && !HasOrganizationKeyword(Lower(name))
    ensures ClassifyEntityType(name) == Person
  {
    SplitWhitespaceOfWord(name, []);
    assert name + [] == name;
  }

  /** `classify_relationship_type`: keyword groups in a fixed order, the
      first one present wins, `RelatedTo` when none is. */
  predicate HasPossessive(lower: string) {
    HasSubstring(lower, "has") || HasSubstring(lower, "have") || HasSubstring(lower, "owns")
  }

  predicate HasCopula(lower: string) {
    HasSubstring(lower, "is") || HasSubstring(lower, "are") || HasSubstring(lower, "was") || HasSubstring(lower, "were")
  }

  function ClassifyRelationshipType(text: string): RelationshipType {
    var lower := Lower(text);
    if HasPossessive(lower) then Has
    else if HasCopula(lower) then IsA
    else if HasSubstring(lower, "part of") || HasSubstring(lower, "belongs") then PartOf
    else if HasSubstring(lower, "connected") || HasSubstring(lower, "linked") then ConnectedTo
    else if HasSubstring(lower, "uses") || HasSubstring(lower, "utilizes") then Uses
    else if HasSubstring(lower, "creates") || HasSubstring(lower, "generates") then Creates
    else if HasSubstring(lower, "influences") || HasSubstring(lower, "affects") then Influences
    else RelatedTo
  }

  /** The possessive group decides `Has`, the copula group (tested next)
      decides `IsA` among the rest; the classifier never answers
      `Contains`, `Owns` or a custom type. */
  lemma ClassifyRelationshipTypeCascade(text: string)
    ensures HasPossessive(Lower(text)) <==> ClassifyRelationshipType(text) == Has
    ensures !HasPossessive(Lower(text)) ==> (HasCopula(Lower(text)) <==> ClassifyRelationshipType(text) == IsA)
    ensures ClassifyRelationshipType(text) != Contains && ClassifyRelationshipType(text) != Owns
    ensures !ClassifyRelationshipType(text).OtherRelationship?
  {
  }

  /** The possessive group is tested before the copula group: a text with
      "owns" is `Has` even when it also contains "is". */
  lemma OwnsBeatsIs(text: string)
    requires HasSubstring(Lower(text), "owns") && HasSubstring(Lower(text), "is")
    ensures ClassifyRelationshipType(text) == Has
  {
    ClassifyRelationshipTypeCascade(text);
  }

  /** The copula test is a substring test: any text containing "exists"
      holds "is", so without a possessive keyword it is classified `IsA`. */
  lemma CopulaInsideWord(text: string)
    requires !HasPossessive(Lower(text)) && HasSubstring(Lower(text), "exists")
    ensures ClassifyRelationshipType(text) == IsA
  {
    var lower := Lower(text);
    var i :| 0 <= i <= |lower| - |"exists"| && OccursAt(lower, "exists", i);
    assert lower[i + 2..i + 4] == "exists"[2..4];
    HasSubstringAt(lower, "is", i + 2);
    ClassifyRelationshipTypeCascade(text);
  }

  /** The words a label puts between the two entity names. */
  function Connective(t: RelationshipType): string {
    match t
    case Has => "has"
    case IsA => "is a"
    case PartOf => "is part of"
    case ConnectedTo => "connected to"
    case RelatedTo => "related to"
    case Contains => "contains"
    case Owns => "owns"
    case Uses => "uses"
    case Creates => "creates"
    case Influences => "influences"
    case OtherRelationship(l) => l
  }

  /** `generate_relationship_label`. */
  function GenerateRelationshipLabel(t: RelationshipType, entity1: string, entity2: string): (l: string)
    ensures |l| == |entity1| + |Connective(t)| + |entity2| + 2
  {
    entity1 + " " + Connective(t) + " " + entity2
  }

  /** The label reads: the first name, the connective, the second name,
      separated by single spaces. */
  lemma LabelParts(t: RelationshipType, entity1: string, entity2: string)
    ensures GenerateRelationshipLabel(t, entity1, entity2)[..|entity1|] == entity1
    ensures GenerateRelationshipLabel(t, entity1, entity2)[|entity1|] == ' '
    ensures GenerateRelationshipLabel(t, entity1, entity2)[|entity1| + 1..|entity1| + 1 + |Connective(t)|] == Connective(t)
    ensures GenerateRelationshipLabel(t, entity1, entity2)[|entity1| + 1 + |Connective(t)|] == ' '
    ensures GenerateRelationshipLabel(t, entity1, entity2)[|entity1| + 2 + |Connective(t)|..] == entity2
  {
  }

  /** For fixed entity names the label tells the connective apart, so two
      built-in relationship types never share a label. */
  lemma LabelDeterminesType(t1: RelationshipType, t2: RelationshipType, entity1: string, entity2: string)
    requires !t1.OtherRelationship? && !t2.OtherRelationship?
    requires GenerateRelationshipLabel(t1, entity1, entity2) == GenerateRelationshipLabel(t2, entity1, entity2)
    ensures t1 == t2
  {
    var l := GenerateRelationshipLabel(t1, entity1, entity2);
    LabelParts(t1, entity1, entity2);
    LabelParts(t2, entity1, entity2);
    assert |Connective(t1)| == |Connective(t2)|;
    assert Connective(t1) == l[|entity1| + 1..|entity1| + 1 + |Connective(t1)|] == Connective(t2);
  }

  const ConceptDescriptionPrefix: string := "Concept '"
  const ConceptDescriptionInfix: string := "' mentioned in context: "

  function DescriptionHeadLength(concept: string): nat {
    |ConceptDescriptionPrefix| + |concept| + |ConceptDescriptionInfix|
  }

  /** `generate_concept_description`: the concept name quoted, then at most
      the first 100 bytes of its sentence. */
  function GenerateConceptDescription(concept: string, context: string): (d: string)
    ensures |d| == DescriptionHeadLength(concept) + (if |context| > 100 then 100 else |context|)
  {
    ConceptDescriptionPrefix + concept + ConceptDescriptionInfix
      + (if |context| > 100 then context[..100] else context)
  }

  /** The description is the quoted name, then the start of the sentence. */
  lemma ConceptDescriptionParts(concept: string, context: string)
    ensures GenerateConceptDescription(concept, context)[..DescriptionHeadLength(concept)] ==
      ConceptDescriptionPrefix + concept + ConceptDescriptionInfix
    ensures GenerateConceptDescription(concept, context)[DescriptionHeadLength(concept)..] ==
      context[..|GenerateConceptDescription(concept, context)| - DescriptionHeadLength(concept)]
  {
  }
}
