# msg_net in Dafny

msg_net turns plain text into an interactive knowledge graph, in four stages:

1. **Text processor.** It cleans the text and cuts it into sentences and lowercased words. It also guesses the language and collects context windows and key phrases.
2. **Entity extractor.** It finds entities, relationships and concepts in one of two ways:
   - with configurable regular expressions, a first-occurrence seen-set and two keyword classifiers;
   - by asking a language model and cutting its reply to a JSON array.
   A deep-analysis mode adds enhanced-pattern relationships, context attributes and links from concepts to entities.
3. **Graph builder.** It turns the extraction result into nodes and edges and counts each by type. It places the nodes with a hierarchical, force or circular layout.
4. **Exporter.** It writes HTML, JSON, CSV, GraphML or DOT into `0_networks/`, under the first free serialized file name.

The model follows the program's structure module by module:

- **Shared.** `Strings` (ASCII text primitives), `Config`, `Regex` (the regex library as an oracle) and `ExtractionTypes`.
- **Text processor.** `TextProcessor`.
- **Entity extractor.** `Heuristics`, `Candidates`, `PatternEntities`, `PatternRelationships`, `NameResolution`, `LlmParsing`, `DeepAnalysis` and `Extraction`.
- **Graph builder.** `Graph` and `GraphBuilder`, with `Layout` for the layouts.
- **End to end.** `Pipeline`.
- **Exporter.** `Export`.

**Pure and imperative parts.**
- Code written as expressions (classifiers, label and description templates, node and edge constructors, escaping) is modelled as functions and lemmas.
- Code that loops and pushes is modelled as methods. Each method's `ensures` ties its result to a specification function, and lemmas state what that function means. This covers:
  - the pattern extractors' nested loops;
  - `build_graph` and its histograms;
  - the context-enhancement loop, the concept-link loop and the name-resolution loop;
  - the key-phrase loops and the context-window loop;
  - the output-name search;
  - the CSV, GraphML and DOT writers.
- `InteractiveGraph` is a class whose nodes the layouts rewrite in place.

**Inputs modelled as parameters.**
- Identifiers from `Uuid::new_v4` are `uuid(k)` for a counter `k` threaded through the calls in the source's order of evaluation.
- The regex library is a `Pattern` value: its matches, `is_match`, and capture groups.
- `serde_json` decoding is a `Decoder` of reply rows.
- The language-model reply is an `Option<string>`, where `None` means the call failed.
- Clocks, time stamps and the file system are plain parameters.

**Where the code and its design notes disagree, the model follows the code:**
- The hierarchical layout gives the `i`-th of `n` nodes x = (i − n/2)·spacing. A band is therefore not symmetric around x = 0: the first and last x add up to −spacing (`Layout.HierarchicalOffCentre`).
- `validate_export_path` accepts a path without an extension, which `create_output_path` then refuses (`Export.NoExtensionPassesThenFails`).
- The HTML exporter inserts its script before `</body>`. A template without that tag silently loses the script (`Export.EmbedWithoutBody`).
- `escape_dot` is proved invertible by a left-to-right decoder (`Export.EscapeDotRoundTrip`). Nothing is claimed about undoing it with `replace` calls in reverse order.
- The confidence boost of `enhance_entities_with_context` needs more than two context keys. There are never more than two, so the boost never applies (`DeepAnalysis.BoostNeverApplies`).

## Model

| member | source | states |
|---|---|---|
| TextProcessor.Sanitize | src/text_processor.rs:76 | each character outside the kept class becomes a space: the length is kept and every character left is in the kept class |
| TextProcessor.Collapse | src/text_processor.rs:79 | every white-space character left is a space, no two are adjacent, the text starts with white space iff the input does, and kept-class texts stay kept-class |
| TextProcessor.CleanText | src/text_processor.rs:69-82 | the cleaned text has no tab or carriage return, only kept-class characters, and no two adjacent white-space characters |
| TextProcessor.CleanTextKeepsVisible | src/text_processor.rs:69-82 | the visible characters of the cleaned text are exactly the visible kept-class characters of the input, in order |
| TextProcessor.SentencePieces | src/text_processor.rs:85-88 | splitting at `[.!?]+\s*` gives at least one piece and no piece holds a terminator |
| TextProcessor.ExtractSentences | src/text_processor.rs:84-92 | every sentence is non-empty, trimmed and free of terminators |
| TextProcessor.SentencesKeepText | src/text_processor.rs:84-92 | the sentences glued together hold exactly the text's characters other than terminators and white space, in order |
| TextProcessor.ExtractWords | src/text_processor.rs:94-101 | every word is a non-empty run of lowercase word characters |
| TextProcessor.ExtractWordsKeepsText | src/text_processor.rs:94-101 | the words glued together are the lowercased word characters of the text, in order: none lost, none invented |
| TextProcessor.DetectLanguage | src/text_processor.rs:103-123 | the answer is "english" or "unknown" |
| TextProcessor.DetectLanguageRatio | src/text_processor.rs:103-123 | "unknown" without words; otherwise "english" iff ten times the common-word count exceeds the word count |
| TextProcessor.ProcessText | src/text_processor.rs:47-67 | the metadata counts the words and sentences returned and the characters of the original text, and the sentences and words have the shapes above |
| TextProcessor.ExtractContextWindows | src/text_processor.rs:125-138 | one window per white-space word, window `i` being the words from `i - w/2` up to `i + w/2` joined by single spaces |
| TextProcessor.WindowHoldsWord | src/text_processor.rs:130-133 | window `i` contains word `i`, has at most 2·(w/2)+1 words, and splitting it again gives back exactly its words |
| TextProcessor.SortByLengthDesc | src/text_processor.rs:158 | the sort is a permutation whose lengths never increase |
| TextProcessor.SortByLengthDescStable | src/text_processor.rs:158 | phrases of equal length keep their relative order |
| TextProcessor.Dedup | src/text_processor.rs:159 | no two adjacent phrases are equal, the same phrases occur, the first is kept, and non-increasing lengths stay non-increasing; `DedupIdentity` and `DedupSplit` show that only consecutive repeats go |
| TextProcessor.CollectKeyPhrases | src/text_processor.rs:145-155 | the trimmed noun-phrase matches, then the trimmed important-term matches, in order |
| TextProcessor.DedupIdentity | src/text_processor.rs:159 | `dedup` leaves a sequence unchanged iff no two neighbours are equal |
| TextProcessor.DedupSplit | src/text_processor.rs:159 | across a boundary between unequal neighbours `dedup` works on each side apart, so equal elements that are not neighbours both survive |
| TextProcessor.ExtractKeyPhrases | src/text_processor.rs:140-162 | the phrases as written: exactly the stable longest-first sort of the collected phrases with consecutive repeats dropped, so lengths are non-increasing, no two neighbours are equal, and exactly the phrases either pattern found occur |
| TextProcessor.KeyPhraseDuplicatesSurvive | src/text_processor.rs:157-159 | for the noun phrases "Alice", "Bobby", "Alice" the sort and dedup leave both copies of "Alice" |
| TextProcessor.DedupAll | src/text_processor.rs:157 | every duplicate dropped: no phrase twice and the same phrases |
| TextProcessor.DedupAllSorted | src/text_processor.rs:157-159 | dropping every duplicate keeps non-increasing lengths non-increasing |
| TextProcessor.ExtractDistinctKeyPhrases | src/text_processor.rs:140-162 | the phrases as the comment intends: the full dedup of the same stable sort, so lengths are non-increasing, no phrase occurs twice, and exactly the phrases either pattern found occur |
| Regex.Escape | src/entity_extractor.rs:506-507 | the escaped name is at least as long as the name |
| Regex.EscapeRoundTrip | src/entity_extractor.rs:506-507 | reading the escaped name back gives the name |
| Regex.EscapeInjective | src/entity_extractor.rs:506-507 | different names give different escaped patterns |
| ExtractionTypes.CompilePatterns | src/entity_extractor.rs:152-157 | compilation succeeds iff every pattern compiles, and then gives one compiled pattern per source, in order |
| ExtractionTypes.NewExtractor | src/entity_extractor.rs:139-150 | the extractor exists iff all three pattern lists compile; it keeps the configuration, and with a sound regex library its patterns are sound |
| Heuristics.ClassifyEntityTypeCascade | src/entity_extractor.rs:461-475 | organisation keywords win; Person iff no organisation keyword and a proper-noun shape; Concept needs a concept keyword and no proper-noun shape; Other carries the lowercased text; never Place, Event or Product |
| Heuristics.ClassifyCapitalisedCompany | src/entity_extractor.rs:461-475 | "TechCorp" is an organisation although it is capitalised |
| Heuristics.ClassifyNameContainingInc | src/entity_extractor.rs:461-475 | the keyword test is a substring test, so "Vincent" is an organisation |
| Heuristics.ClassifyPlainName | src/entity_extractor.rs:461-475 | a capitalised single word without an organisation keyword is a person |
| Heuristics.ClassifyRelationshipTypeCascade | src/entity_extractor.rs:564-584 | Has iff a possessive keyword; otherwise IsA iff a copula; never Contains, Owns or a custom type |
| Heuristics.OwnsBeatsIs | src/entity_extractor.rs:564-584 | a text holding both "owns" and "is" is Has |
| Heuristics.CopulaInsideWord | src/entity_extractor.rs:564-584 | "exists" contains "is", so without a possessive it is IsA |
| Heuristics.GenerateRelationshipLabel | src/entity_extractor.rs:586-600 | the label is as long as both names, the connective and two spaces |
| Heuristics.LabelParts | src/entity_extractor.rs:586-600 | the label is the first name, a space, the connective, a space and the second name |
| Heuristics.LabelDeterminesType | src/entity_extractor.rs:586-600 | for fixed names two built-in relationship types never share a label |
| Heuristics.GenerateConceptDescription | src/entity_extractor.rs:602-610 | the description is as long as the quoted head plus min(100, sentence length) |
| Heuristics.ConceptDescriptionParts | src/entity_extractor.rs:602-610 | the description is the quoted concept name followed by the first bytes of its sentence |
| Candidates.AllCandidatesLocated | src/entity_extractor.rs:207-209 | every match of the sentence/pattern/match walk carries its sentence's index and text, and with a sound library is a piece of it |
| Candidates.FirstOccurrencesSound | src/entity_extractor.rs:211-217 | the chosen indices increase, are long enough and are first occurrences |
| Candidates.FirstOccurrencesDistinct | src/entity_extractor.rs:211-217 | no text is chosen twice |
| Candidates.FirstOccurrencesComplete | src/entity_extractor.rs:211-217 | a text is chosen iff it occurs and is long enough |
| Candidates.LongTextsMember | src/entity_extractor.rs:213-217 | a long enough text is in the seen-set iff it occurred earlier |
| Candidates.SelectedProperties | src/entity_extractor.rs:207-217 | the selected matches have long enough texts, pairwise different, and cover every long enough text of the walk |
| Candidates.SelectedFromWalk | src/entity_extractor.rs:207-217 | every selected match is a match of the walk |
| PatternEntities.DescriptionFromMeaning | src/entity_extractor.rs:503-521 | a description is found iff some pattern compiles and captures, and it is trimmed |
| PatternEntities.DescriptionInContext | src/entity_extractor.rs:503-521 | with a sound library the description is a piece of the context |
| PatternEntities.ExtractDescriptionFromContext | src/entity_extractor.rs:503-521 | the loop returns the first captured description of the two escaped-name patterns |
| PatternEntities.EntityAttributes | src/entity_extractor.rs:477-501 | one or two attributes |
| PatternEntities.EntityAttributesShape | src/entity_extractor.rs:477-501 | the "name" attribute comes first with the entity name at confidence 1.0; a "description" attribute at 0.7 follows iff a description is found |
| PatternEntities.ExtractEntityAttributes | src/entity_extractor.rs:477-501 | the method builds exactly those attributes |
| PatternEntities.PatternEntityShape | src/entity_extractor.rs:218-232 | an entity made from a match has the trimmed text as name, its classification, its attributes, confidence 0.7 and the match's position |
| PatternEntities.PatternEntityIds | src/entity_extractor.rs:219-222 | the attributes draw the identifiers first and the entity the one after them |
| PatternEntities.BuildEntitiesShape | src/entity_extractor.rs:203-240 | every built entity is the one its match calls for |
| PatternEntities.BuildEntitiesDistinctIds | src/entity_extractor.rs:203-240 | entity identifiers are pairwise different when the identifier source never repeats |
| PatternEntities.EntitiesFromMatches | src/entity_extractor.rs:207-236 | the loop builds the entities of the selected matches, skipping texts shorter than 2 or already seen |
| PatternEntities.ExtractEntitiesWithPatterns | src/entity_extractor.rs:203-240 | the method builds the entities of the selected matches of the walk |
| PatternEntities.PatternEntitiesProperties | src/entity_extractor.rs:203-240 | one entity per distinct trimmed text of length at least 2, each made from the first match with that text, with distinct identifiers when the source never repeats |
| PatternEntities.PatternEntityPositions | src/entity_extractor.rs:227-231 | with a sound library, every entity's position points at its name in its sentence |
| PatternEntities.BuildConceptsShape | src/entity_extractor.rs:298-309 | the j-th concept is made from the j-th selected match with identifier counter next+j |
| PatternEntities.ConceptsFromMatches | src/entity_extractor.rs:287-313 | the loop builds the concepts of the selected matches, skipping texts shorter than 3 or already seen |
| PatternEntities.ExtractConceptsWithPatterns | src/entity_extractor.rs:283-317 | the method builds the concepts of the selected matches of the walk |
| PatternEntities.PatternConceptsProperties | src/entity_extractor.rs:283-317 | one concept per distinct trimmed text of length at least 3, made from its first match, with confidence 0.6, no related entities and the templated description |
| PatternEntities.PatternConceptIds | src/entity_extractor.rs:283-317 | concept identifiers are pairwise different when the identifier source never repeats |
| PatternEntities.PatternConceptPositions | src/entity_extractor.rs:283-317 | with a sound library, every concept's position points at its name in its sentence |
| PatternRelationships.SentenceEntities | src/entity_extractor.rs:251-260 | the entities of a sentence are exactly the listed entities mentioned in it, in list order |
| PatternRelationships.PairsFrom | src/entity_extractor.rs:263-266 | the (i<j) pairs of n entities number n·(n−1)/2 |
| PatternRelationships.PairsFromMembers | src/entity_extractor.rs:263-266 | every pair joins two entities of the sentence |
| PatternRelationships.AllPairsOf | src/entity_extractor.rs:245-277 | every pair of the walk joins two entities of one sentence |
| PatternRelationships.SpanCoversMentions | src/entity_extractor.rs:532-538 | the span exists iff both names occur, and it covers the first occurrence of each |
| PatternRelationships.SpanHoldsNames | src/entity_extractor.rs:532-538 | the span holds both names |
| PatternRelationships.FindRelationshipBetweenEntities | src/entity_extractor.rs:523-562 | the loop returns the relationship of the first pattern that matches the span, or none |
| PatternRelationships.RelationshipForExists | src/entity_extractor.rs:523-562 | a pair yields a relationship iff both names occur and some pattern matches the span |
| PatternRelationships.RelationshipForFields | src/entity_extractor.rs:536-556 | the relationship runs from the first entity to the second, lies in the pair's sentence on a span inside it, and has confidence 0.6 |
| PatternRelationships.RelationshipForLabel | src/entity_extractor.rs:541-549 | its type classifies the span, and its label starts with the first name and ends with the second |
| PatternRelationships.NoRelationshipWithoutBothNames | src/entity_extractor.rs:531-535 | a name missing from the sentence yields no relationship |
| PatternRelationships.RelationshipsFromPairs | src/entity_extractor.rs:263-277 | the loop pushes the relationship of each pair, in walking order, with the next identifier |
| PatternRelationships.ExtractRelationshipsWithPatterns | src/entity_extractor.rs:242-281 | the method builds the relationships of all (i<j) pairs of every sentence |
| PatternRelationships.BuildRelationshipsSound | src/entity_extractor.rs:242-281 | relationships built from listed pairs are sound and the k-th draws identifier counter next+k |
| PatternRelationships.PatternRelationshipsProperties | src/entity_extractor.rs:242-281 | at most one relationship per pair, each between two listed entities, located in a sentence, at 0.6, with distinct identifiers when the source never repeats |
| NameResolution.NameMapLookup | src/entity_extractor.rs:713-716 | a lowercased name resolves iff some entity has it, and then to the last such entity |
| NameResolution.NameMapValues | src/entity_extractor.rs:713-716 | every resolved entity is one of the list |
| NameResolution.Resolvable | src/entity_extractor.rs:719-723 | the kept rows are rows whose two names resolve |
| NameResolution.ResolvableMembers | src/entity_extractor.rs:719-723 | a row is kept iff both its names resolve |
| NameResolution.ResolveRows | src/entity_extractor.rs:718-734 | the loop makes one relationship per resolving row, in order, each with the next identifier |
| NameResolution.ResolvedRowsSound | src/entity_extractor.rs:718-734 | at most one relationship per row, each joining two listed entities, with distinct identifiers when the source never repeats |
| NameResolution.ResolvedRowsFrom | src/entity_extractor.rs:718-734 | every relationship is one row resolved with the identifier of its place |
| NameResolution.ResolvedRowsSelfLabelled | src/entity_extractor.rs:728-729 | rows whose custom type is their label make relationships whose custom type is their label |
| LlmParsing.JsonStart | src/entity_extractor.rs:654 | the slice start is within the reply |
| LlmParsing.JsonEnd | src/entity_extractor.rs:655 | the slice end is within the reply |
| LlmParsing.JsonSliceAsWritten | src/entity_extractor.rs:654-656 | in bounds, the slice runs from the first `[` to just after the last `]` |
| LlmParsing.SlicePanicsIff | src/entity_extractor.rs:654-656 | the slice panics iff the reply has both brackets and every `[` lies at least two places after every `]` |
| LlmParsing.OutOfOrderBracketsPanic | src/entity_extractor.rs:654-656 | the reply "] [" makes the slice panic |
| LlmParsing.JsonSlice | src/entity_extractor.rs:654-656 | the corrected slice has a value iff the slice is in bounds |
| LlmParsing.JsonSliceWidest | src/entity_extractor.rs:654-656 | the slice is the widest piece of the reply with no `[` before it and no `]` after it |
| LlmParsing.JsonSliceBracketed | src/entity_extractor.rs:654-656 | a reply with a `[` before a `]` is cut to a piece that starts with `[` and ends with `]` |
| LlmParsing.JsonSliceWithoutBrackets | src/entity_extractor.rs:654-656 | a reply without brackets goes to the decoder whole |
| LlmParsing.Decoded | src/entity_extractor.rs:658-659 | rows are decoded only from an in-bounds slice |
| LlmParsing.LlmEntityTypeCases | src/entity_extractor.rs:663-671 | person, place and organization are recognised ignoring case; another known label depends only on its lowercase form; an unknown label is kept verbatim |
| LlmParsing.ParseEntitiesFromLlmResponse | src/entity_extractor.rs:644-692 | the method parses the corrected bracket slice as specified and draws two identifiers per entity; where the source's slice would panic it reports a parse error |
| LlmParsing.ParsedEntitiesProperties | src/entity_extractor.rs:644-692 | parsing succeeds iff the slice decodes; then one entity per row in order, and no identifier drawn twice when the source never repeats |
| LlmParsing.ParseRelationshipsFromLlmResponse | src/entity_extractor.rs:695-737 | the method parses the corrected bracket slice as specified and draws one identifier per relationship; where the source's slice would panic it reports a parse error |
| LlmParsing.LlmRowKept | src/entity_extractor.rs:718-723 | a row is kept iff both of its names are, ignoring case, an entity's name |
| LlmParsing.ParsedRelationshipsProperties | src/entity_extractor.rs:695-737 | parsing succeeds iff the slice decodes; then every relationship joins two listed entities, carries the row's text as custom type and label, and there are no more relationships than rows |
| LlmParsing.ParseConceptsFromLlmResponse | src/entity_extractor.rs:740-769 | the method parses the corrected bracket slice as specified and draws one identifier per concept; where the source's slice would panic it reports a parse error |
| LlmParsing.ParsedConceptsProperties | src/entity_extractor.rs:740-769 | parsing succeeds iff the slice decodes; then one concept per row with its name, description and confidence, no related entities and no position |
| Extraction.ExtractEntitiesWithLlm | src/entity_extractor.rs:319-362 | the entity stage: parsed reply entities, or the pattern entities as fallback |
| Extraction.ExtractRelationshipsWithLlm | src/entity_extractor.rs:364-414 | the relationship stage: parsed reply relationships, or the pattern relationships as fallback |
| Extraction.ExtractConceptsWithLlm | src/entity_extractor.rs:416-459 | the concept stage: parsed reply concepts, or the pattern concepts as fallback |
| Extraction.EntitiesWithLlmCases | src/entity_extractor.rs:319-362 | empty without the model; the reply's entities when it parses; otherwise the pattern entities |
| Extraction.RelationshipsWithLlmJoin | src/entity_extractor.rs:364-414 | however the stage goes, every relationship joins two of the given entities |
| Extraction.ExtractFromText | src/entity_extractor.rs:159-201 | `extract_from_text` always succeeds with the specified result |
| Extraction.FromTextProperties | src/entity_extractor.rs:159-201 | the metadata counts the result's lists, reports threshold 0.5 and the method that ran, and every relationship joins two of the result's entities |
| Extraction.FromTextWithoutLlm | src/entity_extractor.rs:162-178 | without the model the result is the three pattern extractors' output, each drawing identifiers after the previous one |
| Extraction.ExtractWithDeepAnalysis | src/entity_extractor.rs:772-824 | the method computes the specified deep-analysis result |
| Extraction.EnhancedIds | src/entity_extractor.rs:855-887 | enhancement keeps every identifier in its place |
| Extraction.FirstStagesJoin | src/entity_extractor.rs:783-784 | the model stages yield relationships between their own entities |
| Extraction.LaterStagesProperties | src/entity_extractor.rs:790-803 | the later stages add relationships between first-stage entities, an enhanced list with the same identifiers, and links from concepts to enhanced entities |
| Extraction.DeepAnalysisProperties | src/entity_extractor.rs:772-824 | fails iff the model is off, with the source's message; otherwise counts its lists, reports threshold 0.6 and the model name, keeps one enhanced entity per entity, keeps the first relationships as a prefix, and anchors every relationship |
| DeepAnalysis.FirstMatchMeaning | src/entity_extractor.rs:930-952 | a keyword table yields a value iff some keyword is hit, and then the value of the first entry hit |
| DeepAnalysis.AnalyzeEntityContext | src/entity_extractor.rs:915-955 | the method finds the first role keyword near the name and the first domain keyword |
| DeepAnalysis.ContextSize | src/entity_extractor.rs:915-955 | the context holds at most two keys, none iff neither is found |
| DeepAnalysis.ContextAttributes | src/entity_extractor.rs:860-878 | the context adds one attribute per key it holds |
| DeepAnalysis.Boost | src/entity_extractor.rs:882 | the boosted confidence never exceeds 1.0 and never lowers a confidence in [0, 1] |
| DeepAnalysis.BoostNeverApplies | src/entity_extractor.rs:880-883 | the boost branch is dead: confidence is unchanged, and at most 1.0 when it was |
| DeepAnalysis.EnhancedEntityIsEnhancement | src/entity_extractor.rs:856-884 | an enhanced entity differs from the original only by its role and domain attributes |
| DeepAnalysis.ApplyContext | src/entity_extractor.rs:860-883 | the body pushes the role, then the domain attribute, drawing one identifier each |
| DeepAnalysis.EnhanceEntitiesWithContext | src/entity_extractor.rs:855-887 | the in-place loop yields every entity enhanced with its own context |
| DeepAnalysis.EnhancedEntitiesAt | src/entity_extractor.rs:855-887 | the k-th entity is enhanced with its own context and the identifiers after its predecessors' |
| DeepAnalysis.EnhancedEntitiesProperties | src/entity_extractor.rs:855-887 | length and order are kept, and each entity changes only as an enhancement by its own context |
| DeepAnalysis.ExtractConceptRelationships | src/entity_extractor.rs:890-912 | the loops link, concept-major, each concept to each entity its description mentions |
| DeepAnalysis.MentionsOfMembers | src/entity_extractor.rs:896-899 | a pair is linked iff its entity is listed and the lowercased description contains the lowercased name |
| DeepAnalysis.MentionPairsMembers | src/entity_extractor.rs:894-899 | the linked pairs are exactly the listed concept–entity pairs whose description mentions the entity |
| DeepAnalysis.ConceptLinksProperties | src/entity_extractor.rs:890-912 | every link runs from a concept to an entity it mentions, is RelatedTo "relates to" at 0.65 without position, with distinct identifiers when the source never repeats |
| DeepAnalysis.ExtractRelationshipsWithEnhancedPatterns | src/entity_extractor.rs:958-1007 | the captured word pairs of the lowercased text are resolved through the name map |
| DeepAnalysis.ResolvedEnhancedRows | src/entity_extractor.rs:975-1003 | relationships from a table of custom types join two listed entities and carry one of its types, labelled with its text, at 0.75 |
| DeepAnalysis.EnhancedRelationshipsProperties | src/entity_extractor.rs:958-1007 | every enhanced relationship joins two listed entities, has one of the seven custom types labelled with its text, at 0.75; the fallback label is never used |
| Graph.InteractiveGraph.constructor | src/graph_builder.rs:148-153 | the graph holds the given nodes, edges, configuration and metadata |
| Graph.TallyCounts | src/graph_builder.rs:104 | bumping once per key adds each key's number of occurrences to its count |
| Graph.TallyAppend | src/graph_builder.rs:104 | tallying two runs of keys is tallying their concatenation |
| Graph.HistogramOfThree | src/graph_builder.rs:139-146 | a histogram of three distinct keys has only those keys, and their counts add up to the number of keys |
| Graph.PushNode | src/graph_builder.rs:104-105 | pushing a node and bumping its key keeps the histogram the tally of the nodes' keys |
| Graph.PushEdge | src/graph_builder.rs:132-133 | pushing an edge and bumping its key keeps the histogram the tally of the edges' keys |
| GraphBuilder.NodeSizeBounds | src/graph_builder.rs:330-336 | an entity node is 1 to 1.5 times its attribute-scaled base of 30, and grows with each attribute |
| GraphBuilder.ConceptNodeSizeBounds | src/graph_builder.rs:338-344 | a concept node is 1 to 1.3 times its base of 25 scaled by its related entities, and grows with each |
| GraphBuilder.EdgeWidthBounds | src/graph_builder.rs:346-348 | an edge is 1 to 3 wide, and wider for a higher confidence |
| GraphBuilder.AttributeMapKeys | src/graph_builder.rs:161-163 | a name is a key of the node's attribute map iff some attribute has it |
| GraphBuilder.AttributeMapValue | src/graph_builder.rs:161-163 | a name maps to the value of the last attribute that has it |
| GraphBuilder.ShouldConnectByPosition | src/graph_builder.rs:297-301 | with both positions, connect iff the sentence indices are equal or adjacent |
| GraphBuilder.ShouldConnectByName | src/graph_builder.rs:302-306 | otherwise connect when, ignoring case, the description contains the entity name or the entity name contains the concept name; a concept name longer than an entity name unmentioned by the description never connects |
| GraphBuilder.AddAttributes | src/graph_builder.rs:108-118 | the inner loop appends one node and one edge per shown attribute, and the histograms still count the lists |
| GraphBuilder.PushAttribute | src/graph_builder.rs:109-117 | a shown attribute appends its node and edge, and the histograms still count the lists |
| GraphBuilder.AddEntity | src/graph_builder.rs:102-120 | one round appends the entity node and its attributes' nodes and edges, and the histograms still count the lists |
| GraphBuilder.AddConcepts | src/graph_builder.rs:123-127 | the concept loop appends one node per concept, and the histogram still counts the nodes |
| GraphBuilder.AddRelationships | src/graph_builder.rs:130-134 | the relationship loop appends one edge per relationship, and the histogram still counts the edges |
| GraphBuilder.ConnectConcept | src/graph_builder.rs:283-292 | one concept appends its connections and tallies their keys |
| GraphBuilder.ConnectConcepts | src/graph_builder.rs:277-295 | the loops append every concept's connections and tally their keys |
| GraphBuilder.CollectGraph | src/graph_builder.rs:95-137 | the nodes and edges are the specified lists, and each histogram counts its list by type |
| GraphBuilder.BuildGraph | src/graph_builder.rs:95-154 | `build_graph` never fails; the graph holds those lists and the configuration, and its metadata counts nodes, edges and source text |
| GraphBuilder.AttributeParts | src/graph_builder.rs:108-118 | an entity's attribute nodes and edges pair up, one of each per attribute not called "name" |
| GraphBuilder.EntityPartsOrigin | src/graph_builder.rs:102-120 | every node of the entity part belongs to an entity or to one of its shown attributes, and every edge to a shown attribute |
| GraphBuilder.EntityPartsMembers | src/graph_builder.rs:102-120 | every entity has its node, and every shown attribute its node and its edge |
| GraphBuilder.EntityPartsCount | src/graph_builder.rs:102-120 | one node per entity plus one node and one edge per shown attribute |
| GraphBuilder.NodeKeyCounts | src/graph_builder.rs:102-127 | the node kinds hold "entity" once per entity and "concept" once per concept, and only the three node keys |
| GraphBuilder.NodeHistogram | src/graph_builder.rs:102-146 | nodes = entities + shown attributes + concepts; the histogram counts each kind and sums to the node total |
| GraphBuilder.ConceptNodesAre | src/graph_builder.rs:123-127 | the concept part holds each concept's node, in order |
| GraphBuilder.RelationshipEdgesAre | src/graph_builder.rs:130-134 | the relationship part holds each relationship's edge, in order |
| GraphBuilder.ConnectionsForExactly | src/graph_builder.rs:283-292 | a concept's connections are exactly its edges to entities it should connect to, at most one per entity |
| GraphBuilder.ConnectionsCount | src/graph_builder.rs:277-295 | at most one connection per concept–entity pair |
| GraphBuilder.ConnectionsExactly | src/graph_builder.rs:277-295 | the connections are exactly the edges from each concept to each entity it should connect to |
| GraphBuilder.ConnectionEdgeShape | src/graph_builder.rs:309-328 | a connection runs from the concept's node to the entity's node, both ways, with the mean confidence and weight 0.5 |
| GraphBuilder.AttributeEdgeShape | src/graph_builder.rs:256-275 | an attribute edge runs from the entity's node to the attribute's node, has id "entity-attribute", label "has", width 1 and the attribute's confidence |
| GraphBuilder.RelationshipEdgesCopy | src/graph_builder.rs:235-254 | each relationship edge copies source, target, label and confidence, and is 1 to 3 wide |
| GraphBuilder.DebugControlEscapes | src/graph_builder.rs:160 | NUL is written `\0` and the control characters `\u{1}`, `\u{1f}` and delete `\u{7f}`, as `{:?}` writes them |
| GraphBuilder.LowerHexRoundTrip | src/graph_builder.rs:160 | the hexadecimal digits of a `\u{..}` escape in a `{:?}` type name read back to the character's code |
| GraphBuilder.EntityNodeShape | src/graph_builder.rs:156-180 | an entity node keeps the entity's id and name, is sized by the formula, is unplaced, and lists every attribute name |
| GraphBuilder.EdgeKeyCounts | src/graph_builder.rs:102-137 | the edge kinds hold "entity_attribute" once per shown attribute and "relationship" once per relationship, and only the three edge keys |
| GraphBuilder.EdgeHistogram | src/graph_builder.rs:102-146 | edges = shown attributes + relationships + connections; the histogram counts each kind and sums to the edge total |
| GraphBuilder.EndpointsHaveNodes | src/graph_builder.rs:102-127 | every listed entity and concept has a node with its identifier |
| GraphBuilder.EdgesJoinNodes | src/graph_builder.rs:95-137 | when every relationship points at a listed entity or concept, no edge dangles |
| Layout.Partition | src/graph_builder.rs:366-373 | the first pass lists the positions of the entity, concept and attribute nodes, in order |
| Layout.IndicesOfFacts | src/graph_builder.rs:366-373 | a band lists every node of its type exactly once, in node order |
| Layout.PlaceBand | src/graph_builder.rs:376-381 | the i-th of n nodes in a band gets x = (i − n/2)·spacing and the band's height, and nothing else changes |
| Layout.ThreeBands | src/graph_builder.rs:375-396 | placing the three bands in turn is the hierarchical layout |
| Layout.ApplyHierarchicalLayout | src/graph_builder.rs:359-399 | the nodes are laid out hierarchically in place; edges, configuration and metadata are kept |
| Layout.ApplyForceLayout | src/graph_builder.rs:401-405 | the nodes are kept |
| Layout.ApplyCircularLayout | src/graph_builder.rs:407-425 | the nodes are placed round the circle in place; edges, configuration and metadata are kept |
| Layout.ApplyLayout | src/graph_builder.rs:350-357 | `apply_layout` never fails and applies the layout its name selects, force for unknown names |
| Layout.LayoutKeepsNodes | src/graph_builder.rs:350-425 | layouts keep the node count and every node but its coordinates; force, unknown names and an empty graph change nothing |
| Layout.HierarchicalBands | src/graph_builder.rs:375-396 | entities sit at y = −200, concepts at 0, attributes at 200; relationship nodes are untouched |
| Layout.HierarchicalNeighbours | src/graph_builder.rs:375-396 | within a band the next node is exactly one spacing further right |
| Layout.HierarchicalOffCentre | src/graph_builder.rs:375-396 | the first and last x of a band add up to −spacing: bands are not centred on 0 |
| Layout.HierarchicalIdempotent | src/graph_builder.rs:359-399 | laying out twice is laying out once |
| Layout.CircularRadius | src/graph_builder.rs:414-422 | with unit-circle points, every node lands at distance 300 from the origin |
| Pipeline.FromTextGraphClosed | src/graph_builder.rs:95-137 | every edge of the graph built from `extract_from_text` runs between two of its nodes |
| Pipeline.DeepAnalysisGraphClosed | src/graph_builder.rs:95-137 | deep analysis with the model on succeeds, and every edge of its graph runs between two of its nodes |
| Export.EscapeXmlSafe | src/export.rs:554-560 | no raw `<`, `>`, `"` or `'` remains, and every `&` opens an entity |
| Export.EscapeXmlRoundTrip | src/export.rs:554-560 | decoding the entities gives the text back |
| Export.EscapeXmlIdentity | src/export.rs:554-560 | the text is unchanged iff it holds none of the five special characters |
| Export.XmlEntitySizes | src/export.rs:554-560 | special characters become longer entities, the others stay themselves |
| Export.UnescapeXmlEntity | src/export.rs:554-560 | decoding each entity yields its character and continues after it |
| Export.EscapeDotSafe | src/export.rs:562-568 | no raw line break, carriage return or tab remains, and every `"` is escaped |
| Export.EscapeDotRoundTrip | src/export.rs:562-568 | decoding the escapes gives the text back |
| Export.EscapeDotIdentity | src/export.rs:562-568 | the text is unchanged iff it holds none of the five special characters |
| Export.DotEscapeSizes | src/export.rs:562-568 | special characters become longer escapes, the others stay themselves |
| Export.SupportedFormatsOnce | src/export.rs:570-578 | every format is listed, exactly once |
| Export.FormatForExpected | src/export.rs:593-612 | each format owns its extension: no two expect the same one |
| Export.FileNameIgnoresTrailingCurDir | src/export.rs:56-58 | a trailing separator or a trailing `/.` leaves the file name unchanged, as `Path::file_name` skips them |
| Export.NameSplits | src/export.rs:58-64 | a name with an extension is its stem, a dot and the extension; without one it is its own stem |
| Export.ValidateExtensionFormats | src/export.rs:593-612 | a path passes iff it has no extension or its lowercased extension is the format's, so at most one format; the error names the expected extension |
| Export.NoExtensionPassesThenFails | src/export.rs:56-88 | a path without an extension passes validation and is then refused by `create_output_path` |
| Export.CandidatesDistinct | src/export.rs:74-87 | different counters give different names |
| Export.CandidateCount | src/export.rs:74-87 | the first k names are k different names |
| Export.SearchBound | src/export.rs:74-87 | k taken names need at least k existing files, so the search ends |
| Export.CreateOutputPath | src/export.rs:56-88 | the name errors follow the requested path; otherwise the result is the first free name of the sequence |
| Export.FirstFree | src/export.rs:74-87 | the counting loop ends on a name not among the existing files, and every earlier candidate was taken |
| Export.FirstFreeUnique | src/export.rs:74-87 | only one name is the first free one |
| Export.OutputPath | src/export.rs:56-88 | as `CreateOutputPath`, with the directory-creation error after the name errors and before the search for a free name |
| Export.DefaultPathNamed | src/export.rs:90-98 | without a path the file is named `graph.<ext>` and naming can fail only on the directory |
| Export.CsvLabelSanitised | src/export.rs:331 | the sanitised label holds no comma and differs only where commas were |
| Export.WriteLines | src/export.rs:327-356 | a writer loop appends each item's line in turn |
| Export.Render | src/export.rs:310-552 | the text is the opening, one line per node, the middle, one line per edge and the closing |
| Export.NodeWritten | src/export.rs:310-552 | node k's line follows the opening and the earlier nodes' lines |
| Export.EdgeWritten | src/export.rs:310-552 | edge k's line follows all the node lines and the earlier edges' lines |
| Export.CsvNodeRowColumns | src/export.rs:325-337 | a CSV node row splits back into its seven columns, with the sanitised label |
| Export.CsvEdgeRowColumns | src/export.rs:342-355 | a CSV edge row splits back into its eight columns, with the sanitised label |
| Export.GraphMLNodeId | src/export.rs:414-417 | a GraphML node element gives back the node's id |
| Export.GraphMLNodeLabel | src/export.rs:414-421 | a GraphML node element gives back the node's label |
| Export.GraphMLEdgeId | src/export.rs:435-440 | a GraphML edge element gives back the edge's id |
| Export.EmbedWithoutBody | src/export.rs:242 | a page without `</body>` loses the script |
| Export.EmbedBeforeBody | src/export.rs:242 | the script goes right before the first `</body>` |
| Export.ExportGraph | src/export.rs:90-98 | fails iff naming, serialising or writing fails, with that error; otherwise reports the first free name, the graph's counts, the format and the size, and content iff not compact |

## Left out

- The language-model HTTP call (`call_ollama`), `async` and the prompt texts. A reply is an `Option<string>` parameter, and a failed call falls back to patterns as in the source.
- JSON decoding and serialisation (`serde_json`). Decoders of reply rows and serialisers of graph parts are parameters; a serialiser's error is passed on as in the source.
- The regex engine. A `Pattern` value gives matches, `is_match` and capture groups. Soundness (every match is a piece of its haystack) is an assumption stated as a precondition where it is used.
- `Uuid::new_v4`. Identifiers are `uuid(k)` for a counter; distinctness is proved for any injective `uuid`.
- `Instant` timing and `chrono` timestamps. The elapsed time and timestamp are parameters.
- `f64`. Confidences, sizes and coordinates are `real`, so rounding is not modelled. Number printing (`{}` and `{:.2}`) is a `Formatter` parameter.
- The cosine and sine of the circular layout. The layout takes a `unit` function of (index, count).
- Unicode. Texts are ASCII, so byte lengths equal character counts and `&context[..100]` cannot split a character.
- File writes, directory creation and the parent-directory check of `validate_export_path`. Their outcomes are a `FileSystem` parameter; existing files are a finite set.
- Path normalisation. `Path::file_name` is modelled for `/`-separated paths, skipping trailing separators and trailing `.` components as `Path::components` does. The directory part of a path is not normalised.
- The HTML page template, the embedded script text and the vis.js options (src/web_interface.rs). They are parameters of the HTML exporter. `include_styling` is unused by the source and stays unused.
- LlmParsing.ParseEntitiesFromLlmResponse, LlmParsing.ParseRelationshipsFromLlmResponse, LlmParsing.ParseConceptsFromLlmResponse and the Extraction stages built on them (ExtractEntitiesWithLlm, ExtractRelationshipsWithLlm, ExtractConceptsWithLlm, ExtractFromText, ExtractWithDeepAnalysis): they slice the reply with the corrected `JsonSlice`. Where the last `]` lies two or more places before the first `[`, the model reports a parse error and falls back to patterns, but the source panics (see Findings).
- LlmParsing.EntitiesParseError, RelationshipsParseError and ConceptsParseError: the messages stop before the `: {error}` tail, because the decoder parameter reports only success or failure. The callers only print these messages before falling back.
- ExtractionTypes.CompilePatterns: a `RegexError` carries the pattern that failed to compile, not the regex library's message, which the compiler parameter does not produce.
- GraphBuilder.DebugChar: `{:?}` escapes every character Rust does not count as printable. The model escapes NUL, the C0 and C1 control characters and delete, and writes all other characters raw. That matches Rust for ASCII text. Other non-printable Unicode characters, whose tables are not modelled, stay raw.
- The "Invalid file stem" error of `create_output_path`. It cannot occur once a file name exists, so no branch models it.
- `println!` progress output.
- src/main.rs, src/toml_extract.rs, src/web_interface.rs and src/lib.rs are not part of this model. Only the default constants of src/config.rs and the variants of src/error.rs are.

## Findings

| source | as written | input that shows it | evidently intended | confidence | as-written member | corrected member |
|---|---|---|---|---|---|---|
| src/entity_extractor.rs:654-656 | the reply is sliced from the first `[` to just after the last `]`, even when the last `]` comes before the first `[` | "] [" (start 2, end 1) | a reply without a usable bracket pair is treated as undecodable, like any other parse failure | not executed | LlmParsing.OutOfOrderBracketsPanic | LlmParsing.JsonSlice |
| src/text_processor.rs:157-159 | phrases are sorted by length and then only adjacent duplicates are dropped, although the comment says duplicates are removed | noun phrases "Alice", "Bobby", "Alice" | every duplicate removed, longer phrases first | not executed | TextProcessor.KeyPhraseDuplicatesSurvive | TextProcessor.ExtractDistinctKeyPhrases |
