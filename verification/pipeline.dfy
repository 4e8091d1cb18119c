/** From text to graph: whatever the extractor yields, the graph built from
    it has no edge whose end lacks a node. */
module Pipeline {
  import opened Config
  import opened ExtractionTypes
  import opened TextProcessor
  import opened LlmParsing
  import opened Extraction
  import opened Graph
  import opened GraphBuilder

  /** Every edge of the graph built from `extract_from_text` runs between
      two of its nodes. */
  lemma FromTextGraphClosed(b: Builder, ex: Extractor, decoder: Decoder, uuid: nat -> string, next: nat,
                            text: ProcessedText, replies: LlmReplies, elapsedMs: nat)
    ensures forall edge :: edge in GraphEdges(b, FromText(ex, decoder, uuid, next, text, replies, elapsedMs)) ==>
      edge.from in NodeIds(GraphNodes(b, FromText(ex, decoder, uuid, next, text, replies, elapsedMs))) &&
      edge.to in NodeIds(GraphNodes(b, FromText(ex, decoder, uuid, next, text, replies, elapsedMs)))
  {
    var result := FromText(ex, decoder, uuid, next, text, replies, elapsedMs);
    FromTextProperties(ex, decoder, uuid, next, text, replies, elapsedMs);
    forall r | r in result.relationships
      ensures Endpoint(result, r.sourceEntityId) && Endpoint(result, r.targetEntityId)
    {
      var k :| 0 <= k < |result.relationships| && result.relationships[k] == r;
      assert Joins(result.relationships[k], result.entities);
    }
    EdgesJoinNodes(b, result);
  }

  /** Every edge of the graph built from a successful
      `extract_with_deep_analysis` runs between two of its nodes, though
      its concept links start at concepts rather than entities. */
  lemma DeepAnalysisGraphClosed(b: Builder, ex: Extractor, decoder: Decoder, uuid: nat -> string, next: nat,
                                text: ProcessedText, replies: LlmReplies, elapsedMs: nat)
    requires ex.config.useLlm
    ensures WithDeepAnalysis(ex, decoder, uuid, next, text, replies, elapsedMs).Ok?
    ensures forall edge :: edge in GraphEdges(b, WithDeepAnalysis(ex, decoder, uuid, next, text, replies, elapsedMs).value) ==>
      edge.from in NodeIds(GraphNodes(b, WithDeepAnalysis(ex, decoder, uuid, next, text, replies, elapsedMs).value)) &&
      edge.to in NodeIds(GraphNodes(b, WithDeepAnalysis(ex, decoder, uuid, next, text, replies, elapsedMs).value))
  {
    DeepAnalysisProperties(ex, decoder, uuid, next, text, replies, elapsedMs);
    var result := WithDeepAnalysis(ex, decoder, uuid, next, text, replies, elapsedMs).value;
    forall r | r in result.relationships
      ensures Endpoint(result, r.sourceEntityId) && Endpoint(result, r.targetEntityId)
    {
      var k :| 0 <= k < |result.relationships| && result.relationships[k] == r;
      assert Anchored(result.relationships[k], result.entities, result.concepts);
    }
    EdgesJoinNodes(b, result);
  }
}
