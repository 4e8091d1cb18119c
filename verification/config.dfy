/** Configuration records and their default values, and the error type shared
    by every stage of the pipeline. */
module Config {
  import opened Strings

  datatype NodeColors = NodeColors(entity: string, relationship: string, concept: string, attribute: string)

  datatype NodeShapes = NodeShapes(entity: string, relationship: string, concept: string, attribute: string)

  datatype LayoutConfig = LayoutConfig(algorithm: string, spacing: real, hierarchical: bool)

  datatype PhysicsConfig = PhysicsConfig(
    enabled: bool, stabilization: bool, repulsion: real, springLength: real, springConstant: real)

  datatype ExtractionConfig = ExtractionConfig(
    useLlm: bool,
    llmModel: string,
    llmEndpoint: string,
    entityPatterns: seq<string>,
    relationshipPatterns: seq<string>,
    conceptPatterns: seq<string>)

  /** Stop-word settings; no stage of the pipeline reads them. */
  datatype TextProcessingConfig = TextProcessingConfig(
    removeStopwords: bool,
    stopwordsFile: Option<string>,
    customStopwords: Option<seq<string>>)

  datatype GraphConfig = GraphConfig(
    nodeColors: NodeColors,
    nodeShapes: NodeShapes,
    layout: LayoutConfig,
    physics: PhysicsConfig,
    extraction: ExtractionConfig,
    textProcessing: TextProcessingConfig)

  const DefaultExtractionConfig: ExtractionConfig := ExtractionConfig(
    false,
    "llama3.2",
    "http://localhost:11434/api/generate",
    ["\\b[A-Z][a-z]+(?:\\s+[A-Z][a-z]+)*\\b",
     "\\b(?:person|people|individual|user|customer|client)\\b"],
    ["\\b(?:has|have|is|are|was|were|contains|includes|owns|belongs)\\b",
     "\\b(?:connected to|related to|associated with|linked to)\\b"],
    ["\\b(?:concept|idea|principle|theory|method|approach|strategy)\\b",
     "\\b(?:system|process|workflow|procedure|protocol)\\b"])

  const DefaultGraphConfig: GraphConfig := GraphConfig(
    NodeColors("#FF6B6B", "#4ECDC4", "#45B7D1", "#FFA07A"),
    NodeShapes("ellipse", "box", "circle", "diamond"),
    LayoutConfig("hierarchical", 200.0, true),
    PhysicsConfig(true, true, 200.0, 150.0, 0.04),
    DefaultExtractionConfig,
    DefaultTextProcessingConfig)

  const DefaultTextProcessingConfig: TextProcessingConfig := TextProcessingConfig(true, None, None)

  /** `GraphError`; the variants wrapping a library error keep only its
      message. */
  datatype GraphError =
    | TextProcessing(msg: string)
    | EntityExtraction(msg: string)
    | GraphBuilding(msg: string)
    | Export(msg: string)
    | WebInterface(msg: string)
    | Configuration(msg: string)
    | Io(msg: string)
    | Json(msg: string)
    | RegexError(msg: string)
    | Http(msg: string)

  datatype Result<+T> = Ok(value: T) | Err(error: GraphError)
}
