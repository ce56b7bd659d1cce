/** The two shapes of an event: ADK's Go structs, where nil and empty differ, and the stored
    proto, where an absent list, map or string is the empty one. Grounding, usage, citation and
    log-probability metadata and response schemas are not part of this model. */
module Messages {
  import opened Wrappers
  import opened Encoding
  import opened Values
  import opened Timestamps

  /** A Go slice: nil, or a list that may be empty. */
  type Slice<T> = Option<seq<T>>

  // The ADK side

  datatype Blob = Blob(mimeType: string, data: Slice<Byte>, displayName: string)

  /** The same three strings on both sides. */
  datatype FileData = FileData(mimeType: string, fileUri: string, displayName: string)

  datatype FunctionCall = FunctionCall(id: string, name: string, args: GoDict)

  datatype FunctionResponsePart = FunctionResponsePart(inlineData: Option<Blob>, fileData: Option<FileData>)

  datatype FunctionResponse = FunctionResponse(
    id: string, name: string, response: GoDict, parts: Slice<Option<FunctionResponsePart>>)

  datatype ExecutableCode = ExecutableCode(code: string, language: string)

  datatype CodeExecutionResult = CodeExecutionResult(outcome: string, output: string)

  datatype VideoMetadata = VideoMetadata(startOffset: int, endOffset: int)

  datatype Part = Part(
    thought: bool,
    thoughtSignature: Slice<Byte>,
    text: string,
    inlineData: Option<Blob>,
    fileData: Option<FileData>,
    functionCall: Option<FunctionCall>,
    functionResponse: Option<FunctionResponse>,
    executableCode: Option<ExecutableCode>,
    codeExecutionResult: Option<CodeExecutionResult>,
    videoMetadata: Option<VideoMetadata>)

  /** Parts are pointers and may be nil. */
  datatype Content = Content(role: string, parts: Slice<Option<Part>>)

  datatype EventRef = EventRef(invocationId: string, timestamp: Instant)

  datatype EventCompaction = EventCompaction(
    startTimestamp: Instant, endTimestamp: Instant,
    compactedContent: Option<Content>, excludedEvents: Slice<EventRef>)

  datatype ToolConfirmation = ToolConfirmation(hint: string, confirmed: bool, payload: GoValue)

  datatype EventActions = EventActions(
    stateDelta: GoDict,
    artifactDelta: Option<map<string, int>>,
    requestedToolConfirmations: Option<map<string, ToolConfirmation>>,
    skipSummarization: bool,
    transferToAgent: string,
    escalate: bool,
    compaction: Option<EventCompaction>)

  datatype RequestInput = RequestInput(interruptId: string, message: string, payload: GoValue)

  datatype NodeInfo = NodeInfo(path: string, messageAsOutput: bool, outputFor: Slice<string>)

  datatype Event = Event(
    id: string,
    timestamp: Instant,
    invocationId: string,
    author: string,
    branch: string,
    isolationScope: string,
    actions: EventActions,
    longRunningToolIds: Slice<string>,
    routes: Slice<string>,
    requestedInput: Option<RequestInput>,
    output: GoValue,
    nodeInfo: Option<NodeInfo>,
    content: Option<Content>,
    customMetadata: GoDict,
    modelVersion: string,
    partial: bool,
    turnComplete: bool,
    interrupted: bool,
    errorCode: string,
    errorMessage: string,
    finishReason: string,
    avgLogprobs: Float)

  /** The primary key of a session row. */
  datatype SessionKey = SessionKey(sessionId: string, appName: string, userId: string)

  // The stored side

  datatype PbBlob = PbBlob(mimeType: string, data: seq<Byte>, displayName: Option<string>)

  datatype PbFunctionCall = PbFunctionCall(id: string, name: string, args: Option<Struct>)

  datatype PbResponseBlob = PbResponseBlob(mimeType: string, data: seq<Byte>, displayName: string)

  /** The oneof of a function-response part. */
  datatype PbResponsePart = NoResponseData | ResponseBlob(blob: PbResponseBlob) | ResponseFile(file: FileData)

  datatype PbFunctionResponse = PbFunctionResponse(
    id: string, name: string, response: Option<Struct>, parts: seq<PbResponsePart>)

  datatype PbExecutableCode = PbExecutableCode(code: string, language: int)

  datatype PbCodeExecutionResult = PbCodeExecutionResult(outcome: int, output: string)

  datatype PbVideoMetadata = PbVideoMetadata(startOffset: Option<Duration>, endOffset: Option<Duration>)

  /** The data oneof of a part. */
  datatype PbPartData =
    | NoData
    | TextData(text: string)
    | InlineData(blob: PbBlob)
    | FileDataOf(file: FileData)
    | FunctionCallOf(call: PbFunctionCall)
    | FunctionResponseOf(response: PbFunctionResponse)
    | ExecutableCodeOf(code: PbExecutableCode)
    | CodeExecutionResultOf(result: PbCodeExecutionResult)

  datatype PbPart = PbPart(
    thought: bool, thoughtSignature: seq<Byte>, data: PbPartData, videoMetadata: Option<PbVideoMetadata>)

  datatype PbContent = PbContent(role: string, parts: seq<PbPart>)

  datatype PbEventRef = PbEventRef(invocationId: string, timestamp: Option<Timestamp>)

  datatype PbCompaction = PbCompaction(
    startTimestamp: Option<Timestamp>, endTimestamp: Option<Timestamp>,
    compactedContent: Option<PbContent>, excludedEvents: seq<PbEventRef>)

  datatype PbToolConfirmation = PbToolConfirmation(hint: string, confirmed: bool, payload: Option<Value>)

  datatype PbActions = PbActions(
    stateDelta: Option<Struct>,
    artifactDelta: map<string, int>,
    requestedToolConfirmations: map<string, PbToolConfirmation>,
    skipSummarization: bool,
    transferAgent: string,
    escalate: bool,
    compaction: Option<PbCompaction>)

  datatype PbRequestInput = PbRequestInput(interruptId: string, message: string, payload: Option<Value>)

  datatype PbNodeInfo = PbNodeInfo(path: string, messageAsOutput: bool, outputFor: seq<string>)

  /** The fields of a stored event the store itself never looks at. */
  datatype PbEventBody = PbEventBody(
    invocationId: string,
    author: string,
    branch: Option<string>,
    isolationScope: Option<string>,
    longRunningToolIds: seq<string>,
    routes: seq<string>,
    requestedInput: Option<PbRequestInput>,
    output: Option<Value>,
    nodeInfo: Option<PbNodeInfo>,
    content: Option<PbContent>,
    customMetadata: Option<Struct>,
    modelVersion: Option<string>,
    partial: Option<bool>,
    turnComplete: Option<bool>,
    interrupted: Option<bool>,
    errorCode: Option<string>,
    errorMessage: Option<string>,
    finishReason: int,
    avgLogprobs: Option<Float>)

  /** pb.SessionEvent. */
  datatype PbEvent = PbEvent(
    id: string,
    sessionId: string,
    appName: string,
    userId: string,
    timestamp: Option<Timestamp>,
    actions: Option<PbActions>,
    body: PbEventBody)

  // Nil and empty

  /** bytesOrNil, cloneOrNil, and the way a loop that appends to a nil slice ends up. */
  function SeqOrNil<T>(s: seq<T>): Slice<T> {
    if s == [] then None else Some(s)
  }

  /** The elements a Go range loop sees. */
  function Elements<T>(s: Slice<T>): seq<T> {
    match s case None => [] case Some(x) => x
  }

  predicate NilOrNonEmpty<T(==)>(s: Slice<T>) {
    s.Some? ==> s.value != []
  }

  /** stringPtr. */
  function StringPtr(s: string): Option<string> {
    if s == "" then None else Some(s)
  }

  /** A proto getter of an optional string. */
  function StringOf(s: Option<string>): string {
    match s case None => "" case Some(x) => x
  }

  function BoolOf(b: Option<bool>): bool {
    match b case None => false case Some(x) => x
  }

  /** float64Ptr: zero is stored as absent. */
  function Float64Ptr(f: Float): Option<Float> {
    if f == Finite(0.0) then None else Some(f)
  }

  function FloatOf(f: Option<Float>): Float {
    match f case None => Finite(0.0) case Some(x) => x
  }
}
