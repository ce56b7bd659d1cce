/** Content and parts to and from their protos (conversion.go). For each shape there is the
    value stored, the value read back, and the canonical values, which are exactly the ones
    that come back unchanged. */
module Parts {
  import opened Wrappers
  import opened Encoding
  import opened Sanitizing
  import opened Timestamps
  import opened Enums
  import opened Messages

  /** The enum tables a part's conversion consults. */
  datatype PartEnums = PartEnums(language: EnumTable, outcome: EnumTable) {
    ghost predicate Valid() {
      language.Valid() && language.Unambiguous() && outcome.Valid() && outcome.Unambiguous()
    }
  }

  // Function-response parts

  function ResponsePartProto(p: Option<FunctionResponsePart>): PbResponsePart {
    match p
    case None => NoResponseData
    case Some(part) =>
      if part.inlineData.Some? then
        var b := part.inlineData.value;
        ResponseBlob(PbResponseBlob(b.mimeType, Elements(b.data), b.displayName))
      else if part.fileData.Some? then ResponseFile(part.fileData.value)
      else NoResponseData
  }

  function ResponsePartBack(p: PbResponsePart): FunctionResponsePart {
    match p
    case NoResponseData => FunctionResponsePart(None, None)
    case ResponseBlob(b) => FunctionResponsePart(Some(Blob(b.mimeType, SeqOrNil(b.data), b.displayName)), None)
    case ResponseFile(f) => FunctionResponsePart(None, Some(f))
  }

  predicate CanonicalResponsePart(p: Option<FunctionResponsePart>) {
    && p.Some?
    && (p.value.inlineData.None? || p.value.fileData.None?)
    && (p.value.inlineData.Some? ==> NilOrNonEmpty(p.value.inlineData.value.data))
  }

  lemma {:induction false} ResponsePartRound(p: Option<FunctionResponsePart>)
    ensures Some(ResponsePartBack(ResponsePartProto(p))) == p <==> CanonicalResponsePart(p)
    ensures CanonicalResponsePart(Some(ResponsePartBack(ResponsePartProto(p))))
  {
  }

  // Function responses

  function ResponseProto(r: FunctionResponse): Result<PbFunctionResponse> {
    var response :- StoreDict(r.response);
    var parts := Elements(r.parts);
    Ok(PbFunctionResponse(r.id, r.name, response,
                          seq(|parts|, i requires 0 <= i < |parts| => ResponsePartProto(parts[i]))))
  }

  function ResponseBack(r: PbFunctionResponse): FunctionResponse {
    FunctionResponse(r.id, r.name, StructMap(r.response),
                     SeqOrNil(seq(|r.parts|, i requires 0 <= i < |r.parts| => Some(ResponsePartBack(r.parts[i])))))
  }

  predicate CanonicalResponse(r: FunctionResponse) {
    && CanonicalDict(r.response)
    && NilOrNonEmpty(r.parts)
    && forall i | 0 <= i < |Elements(r.parts)| :: CanonicalResponsePart(Elements(r.parts)[i])
  }

  lemma {:induction false} ResponseRound(r: FunctionResponse)
    requires ResponseProto(r).Ok?
    ensures ResponseBack(ResponseProto(r).value) == r <==> CanonicalResponse(r)
    ensures CanonicalResponse(ResponseBack(ResponseProto(r).value))
  {
    StoredDictIsFixed(r.response);
    var parts, back := Elements(r.parts), Elements(ResponseBack(ResponseProto(r).value).parts);
    forall i | 0 <= i < |parts|
      ensures back[i] == parts[i] <==> CanonicalResponsePart(parts[i])
      ensures CanonicalResponsePart(back[i])
    {
      ResponsePartRound(parts[i]);
    }
    if CanonicalResponse(r) {
      assert back == parts;
    }
  }

  // Parts

  /** The first populated data field, in the order the switch tries them. */
  function DataProto(t: PartEnums, p: Part): Result<PbPartData> {
    if p.text != "" then Ok(TextData(p.text))
    else if p.inlineData.Some? then
      var b := p.inlineData.value;
      Ok(InlineData(PbBlob(b.mimeType, Elements(b.data), StringPtr(b.displayName))))
    else if p.fileData.Some? then Ok(FileDataOf(p.fileData.value))
    else if p.functionCall.Some? then
      var c := p.functionCall.value;
      var args :- StoreDict(c.args);
      Ok(FunctionCallOf(PbFunctionCall(c.id, c.name, args)))
    else if p.functionResponse.Some? then
      var r :- ResponseProto(p.functionResponse.value);
      Ok(FunctionResponseOf(r))
    else if p.executableCode.Some? then
      var c := p.executableCode.value;
      Ok(ExecutableCodeOf(PbExecutableCode(c.code, EnumToProto(t.language, c.language))))
    else if p.codeExecutionResult.Some? then
      var r := p.codeExecutionResult.value;
      Ok(CodeExecutionResultOf(PbCodeExecutionResult(EnumToProto(t.outcome, r.outcome), r.output)))
    else Ok(NoData)
  }

  function VideoProto(v: Option<VideoMetadata>): Option<PbVideoMetadata> {
    match v
    case None => None
    case Some(m) => Some(PbVideoMetadata(DurationToProto(m.startOffset), DurationToProto(m.endOffset)))
  }

  function VideoBack(v: Option<PbVideoMetadata>): Option<VideoMetadata> {
    match v
    case None => None
    case Some(m) => Some(VideoMetadata(AsDuration(m.startOffset), AsDuration(m.endOffset)))
  }

  function PartProto(t: PartEnums, p: Option<Part>): Result<PbPart> {
    match p
    case None => Ok(PbPart(false, [], NoData, None))
    case Some(part) =>
      var data :- DataProto(t, part);
      Ok(PbPart(part.thought, Elements(part.thoughtSignature), data, VideoProto(part.videoMetadata)))
  }

  /** A part with no data field set. */
  function EmptyPart(thought: bool, signature: Slice<Byte>, video: Option<VideoMetadata>): Part {
    Part(thought, signature, "", None, None, None, None, None, None, video)
  }

  function WithData(t: PartEnums, out: Part, data: PbPartData): Part {
    match data
    case NoData => out
    case TextData(text) => out.(text := text)
    case InlineData(b) =>
      out.(inlineData := Some(Blob(b.mimeType, SeqOrNil(b.data), StringOf(b.displayName))))
    case FileDataOf(f) => out.(fileData := Some(f))
    case FunctionCallOf(c) => out.(functionCall := Some(FunctionCall(c.id, c.name, StructMap(c.args))))
    case FunctionResponseOf(r) => out.(functionResponse := Some(ResponseBack(r)))
    case ExecutableCodeOf(c) =>
      out.(executableCode := Some(ExecutableCode(c.code, EnumFromProto(t.language, c.language))))
    case CodeExecutionResultOf(r) =>
      out.(codeExecutionResult := Some(CodeExecutionResult(EnumFromProto(t.outcome, r.outcome), r.output)))
  }

  function PartBack(t: PartEnums, p: PbPart): Part {
    WithData(t, EmptyPart(p.thought, SeqOrNil(p.thoughtSignature), VideoBack(p.videoMetadata)), p.data)
  }

  function Count(b: bool): nat {
    if b then 1 else 0
  }

  /** How many data fields of a part are set; a part is expected to carry one. */
  function DataFields(p: Part): nat {
    Count(p.text != "") + Count(p.inlineData.Some?) + Count(p.fileData.Some?) + Count(p.functionCall.Some?)
    + Count(p.functionResponse.Some?) + Count(p.executableCode.Some?) + Count(p.codeExecutionResult.Some?)
  }

  ghost predicate CanonicalData(t: PartEnums, p: Part) {
    && DataFields(p) <= 1
    && (p.inlineData.Some? ==> NilOrNonEmpty(p.inlineData.value.data))
    && (p.functionCall.Some? ==> CanonicalDict(p.functionCall.value.args))
    && (p.functionResponse.Some? ==> CanonicalResponse(p.functionResponse.value))
    && (p.executableCode.Some? ==> KnownShortName(t.language, p.executableCode.value.language))
    && (p.codeExecutionResult.Some? ==> KnownShortName(t.outcome, p.codeExecutionResult.value.outcome))
  }

  ghost predicate CanonicalPart(t: PartEnums, p: Option<Part>) {
    && p.Some?
    && NilOrNonEmpty(p.value.thoughtSignature)
    && CanonicalData(t, p.value)
  }

  /** What a part's data comes back as is canonical. */
  lemma {:induction false} DataBackIsCanonical(t: PartEnums, p: Part, empty: Part)
    requires t.Valid() && DataProto(t, p).Ok?
    requires empty == EmptyPart(empty.thought, empty.thoughtSignature, empty.videoMetadata)
    ensures CanonicalData(t, WithData(t, empty, DataProto(t, p).value))
  {
    hide EnumToProto, EnumFromProto, KnownShortName, StoreDict, StructMap, CanonicalDict, ResponseProto, ResponseBack,
         CanonicalResponse;
    match DataProto(t, p).value
    case FunctionCallOf(_) => StoredDictIsFixed(p.functionCall.value.args);
    case FunctionResponseOf(_) => ResponseRound(p.functionResponse.value);
    case ExecutableCodeOf(_) => EnumIsFixed(t.language, p.executableCode.value.language);
    case CodeExecutionResultOf(_) => EnumIsFixed(t.outcome, p.codeExecutionResult.value.outcome);
    case _ =>
  }

  /** Canonical data comes back unchanged. */
  lemma {:induction false} CanonicalDataIsKept(t: PartEnums, p: Part)
    requires t.Valid() && DataProto(t, p).Ok?
    requires CanonicalData(t, p)
    ensures WithData(t, EmptyPart(p.thought, p.thoughtSignature, p.videoMetadata), DataProto(t, p).value) == p
  {
    hide EnumToProto, EnumFromProto, KnownShortName, StoreDict, StructMap, CanonicalDict, ResponseProto, ResponseBack,
         CanonicalResponse;
    match DataProto(t, p).value
    case FunctionCallOf(_) => StoredDictIsFixed(p.functionCall.value.args);
    case FunctionResponseOf(_) => ResponseRound(p.functionResponse.value);
    case ExecutableCodeOf(_) => EnumIsFixed(t.language, p.executableCode.value.language);
    case CodeExecutionResultOf(_) => EnumIsFixed(t.outcome, p.codeExecutionResult.value.outcome);
    case _ =>
  }

  /** The data is put back without looking at, or touching, the other fields. */
  lemma {:induction false} WithDataKeeps(
      t: PartEnums, thought: bool, a: Slice<Byte>, b: Slice<Byte>, video: Option<VideoMetadata>, data: PbPartData)
    ensures WithData(t, EmptyPart(thought, a, video), data) ==
            WithData(t, EmptyPart(thought, b, video), data).(thoughtSignature := a)
    ensures WithData(t, EmptyPart(thought, a, video), data).thoughtSignature == a
  {
  }

  /** A part comes back unchanged exactly when it is canonical, and what comes back is. */
  lemma {:induction false} PartRound(t: PartEnums, p: Option<Part>)
    requires t.Valid() && PartProto(t, p).Ok?
    ensures Some(PartBack(t, PartProto(t, p).value)) == p <==> CanonicalPart(t, p)
    ensures CanonicalPart(t, Some(PartBack(t, PartProto(t, p).value)))
  {
    hide DataProto, WithData, CanonicalData, DurationToProto, AsDuration;
    if p.None? {
      EmptyIsCanonical(t);
    } else {
      var part := p.value;
      if part.videoMetadata.Some? {
        DurationRoundTrip(part.videoMetadata.value.startOffset);
        DurationRoundTrip(part.videoMetadata.value.endOffset);
      }
      var sig := SeqOrNil(Elements(part.thoughtSignature));
      DataBackIsCanonical(t, part, EmptyPart(part.thought, sig, part.videoMetadata));
      if CanonicalData(t, part) {
        CanonicalDataIsKept(t, part);
      }
      WithDataKeeps(t, part.thought, sig, part.thoughtSignature, part.videoMetadata, DataProto(t, part).value);
    }
  }

  lemma {:induction false} EmptyIsCanonical(t: PartEnums)
    ensures CanonicalData(t, EmptyPart(false, None, None))
    ensures WithData(t, EmptyPart(false, None, None), NoData) == EmptyPart(false, None, None)
  {
  }

  lemma {:induction false} CanonicalPartStores(t: PartEnums, p: Option<Part>)
    requires CanonicalPart(t, p)
    ensures PartProto(t, p).Ok?
  {
    hide StoreDict, CanonicalDict;
    if p.value.functionCall.Some? {
      CanonicalDictStores(p.value.functionCall.value.args);
    }
    if p.value.functionResponse.Some? {
      CanonicalDictStores(p.value.functionResponse.value.response);
    }
  }

  // Content

  function PartsProto(t: PartEnums, parts: seq<Option<Part>>): Result<seq<PbPart>> {
    if forall i | 0 <= i < |parts| :: PartProto(t, parts[i]).Ok?
    then Ok(seq(|parts|, i requires 0 <= i < |parts| => PartProto(t, parts[i]).value))
    else Err(FirstError(t, parts))
  }

  /** The error of the first part that has one. */
  function FirstError(t: PartEnums, parts: seq<Option<Part>>): Status {
    if parts == [] then InvalidArgument
    else if PartProto(t, parts[0]).Err? then PartProto(t, parts[0]).status
    else FirstError(t, parts[1..])
  }

  function PartsBack(t: PartEnums, parts: seq<PbPart>): Slice<Option<Part>> {
    SeqOrNil(seq(|parts|, i requires 0 <= i < |parts| => Some(PartBack(t, parts[i]))))
  }

  function ContentProto(t: PartEnums, c: Option<Content>): Result<Option<PbContent>> {
    match c
    case None => Ok(None)
    case Some(content) =>
      var parts :- PartsProto(t, Elements(content.parts));
      Ok(Some(PbContent(content.role, parts)))
  }

  function ContentBack(t: PartEnums, c: Option<PbContent>): Option<Content> {
    match c
    case None => None
    case Some(content) => Some(Content(content.role, PartsBack(t, content.parts)))
  }

  ghost predicate CanonicalContent(t: PartEnums, c: Option<Content>) {
    c.Some? ==>
      && NilOrNonEmpty(c.value.parts)
      && forall i | 0 <= i < |Elements(c.value.parts)| :: CanonicalPart(t, Elements(c.value.parts)[i])
  }

  lemma {:induction false} ContentRound(t: PartEnums, c: Option<Content>)
    requires t.Valid() && ContentProto(t, c).Ok?
    ensures ContentBack(t, ContentProto(t, c).value) == c <==> CanonicalContent(t, c)
    ensures CanonicalContent(t, ContentBack(t, ContentProto(t, c).value))
  {
    hide PartProto, PartBack, CanonicalPart;
    if c.Some? {
      var parts, back := Elements(c.value.parts), Elements(ContentBack(t, ContentProto(t, c).value).value.parts);
      forall i | 0 <= i < |parts|
        ensures back[i] == parts[i] <==> CanonicalPart(t, parts[i])
        ensures CanonicalPart(t, back[i])
      {
        PartRound(t, parts[i]);
      }
      if CanonicalContent(t, c) {
        assert back == parts;
      }
    }
  }

  lemma {:induction false} CanonicalContentStores(t: PartEnums, c: Option<Content>)
    requires CanonicalContent(t, c)
    ensures ContentProto(t, c).Ok?
  {
    hide PartProto, CanonicalPart;
    if c.Some? {
      forall i | 0 <= i < |Elements(c.value.parts)|
        ensures PartProto(t, Elements(c.value.parts)[i]).Ok?
      {
        CanonicalPartStores(t, Elements(c.value.parts)[i]);
      }
    }
  }

  // Closed forms

  /** What any response part reads back as: its blob if it has one, otherwise its file. */
  lemma {:induction false} ResponsePartReadsBack(p: Option<FunctionResponsePart>)
    ensures var back := ResponsePartBack(ResponsePartProto(p));
            if p.None? then back == FunctionResponsePart(None, None)
            else if p.value.inlineData.None? then back == p.value
            else
              var b := p.value.inlineData.value;
              back == FunctionResponsePart(Some(b.(data := SeqOrNil(Elements(b.data)))), None)
  {
  }

  /** What any function response reads back as. */
  function ResponseReadBack(r: FunctionResponse): FunctionResponse {
    var parts := Elements(r.parts);
    r.(response := DictBack(r.response),
       parts := SeqOrNil(seq(|parts|, i requires 0 <= i < |parts| =>
                           Some(ResponsePartBack(ResponsePartProto(parts[i]))))))
  }

  lemma {:induction false} ResponseReadsBack(r: FunctionResponse)
    requires ResponseProto(r).Ok?
    ensures ResponseBack(ResponseProto(r).value) == ResponseReadBack(r)
  {
    hide StructMap, DictBack, StoreDict, ResponsePartBack, ResponsePartProto;
    StoredDictReadsBack(r.response);
    var left, right := Elements(ResponseBack(ResponseProto(r).value).parts), Elements(ResponseReadBack(r).parts);
    assert |left| == |right| && forall i | 0 <= i < |left| :: left[i] == right[i];
    assert left == right;
  }

  function EnumBack(t: EnumTable, s: string): string {
    EnumFromProto(t, EnumToProto(t, s))
  }

  /** What any part reads back as. Of its data fields only the first survives, in the order text,
      inline data, file, function call, function response, executable code, code result; nothing
      else is lost but the difference of nil and empty. */
  lemma {:induction false} PartReadsBack(t: PartEnums, p: Part)
    requires PartProto(t, Some(p)).Ok?
    ensures var back, none := PartBack(t, PartProto(t, Some(p)).value),
                              Part(p.thought, SeqOrNil(Elements(p.thoughtSignature)), "", None, None, None, None, None,
                                   None, p.videoMetadata);
            back ==
            if p.text != "" then none.(text := p.text)
            else if p.inlineData.Some? then
              var b := p.inlineData.value;
              none.(inlineData := Some(b.(data := SeqOrNil(Elements(b.data)))))
            else if p.fileData.Some? then none.(fileData := p.fileData)
            else if p.functionCall.Some? then
              var c := p.functionCall.value;
              none.(functionCall := Some(c.(args := DictBack(c.args))))
            else if p.functionResponse.Some? then
              none.(functionResponse := Some(ResponseReadBack(p.functionResponse.value)))
            else if p.executableCode.Some? then
              var c := p.executableCode.value;
              none.(executableCode := Some(c.(language := EnumBack(t.language, c.language))))
            else if p.codeExecutionResult.Some? then
              var r := p.codeExecutionResult.value;
              none.(codeExecutionResult := Some(r.(outcome := EnumBack(t.outcome, r.outcome))))
            else none
  {
    hide DurationToProto, AsDuration, StoreDict, StructMap, DictBack, ResponseProto, ResponseBack, ResponseReadBack,
         EnumToProto, EnumFromProto;
    if p.videoMetadata.Some? {
      DurationRoundTrip(p.videoMetadata.value.startOffset);
      DurationRoundTrip(p.videoMetadata.value.endOffset);
    }
    if p.text == "" && p.inlineData.None? && p.fileData.None? {
      if p.functionCall.Some? {
        StoredDictReadsBack(p.functionCall.value.args);
      } else if p.functionResponse.Some? {
        ResponseReadsBack(p.functionResponse.value);
      }
    }
  }

  /** A nil part reads back as an empty one. */
  lemma {:induction false} NilPartReadsBack(t: PartEnums)
    ensures PartProto(t, None).Ok?
    ensures PartBack(t, PartProto(t, None).value) == Part(false, None, "", None, None, None, None, None, None, None)
  {
  }

  /** What any content reads back as: its parts one by one. */
  function ContentReadBack(t: PartEnums, c: Option<Content>): Option<Content> {
    match c
    case None => None
    case Some(x) =>
      var parts := Elements(x.parts);
      Some(x.(parts := SeqOrNil(seq(|parts|, i requires 0 <= i < |parts| => PartReadBack(t, parts[i])))))
  }

  function PartReadBack(t: PartEnums, p: Option<Part>): Option<Part> {
    match PartProto(t, p) case Ok(stored) => Some(PartBack(t, stored)) case Err(_) => None
  }

  lemma {:induction false} ContentReadsBack(t: PartEnums, c: Option<Content>)
    requires ContentProto(t, c).Ok?
    ensures ContentBack(t, ContentProto(t, c).value) == ContentReadBack(t, c)
  {
    hide PartProto, PartBack;
    if c.Some? {
      var left := Elements(ContentBack(t, ContentProto(t, c).value).value.parts);
      var right := Elements(ContentReadBack(t, c).value.parts);
      assert |left| == |right| && forall i | 0 <= i < |left| :: left[i] == right[i];
      assert left == right;
    assert left == right;
    }
  }

  predicate ShowsResponsePart(p: Option<FunctionResponsePart>, stored: PbResponsePart) {
    match stored
    case NoResponseData => p.None? || (p.value.inlineData.None? && p.value.fileData.None?)
    case ResponseFile(f) => p.Some? && p.value.inlineData.None? && p.value.fileData == Some(f)
    case ResponseBlob(b) =>
      && p.Some? && p.value.inlineData.Some? && b.mimeType == p.value.inlineData.value.mimeType
      && b.displayName == p.value.inlineData.value.displayName && b.data == Elements(p.value.inlineData.value.data)
  }

  /** The stored part shows the part's own data under its own names. */
  ghost predicate ShowsPart(p: Part, stored: PbPart) {
    && stored.thought == p.thought && stored.thoughtSignature == Elements(p.thoughtSignature)
    && (p.videoMetadata.None? ==> stored.videoMetadata.None?)
    && (p.videoMetadata.Some? ==>
          && stored.videoMetadata.Some?
          && AsDuration(stored.videoMetadata.value.startOffset) == p.videoMetadata.value.startOffset
          && AsDuration(stored.videoMetadata.value.endOffset) == p.videoMetadata.value.endOffset)
    && match stored.data
       case TextData(text) => text == p.text
       case InlineData(b) =>
         && p.inlineData.Some? && b.mimeType == p.inlineData.value.mimeType
         && StringOf(b.displayName) == p.inlineData.value.displayName && b.data == Elements(p.inlineData.value.data)
       case FileDataOf(f) => p.fileData == Some(f)
       case FunctionCallOf(c) =>
         p.functionCall.Some? && c.id == p.functionCall.value.id && c.name == p.functionCall.value.name
       case FunctionResponseOf(r) =>
         && p.functionResponse.Some?
         && r.id == p.functionResponse.value.id && r.name == p.functionResponse.value.name
         && |r.parts| == |Elements(p.functionResponse.value.parts)|
         && forall i | 0 <= i < |r.parts| :: ShowsResponsePart(Elements(p.functionResponse.value.parts)[i], r.parts[i])
       case ExecutableCodeOf(c) => p.executableCode.Some? && c.code == p.executableCode.value.code
       case CodeExecutionResultOf(r) => p.codeExecutionResult.Some? && r.output == p.codeExecutionResult.value.output
       case NoData => DataFields(p) == 0
  }

  lemma {:induction false} PartShows(t: PartEnums, p: Part)
    requires PartProto(t, Some(p)).Ok?
    ensures ShowsPart(p, PartProto(t, Some(p)).value)
  {
    hide DurationToProto, AsDuration, StoreDict, EnumToProto;
    if p.videoMetadata.Some? {
      DurationRoundTrip(p.videoMetadata.value.startOffset);
      DurationRoundTrip(p.videoMetadata.value.endOffset);
    }
  }

  // The converters as the program runs them

  method PartToProto(t: PartEnums, p: Option<Part>) returns (r: Result<PbPart>)
    ensures r == PartProto(t, p)
    ensures r.Ok? && p.Some? ==> ShowsPart(p.value, r.value)
  {
    hide ShowsPart, StoreDict, ResponsePartProto, EnumToProto, DurationToProto;
    if p.Some? && PartProto(t, p).Ok? {
      PartShows(t, p.value);
    }
    if p.None? {
      return Ok(PbPart(false, [], NoData, None));
    }
    var part := p.value;
    var out := PbPart(part.thought, Elements(part.thoughtSignature), NoData, None);
    if part.text != "" {
      out := out.(data := TextData(part.text));
    } else if part.inlineData.Some? {
      var b := part.inlineData.value;
      out := out.(data := InlineData(PbBlob(b.mimeType, Elements(b.data), StringPtr(b.displayName))));
    } else if part.fileData.Some? {
      out := out.(data := FileDataOf(part.fileData.value));
    } else if part.functionCall.Some? {
      var call := part.functionCall.value;
      var args := StoreMap(call.args);
      if args.Err? {
        return Err(args.status);
      }
      out := out.(data := FunctionCallOf(PbFunctionCall(call.id, call.name, args.value)));
    } else if part.functionResponse.Some? {
      var source := part.functionResponse.value;
      var response := StoreMap(source.response);
      if response.Err? {
        return Err(response.status);
      }
      var fr := PbFunctionResponse(source.id, source.name, response.value, []);
      for i := 0 to |Elements(source.parts)|
        invariant fr == PbFunctionResponse(source.id, source.name, response.value, fr.parts)
        invariant |fr.parts| == i
        invariant forall j | 0 <= j < i :: fr.parts[j] == ResponsePartProto(Elements(source.parts)[j])
      {
        fr := fr.(parts := fr.parts + [ResponsePartProto(Elements(source.parts)[i])]);
      }
      assert fr == ResponseProto(source).value;
      out := out.(data := FunctionResponseOf(fr));
    } else if part.executableCode.Some? {
      var code := part.executableCode.value;
      out := out.(data := ExecutableCodeOf(PbExecutableCode(code.code, EnumToProto(t.language, code.language))));
    } else if part.codeExecutionResult.Some? {
      var result := part.codeExecutionResult.value;
      out := out.(data := CodeExecutionResultOf(
                    PbCodeExecutionResult(EnumToProto(t.outcome, result.outcome), result.output)));
    }
    if part.videoMetadata.Some? {
      out := out.(videoMetadata := VideoProto(part.videoMetadata));
    }
    return Ok(out);
  }

  method ContentToProto(t: PartEnums, c: Option<Content>) returns (r: Result<Option<PbContent>>)
    ensures r == ContentProto(t, c)
    ensures r.Ok? ==> (r.value.Some? <==> c.Some?)
    ensures r.Ok? && c.Some? ==>
              r.value.value.role == c.value.role && |r.value.value.parts| == |Elements(c.value.parts)|
    ensures r.Ok? && c.Some? ==>
              forall i | 0 <= i < |Elements(c.value.parts)| && Elements(c.value.parts)[i].Some? ::
                ShowsPart(Elements(c.value.parts)[i].value, r.value.value.parts[i])
  {
    hide PartProto, ShowsPart;
    if c.None? {
      return Ok(None);
    }
    var parts := Elements(c.value.parts);
    var out := PbContent(c.value.role, []);
    for i := 0 to |parts|
      invariant out.role == c.value.role && |out.parts| == i
      invariant forall j | 0 <= j < i :: PartProto(t, parts[j]) == Ok(out.parts[j])
      invariant forall j | 0 <= j < i && parts[j].Some? :: ShowsPart(parts[j].value, out.parts[j])
    {
      var converted := PartToProto(t, parts[i]);
      if converted.Err? {
        FirstErrorAt(t, parts, i);
        return Err(converted.status);
      }
      out := out.(parts := out.parts + [converted.value]);
    }
    assert out.parts == PartsProto(t, parts).value;
    return Ok(Some(out));
  }

  lemma {:induction false} FirstErrorAt(t: PartEnums, parts: seq<Option<Part>>, n: nat)
    requires n < |parts| && PartProto(t, parts[n]).Err?
    requires forall i | 0 <= i < n :: PartProto(t, parts[i]).Ok?
    ensures FirstError(t, parts) == PartProto(t, parts[n]).status
  {
    hide PartProto;
    if n == 0 {
    } else {
      FirstErrorAt(t, parts[1..], n - 1);
    }
  }

  // Nil pointers

  /** Converting the part dereferences a nil pointer: there is one in the map of its first data
      field. */
  predicate PartHasNilPointer(p: Option<Part>) {
    && p.Some? && p.value.text == "" && p.value.inlineData.None? && p.value.fileData.None?
    && if p.value.functionCall.Some? then DictHasNilPointer(p.value.functionCall.value.args)
       else p.value.functionResponse.Some? && DictHasNilPointer(p.value.functionResponse.value.response)
  }

  /** Converting the part succeeds: the map of its first data field, if there is one, can be
      stored. */
  predicate PartIsStorable(p: Option<Part>) {
    if p.None? || p.value.text != "" || p.value.inlineData.Some? || p.value.fileData.Some? then true
    else if p.value.functionCall.Some? then StorableDict(p.value.functionCall.value.args)
    else p.value.functionResponse.Some? ==> StorableDict(p.value.functionResponse.value.response)
  }

  predicate ContentIsStorable(c: Option<Content>) {
    c.Some? ==> forall i | 0 <= i < |Elements(c.value.parts)| :: PartIsStorable(Elements(c.value.parts)[i])
  }

  /** The first part that cannot be stored is one with a nil pointer. */
  predicate NilPointerStopsParts(parts: seq<Option<Part>>) {
    exists n ::
      && 0 <= n < |parts| && PartHasNilPointer(parts[n])
      && forall i | 0 <= i < n :: PartIsStorable(parts[i])
  }

  predicate NilPointerStopsContent(c: Option<Content>) {
    c.Some? && NilPointerStopsParts(Elements(c.value.parts))
  }

  lemma {:induction false} PartPanics(t: PartEnums, p: Option<Part>)
    ensures PartProto(t, p) == Err(Panicked) <==> PartHasNilPointer(p)
    ensures PartProto(t, p).Ok? <==> PartIsStorable(p)
  {
    if p.Some? && p.value.functionCall.Some? {
      StoreDictEntries(p.value.functionCall.value.args);
    }
    if p.Some? && p.value.functionResponse.Some? {
      StoreDictEntries(p.value.functionResponse.value.response);
    }
  }

  lemma {:induction false} PartsPanic(t: PartEnums, parts: seq<Option<Part>>)
    ensures FirstError(t, parts) == Panicked <==> NilPointerStopsParts(parts)
  {
    hide PartProto, PartHasNilPointer, PartIsStorable;
    if parts == [] {
    } else {
      var rest := parts[1..];
      PartPanics(t, parts[0]);
      PartsPanic(t, rest);
      if PartIsStorable(parts[0]) {
        if NilPointerStopsParts(rest) {
          var n :| 0 <= n < |rest| && PartHasNilPointer(rest[n]) && forall i | 0 <= i < n :: PartIsStorable(rest[i]);
          assert PartHasNilPointer(parts[n + 1]);
          assert forall i | 0 < i < n + 1 :: parts[i] == rest[i - 1];
        }
        if NilPointerStopsParts(parts) {
          var n :| 0 <= n < |parts| && PartHasNilPointer(parts[n]) && forall i | 0 <= i < n :: PartIsStorable(parts[i]);
          assert PartHasNilPointer(rest[n - 1]);
          assert forall i | 0 <= i < n - 1 :: rest[i] == parts[i + 1];
        }
      }
    }
  }

  /** Converting content succeeds exactly when every part can be stored, and panics exactly when
      the first one that cannot has a nil pointer. */
  lemma {:induction false} ContentPanics(t: PartEnums, c: Option<Content>)
    ensures ContentProto(t, c).Ok? <==> ContentIsStorable(c)
    ensures ContentProto(t, c) == Err(Panicked) <==> NilPointerStopsContent(c)
  {
    hide PartProto, PartHasNilPointer, PartIsStorable;
    if c.Some? {
      var parts := Elements(c.value.parts);
      PartsPanic(t, parts);
      forall i | 0 <= i < |parts|
        ensures PartProto(t, parts[i]).Ok? <==> PartIsStorable(parts[i])
        ensures PartHasNilPointer(parts[i]) ==> !PartIsStorable(parts[i])
      {
        PartPanics(t, parts[i]);
      }
    }
  }

  method ContentFromProto(t: PartEnums, c: Option<PbContent>) returns (r: Option<Content>)
    ensures r == ContentBack(t, c)
  {
    hide PartBack;
    if c.None? {
      return None;
    }
    var parts: Slice<Option<Part>> := None;
    for i := 0 to |c.value.parts|
      invariant |Elements(parts)| == i && NilOrNonEmpty(parts)
      invariant forall j | 0 <= j < i :: Elements(parts)[j] == Some(PartBack(t, c.value.parts[j]))
    {
      parts := Some(Elements(parts) + [Some(PartBack(t, c.value.parts[i]))]);
    }
    assert Elements(parts) == Elements(PartsBack(t, c.value.parts));
    return Some(Content(c.value.role, parts));
  }
}
