/** Whole events to and from their protos (event_conversion.go): what a stored event reads back
    as, which events come back unchanged, and what a second trip does. */
module Events {
  import opened Wrappers
  import opened Values
  import opened Sanitizing
  import opened Timestamps
  import opened Enums
  import opened Messages
  import opened Parts
  import opened ScopedState

  datatype EventEnums = EventEnums(finishReason: EnumTable, parts: PartEnums) {
    ghost predicate Valid() {
      finishReason.Valid() && finishReason.Unambiguous() && parts.Valid()
    }
  }

  // State deltas

  function DeltaProto(d: GoDict): Result<Option<Struct>> {
    StoreDict(TrimTempDict(d))
  }

  ghost predicate CanonicalDelta(d: GoDict) {
    CanonicalDict(d) && NoTemp(Entries(d))
  }

  lemma {:induction false} DeltaRound(d: GoDict)
    requires DeltaProto(d).Ok?
    ensures StructMap(DeltaProto(d).value) == d <==> CanonicalDelta(d)
    ensures CanonicalDelta(StructMap(DeltaProto(d).value))
  {
    StoredDictIsFixed(TrimTempDict(d));
    StoreDictEntries(TrimTempDict(d));
  }

  lemma {:induction false} CanonicalDeltaStores(d: GoDict)
    requires CanonicalDelta(d)
    ensures DeltaProto(d).Ok?
  {
    CanonicalDictStores(d);
  }

  // Tool confirmations

  type Confirmations = map<string, ToolConfirmation>

  /** The entries of the confirmation map, nil or not. */
  function ConfirmationsOf(m: Option<Confirmations>): Confirmations {
    match m case None => map[] case Some(x) => x
  }

  function ConfirmationsProto(m: Confirmations): Result<map<string, PbToolConfirmation>> {
    if forall id | id in m :: StorePayload(m[id].payload).Ok?
    then Ok(map id | id in m ::
              PbToolConfirmation(m[id].hint, m[id].confirmed, StorePayload(m[id].payload).value))
    else if PayloadHasNilPointer(m) then Err(Panicked)
    else Err(InvalidArgument)
  }

  predicate PayloadHasNilPointer(m: Confirmations) {
    exists id :: id in m && HasNilPointer(m[id].payload)
  }

  /** One payload panics and another is refused: which of them a conversion meets first depends
      on the order in which it ranges over the map. */
  predicate MixedErrors(m: Confirmations) {
    PayloadHasNilPointer(m) && exists id :: id in m && StorePayload(m[id].payload) == Err(InvalidArgument)
  }

  /** What a conversion answers: what is specified, except that with mixed errors it can be the
      other one. */
  predicate Answers<T(==)>(r: Result<T>, specified: Result<T>, m: Confirmations) {
    r == specified || (specified.Err? && MixedErrors(m) && (r == Err(InvalidArgument) || r == Err(Panicked)))
  }

  function ConfirmationsBack(m: map<string, PbToolConfirmation>): Option<Confirmations> {
    if m == map[] then None
    else Some(map id | id in m :: ToolConfirmation(m[id].hint, m[id].confirmed, ValueToAny(m[id].payload)))
  }

  predicate CanonicalConfirmations(m: Option<Confirmations>) {
    m.Some? ==>
      && m.value != map[]
      && forall id | id in m.value :: Plain(m.value[id].payload) && NoEmptyMaps(m.value[id].payload)
  }

  predicate NoForeignEmptyPayload(m: Confirmations) {
    forall id | id in m :: NoForeignEmptyObject(m[id].payload)
  }

  lemma {:induction false} ConfirmationsRound(m: Option<Confirmations>)
    requires ConfirmationsProto(ConfirmationsOf(m)).Ok?
    ensures ConfirmationsBack(ConfirmationsProto(ConfirmationsOf(m)).value) == m <==> CanonicalConfirmations(m)
  {
    hide StorePayload, ValueToAny, Plain, NoEmptyMaps;
    var all := ConfirmationsOf(m);
    var back := ConfirmationsOf(ConfirmationsBack(ConfirmationsProto(all).value));
    assert back.Keys == all.Keys;
    forall id | id in all
      ensures back[id] == all[id] <==> Plain(all[id].payload) && NoEmptyMaps(all[id].payload)
    {
      PayloadIsFixed(all[id].payload);
    }
    if CanonicalConfirmations(m) {
      assert back == all;
    }
  }

  lemma {:induction false} ConfirmationsIdempotence(m: Confirmations)
    requires ConfirmationsProto(m).Ok?
    ensures var once := ConfirmationsBack(ConfirmationsProto(m).value);
            && ConfirmationsProto(ConfirmationsOf(once)).Ok?
            && (ConfirmationsBack(ConfirmationsProto(ConfirmationsOf(once)).value) == once <==>
                  NoForeignEmptyPayload(m))
  {
    hide StorePayload, ValueToAny, NoForeignEmptyObject;
    var once := ConfirmationsOf(ConfirmationsBack(ConfirmationsProto(m).value));
    assert once.Keys == m.Keys;
    forall id | id in m
      ensures StorePayload(once[id].payload).Ok?
      ensures ValueToAny(StorePayload(once[id].payload).value) == once[id].payload <==>
              NoForeignEmptyObject(m[id].payload)
    {
      PayloadIdempotence(m[id].payload);
    }
    var twice := ConfirmationsOf(ConfirmationsBack(ConfirmationsProto(once).value));
    assert twice.Keys == m.Keys;
    if NoForeignEmptyPayload(m) {
      assert twice == once;
    }
  }

  // Compaction records

  function RefsProto(refs: seq<EventRef>): seq<PbEventRef> {
    seq(|refs|, i requires 0 <= i < |refs| => PbEventRef(refs[i].invocationId, TimestampOrNil(refs[i].timestamp)))
  }

  function RefsBack(refs: seq<PbEventRef>): seq<EventRef> {
    seq(|refs|, i requires 0 <= i < |refs| => EventRef(refs[i].invocationId, TimeFromProto(refs[i].timestamp)))
  }

  function CompactionProto(t: PartEnums, c: Option<EventCompaction>): Result<Option<PbCompaction>> {
    match c
    case None => Ok(None)
    case Some(x) =>
      var content :- ContentProto(t, x.compactedContent);
      Ok(Some(PbCompaction(TimestampOrNil(x.startTimestamp), TimestampOrNil(x.endTimestamp), content,
                           RefsProto(Elements(x.excludedEvents)))))
  }

  function CompactionBack(t: PartEnums, c: Option<PbCompaction>): Option<EventCompaction> {
    match c
    case None => None
    case Some(x) =>
      Some(EventCompaction(TimeFromProto(x.startTimestamp), TimeFromProto(x.endTimestamp),
                           ContentBack(t, x.compactedContent), SeqOrNil(RefsBack(x.excludedEvents))))
  }

  ghost predicate CanonicalCompaction(t: PartEnums, c: Option<EventCompaction>) {
    c.Some? ==> CanonicalContent(t, c.value.compactedContent) && NilOrNonEmpty(c.value.excludedEvents)
  }

  /** In particular every timestamp of a compaction record, and of each hole in it, comes back
      to the nanosecond. */
  lemma {:induction false} CompactionRound(t: PartEnums, c: Option<EventCompaction>)
    requires t.Valid() && CompactionProto(t, c).Ok?
    ensures CompactionBack(t, CompactionProto(t, c).value) == c <==> CanonicalCompaction(t, c)
    ensures CanonicalCompaction(t, CompactionBack(t, CompactionProto(t, c).value))
  {
    hide ContentProto, ContentBack, CanonicalContent, TimestampOrNil, TimeFromProto;
    if c.Some? {
      InstantRoundTrip(c.value.startTimestamp);
      InstantRoundTrip(c.value.endTimestamp);
      ContentRound(t, c.value.compactedContent);
      RefsRound(Elements(c.value.excludedEvents));
    }
  }

  lemma {:induction false} RefsRound(refs: seq<EventRef>)
    ensures RefsBack(RefsProto(refs)) == refs
  {
    forall i | 0 <= i < |refs|
      ensures RefsBack(RefsProto(refs))[i] == refs[i]
    {
      InstantRoundTrip(refs[i].timestamp);
    }
  }

  // Actions

  function ActionsProto(t: PartEnums, a: EventActions): Result<PbActions> {
    var delta :- DeltaProto(a.stateDelta);
    var confirmations :- ConfirmationsProto(ConfirmationsOf(a.requestedToolConfirmations));
    var compaction :- CompactionProto(t, a.compaction);
    Ok(PbActions(delta, ArtifactsOf(a.artifactDelta), confirmations, a.skipSummarization, a.transferToAgent,
                 a.escalate, compaction))
  }

  function ArtifactsOf(m: Option<map<string, int>>): map<string, int> {
    match m case None => map[] case Some(x) => x
  }

  function ActionsBack(t: PartEnums, a: PbActions): EventActions {
    EventActions(StructMap(a.stateDelta), if a.artifactDelta == map[] then None else Some(a.artifactDelta),
                 ConfirmationsBack(a.requestedToolConfirmations), a.skipSummarization, a.transferAgent,
                 a.escalate, CompactionBack(t, a.compaction))
  }

  ghost predicate CanonicalActions(t: PartEnums, a: EventActions) {
    && CanonicalDelta(a.stateDelta)
    && (a.artifactDelta.Some? ==> a.artifactDelta.value != map[])
    && CanonicalConfirmations(a.requestedToolConfirmations)
    && CanonicalCompaction(t, a.compaction)
  }

  lemma {:induction false} ActionsRound(t: PartEnums, a: EventActions)
    requires t.Valid() && ActionsProto(t, a).Ok?
    ensures ActionsBack(t, ActionsProto(t, a).value) == a <==> CanonicalActions(t, a)
  {
    hide DeltaProto, StructMap, CanonicalDelta, ConfirmationsProto, ConfirmationsBack, CanonicalConfirmations,
         CompactionProto, CompactionBack, CanonicalCompaction;
    DeltaRound(a.stateDelta);
    ConfirmationsRound(a.requestedToolConfirmations);
    CompactionRound(t, a.compaction);
  }

  lemma {:induction false} ActionsIdempotence(t: PartEnums, a: EventActions)
    requires t.Valid() && ActionsProto(t, a).Ok?
    ensures var once := ActionsBack(t, ActionsProto(t, a).value);
            && ActionsProto(t, once).Ok?
            && (ActionsBack(t, ActionsProto(t, once).value) == once <==>
                  NoForeignEmptyPayload(ConfirmationsOf(a.requestedToolConfirmations)))
  {
    hide DeltaProto, StructMap, CanonicalDelta, ConfirmationsProto, ConfirmationsBack, NoForeignEmptyPayload,
         CompactionProto, CompactionBack, CanonicalCompaction;
    var once := ActionsBack(t, ActionsProto(t, a).value);
    DeltaRound(a.stateDelta);
    CanonicalDeltaStores(once.stateDelta);
    DeltaRound(once.stateDelta);
    ConfirmationsIdempotence(ConfirmationsOf(a.requestedToolConfirmations));
    CompactionRound(t, a.compaction);
    CanonicalCompactionStores(t, once.compaction);
    CompactionRound(t, once.compaction);
  }

  lemma {:induction false} CanonicalCompactionStores(t: PartEnums, c: Option<EventCompaction>)
    requires CanonicalCompaction(t, c)
    ensures CompactionProto(t, c).Ok?
  {
    hide ContentProto, CanonicalContent;
    if c.Some? {
      CanonicalContentStores(t, c.value.compactedContent);
    }
  }

  // Nil pointers

  predicate PayloadsStore(m: Confirmations) {
    forall id | id in m :: StorePayload(m[id].payload).Ok?
  }

  function CompactedContent(a: EventActions): Option<Content> {
    match a.compaction case None => None case Some(c) => c.compactedContent
  }

  /** What is converted before the content and the metadata of the event can be stored. */
  predicate ActionsAreStorable(a: EventActions) {
    && StorableDict(TrimTempDict(a.stateDelta))
    && PayloadsStore(ConfirmationsOf(a.requestedToolConfirmations))
    && ContentIsStorable(CompactedContent(a))
  }

  /** The delta, the payloads and the compacted content are converted in this order, and the first
      of them that cannot be stored has a nil pointer where it is met first. */
  predicate NilPointerStopsActions(a: EventActions) {
    if !StorableDict(TrimTempDict(a.stateDelta)) then DictHasNilPointer(TrimTempDict(a.stateDelta))
    else if !PayloadsStore(ConfirmationsOf(a.requestedToolConfirmations)) then
      PayloadHasNilPointer(ConfirmationsOf(a.requestedToolConfirmations))
    else NilPointerStopsContent(CompactedContent(a))
  }

  /** After the actions come the content and the custom metadata. */
  predicate NilPointerStops(e: Event) {
    if !ActionsAreStorable(e.actions) then NilPointerStopsActions(e.actions)
    else if !ContentIsStorable(e.content) then NilPointerStopsContent(e.content)
    else DictHasNilPointer(e.customMetadata)
  }

  lemma {:induction false} ConfirmationsPanic(m: Confirmations)
    ensures ConfirmationsProto(m) == Err(Panicked) <==> PayloadHasNilPointer(m)
  {
    hide HasNilPointer, StorePayload;
    forall id | id in m
      ensures HasNilPointer(m[id].payload) ==> StorePayload(m[id].payload).Err?
    {
      PayloadErrors(m[id].payload);
    }
  }

  lemma {:induction false} DictPanics(d: GoDict)
    ensures StoreDict(d) == Err(Panicked) <==> DictHasNilPointer(d)
    ensures StoreDict(d).Ok? <==> StorableDict(d)
  {
    StoreDictEntries(d);
  }

  lemma {:induction false} ActionsPanic(t: PartEnums, a: EventActions)
    ensures ActionsProto(t, a).Ok? <==> ActionsAreStorable(a)
    ensures ActionsProto(t, a) == Err(Panicked) <==> NilPointerStopsActions(a)
  {
    hide StoreDict, StorableDict, DictHasNilPointer, PayloadHasNilPointer, ContentProto, ContentIsStorable,
         NilPointerStopsContent, TrimTempDict, ConfirmationsOf, StorePayload;
    DictPanics(TrimTempDict(a.stateDelta));
    ConfirmationsPanic(ConfirmationsOf(a.requestedToolConfirmations));
    ContentPanics(t, CompactedContent(a));
    if PayloadHasNilPointer(ConfirmationsOf(a.requestedToolConfirmations)) {
      NilPayloadFails(ConfirmationsOf(a.requestedToolConfirmations));
    }
    if a.compaction.None? {
      NothingToStore();
    }
  }

  lemma {:induction false} NilPayloadFails(m: Confirmations)
    requires PayloadHasNilPointer(m)
    ensures !PayloadsStore(m)
  {
  }

  lemma {:induction false} NothingToStore()
    ensures ContentIsStorable(None) && !NilPointerStopsContent(None)
  {
  }

  /** A conversion panics exactly when the first thing it cannot store is stopped by a nil
      pointer. */
  lemma {:induction false} NilPointersPanic(t: EventEnums, key: SessionKey, e: Event)
    ensures EventProto(t, key, e) == Err(Panicked) <==> NilPointerStops(e)
  {
    hide StoreDict, StorableDict, DictHasNilPointer, ActionsProto, ActionsAreStorable, NilPointerStopsActions,
         ContentProto, ContentIsStorable, NilPointerStopsContent, JsonValue;
    ActionsPanic(t.parts, e.actions);
    ContentPanics(t.parts, e.content);
    DictPanics(e.customMetadata);
    JsonErrors(e.output);
    if e.requestedInput.Some? {
      JsonErrors(e.requestedInput.value.payload);
    }
  }

  lemma {:induction false} JsonErrors(v: GoValue)
    ensures JsonValue(v).Err? ==> JsonValue(v) == Err(InvalidArgument)
  {
  }

  // Requested input and node info

  function RequestInputProto(r: Option<RequestInput>): Result<Option<PbRequestInput>> {
    match r
    case None => Ok(None)
    case Some(x) =>
      var payload :- JsonValue(x.payload);
      Ok(Some(PbRequestInput(x.interruptId, x.message, payload)))
  }

  function RequestInputBack(r: Option<PbRequestInput>): Option<RequestInput> {
    match r
    case None => None
    case Some(x) => Some(RequestInput(x.interruptId, x.message, ValueToAny(x.payload)))
  }

  predicate CanonicalRequestInput(r: Option<RequestInput>) {
    r.Some? ==> Plain(r.value.payload)
  }

  lemma {:induction false} RequestInputRound(r: Option<RequestInput>)
    requires RequestInputProto(r).Ok?
    ensures var once := RequestInputBack(RequestInputProto(r).value);
            && (once == r <==> CanonicalRequestInput(r))
            && RequestInputProto(once).Ok?
            && RequestInputBack(RequestInputProto(once).value) == once
  {
    hide JsonValue, ValueToAny, Plain;
    if r.Some? {
      JsonIsFixed(r.value.payload);
    }
  }

  function NodeInfoProto(n: Option<NodeInfo>): Option<PbNodeInfo> {
    match n case None => None case Some(x) => Some(PbNodeInfo(x.path, x.messageAsOutput, Elements(x.outputFor)))
  }

  function NodeInfoBack(n: Option<PbNodeInfo>): Option<NodeInfo> {
    match n case None => None case Some(x) => Some(NodeInfo(x.path, x.messageAsOutput, SeqOrNil(x.outputFor)))
  }

  // Events

  /** eventToProto, for a session with the given key. */
  function EventProto(t: EventEnums, key: SessionKey, e: Event): Result<PbEvent> {
    var actions :- ActionsProto(t.parts, e.actions);
    var content :- ContentProto(t.parts, e.content);
    var customMetadata :- StoreDict(e.customMetadata);
    var requestedInput :- RequestInputProto(e.requestedInput);
    var output :- JsonValue(e.output);
    Ok(PbEvent(e.id, key.sessionId, key.appName, key.userId, TimestampOrNil(e.timestamp), Some(actions),
               PbEventBody(e.invocationId, e.author, StringPtr(e.branch), StringPtr(e.isolationScope),
                           Elements(e.longRunningToolIds), Elements(e.routes), requestedInput, output,
                           NodeInfoProto(e.nodeInfo), content, customMetadata, StringPtr(e.modelVersion),
                           Some(e.partial), Some(e.turnComplete), Some(e.interrupted), StringPtr(e.errorCode),
                           StringPtr(e.errorMessage), EnumToProto(t.finishReason, e.finishReason),
                           Float64Ptr(e.avgLogprobs))))
  }

  const NO_ACTIONS := PbActions(None, map[], map[], false, "", false, None)

  /** protoToEvent. */
  function EventBack(t: EventEnums, p: PbEvent): Event {
    var b := p.body;
    var actions := match p.actions case None => NO_ACTIONS case Some(a) => a;
    Event(p.id, TimeFromProto(p.timestamp), b.invocationId, b.author, StringOf(b.branch),
          StringOf(b.isolationScope), ActionsBack(t.parts, actions), SeqOrNil(b.longRunningToolIds),
          SeqOrNil(b.routes), RequestInputBack(b.requestedInput), ValueToAny(b.output), NodeInfoBack(b.nodeInfo),
          ContentBack(t.parts, b.content), StructMap(b.customMetadata), StringOf(b.modelVersion),
          BoolOf(b.partial), BoolOf(b.turnComplete), BoolOf(b.interrupted), StringOf(b.errorCode),
          StringOf(b.errorMessage), EnumFromProto(t.finishReason, b.finishReason), FloatOf(b.avgLogprobs))
  }

  /** An event as ADK would build it anew: nothing the store folds into a simpler shape. */
  ghost predicate CanonicalEvent(t: EventEnums, e: Event) {
    && CanonicalActions(t.parts, e.actions)
    && CanonicalContent(t.parts, e.content)
    && CanonicalDict(e.customMetadata)
    && CanonicalRequestInput(e.requestedInput)
    && Plain(e.output)
    && (e.nodeInfo.Some? ==> NilOrNonEmpty(e.nodeInfo.value.outputFor))
    && NilOrNonEmpty(e.longRunningToolIds)
    && NilOrNonEmpty(e.routes)
    && KnownShortName(t.finishReason, e.finishReason)
  }

  /** A stored event reads back as itself exactly when it is canonical. */
  lemma {:induction false} EventRoundTrip(t: EventEnums, key: SessionKey, e: Event)
    requires t.Valid() && EventProto(t, key, e).Ok?
    ensures EventBack(t, EventProto(t, key, e).value) == e <==> CanonicalEvent(t, e)
  {
    hide ActionsProto, ActionsBack, CanonicalActions, ContentProto, ContentBack, CanonicalContent, StoreDict,
         StructMap, CanonicalDict, RequestInputProto, RequestInputBack, CanonicalRequestInput, JsonValue, ValueToAny,
         Plain, TimestampOrNil, TimeFromProto, EnumToProto, EnumFromProto, KnownShortName;
    ActionsRound(t.parts, e.actions);
    ContentRound(t.parts, e.content);
    StoredDictIsFixed(e.customMetadata);
    RequestInputRound(e.requestedInput);
    JsonIsFixed(e.output);
    InstantRoundTrip(e.timestamp);
    EnumIsFixed(t.finishReason, e.finishReason);
  }

  /** What was read back can always be stored again, and then reads back as the same event
      exactly when no tool-confirmation payload held a foreign Go value whose JSON has an empty
      object in it: that object reads back as an empty map, which the next trip stores as null. */
  lemma {:induction false} SecondTrip(t: EventEnums, key: SessionKey, e: Event)
    requires t.Valid() && EventProto(t, key, e).Ok?
    ensures var once := EventBack(t, EventProto(t, key, e).value);
            && EventProto(t, key, once).Ok?
            && (EventBack(t, EventProto(t, key, once).value) == once <==>
                  NoForeignEmptyPayload(ConfirmationsOf(e.actions.requestedToolConfirmations)))
  {
    hide ActionsProto, ActionsBack, NoForeignEmptyPayload, ContentProto, ContentBack, CanonicalContent, StoreDict,
         StructMap, CanonicalDict, RequestInputProto, RequestInputBack, CanonicalRequestInput, JsonValue, ValueToAny,
         Plain, TimestampOrNil, TimeFromProto, EnumToProto, EnumFromProto, KnownShortName;
    var once := EventBack(t, EventProto(t, key, e).value);
    ActionsIdempotence(t.parts, e.actions);
    ContentRound(t.parts, e.content);
    CanonicalContentStores(t.parts, once.content);
    ContentRound(t.parts, once.content);
    StoredDictIsFixed(e.customMetadata);
    CanonicalDictStores(once.customMetadata);
    StoredDictIsFixed(once.customMetadata);
    RequestInputRound(e.requestedInput);
    JsonIsFixed(e.output);
    InstantRoundTrip(e.timestamp);
    EnumIsFixed(t.finishReason, e.finishReason);
    EnumIsFixed(t.finishReason, once.finishReason);
  }

  /** An event whose confirmation carries a foreign value that marshals to {}: it reads back
      with an empty map, and after another trip with nothing. */
  lemma {:induction false} ForeignEmptyPayloadDrifts(t: EventEnums, key: SessionKey, e: Event, id: string)
    requires t.Valid() && EventProto(t, key, e).Ok?
    requires e.actions.requestedToolConfirmations ==
             Some(map[id := ToolConfirmation("", false, GoOther(Some(StructValue(map[]))))])
    ensures var once := EventBack(t, EventProto(t, key, e).value);
            EventProto(t, key, once).Ok? && EventBack(t, EventProto(t, key, once).value) != once
  {
    hide EventProto, EventBack;
    SecondTrip(t, key, e);
    assert !NoForeignEmptyPayload(ConfirmationsOf(e.actions.requestedToolConfirmations)) by {
      assert id in ConfirmationsOf(e.actions.requestedToolConfirmations);
      assert !NoForeignEmptyObject(GoOther(Some(StructValue(map[]))));
    }
  }

  // Closed forms

  function ConfirmationsReadBack(m: Confirmations): Option<Confirmations> {
    if m == map[] then None else Some(map id | id in m :: m[id].(payload := PayloadBack(m[id].payload)))
  }

  lemma {:induction false} ConfirmationsReadBackAs(m: Confirmations)
    requires ConfirmationsProto(m).Ok?
    ensures ConfirmationsBack(ConfirmationsProto(m).value) == ConfirmationsReadBack(m)
  {
    hide StorePayload, ValueToAny;
    var left := ConfirmationsOf(ConfirmationsBack(ConfirmationsProto(m).value));
    var right := ConfirmationsOf(ConfirmationsReadBack(m));
    assert left.Keys == m.Keys && right.Keys == m.Keys;
    forall id | id in m
      ensures left[id] == right[id]
    {
      PayloadBackIs(m[id].payload);
    }
    assert left == right;
  }

  lemma {:induction false} PayloadBackIs(v: GoValue)
    requires StorePayload(v).Ok?
    ensures PayloadBack(v) == ValueToAny(StorePayload(v).value)
  {
  }

  function CompactionReadBack(t: PartEnums, c: Option<EventCompaction>): Option<EventCompaction> {
    match c
    case None => None
    case Some(x) =>
      Some(x.(compactedContent := ContentReadBack(t, x.compactedContent),
              excludedEvents := SeqOrNil(Elements(x.excludedEvents))))
  }

  lemma {:induction false} CompactionReadsBack(t: PartEnums, c: Option<EventCompaction>)
    requires CompactionProto(t, c).Ok?
    ensures CompactionBack(t, CompactionProto(t, c).value) == CompactionReadBack(t, c)
  {
    hide ContentProto, ContentBack, ContentReadBack, TimestampOrNil, TimeFromProto, RefsProto, RefsBack;
    if c.Some? {
      InstantRoundTrip(c.value.startTimestamp);
      InstantRoundTrip(c.value.endTimestamp);
      ContentReadsBack(t, c.value.compactedContent);
      RefsRound(Elements(c.value.excludedEvents));
    }
  }

  function ActionsReadBack(t: PartEnums, a: EventActions): EventActions {
    a.(stateDelta := DictBack(TrimTempDict(a.stateDelta)),
       artifactDelta := if ArtifactsOf(a.artifactDelta) == map[] then None else a.artifactDelta,
       requestedToolConfirmations := ConfirmationsReadBack(ConfirmationsOf(a.requestedToolConfirmations)),
       compaction := CompactionReadBack(t, a.compaction))
  }

  lemma {:induction false} ActionsReadsBack(t: PartEnums, a: EventActions)
    requires ActionsProto(t, a).Ok?
    ensures ActionsBack(t, ActionsProto(t, a).value) == ActionsReadBack(t, a)
  {
    hide StoreDict, StructMap, DictBack, TrimTempDict, ConfirmationsProto, ConfirmationsBack, ConfirmationsReadBack,
         CompactionProto, CompactionBack, CompactionReadBack;
    StoredDictReadsBack(TrimTempDict(a.stateDelta));
    ConfirmationsReadBackAs(ConfirmationsOf(a.requestedToolConfirmations));
    CompactionReadsBack(t, a.compaction);
  }

  /** What a value stored as JSON reads back as. */
  function JsonBack(v: GoValue): GoValue {
    match JsonValue(v) case Ok(w) => ValueToAny(w) case Err(_) => GoNil
  }

  /** What any event reads back as. Only what is named here can differ from the event: empty
      collections become nil, maps and payloads read back value by value, the delta loses its
      "temp:" keys, parts keep one data field each, and enums their known short names. */
  lemma {:induction false} EventReadsBack(t: EventEnums, key: SessionKey, e: Event)
    requires EventProto(t, key, e).Ok?
    ensures EventBack(t, EventProto(t, key, e).value) ==
            e.(actions := ActionsReadBack(t.parts, e.actions),
               longRunningToolIds := SeqOrNil(Elements(e.longRunningToolIds)),
               routes := SeqOrNil(Elements(e.routes)),
               requestedInput :=
                 match e.requestedInput
                 case None => None
                 case Some(r) => Some(r.(payload := JsonBack(r.payload))),
               output := JsonBack(e.output),
               nodeInfo :=
                 match e.nodeInfo
                 case None => None
                 case Some(n) => Some(n.(outputFor := SeqOrNil(Elements(n.outputFor)))),
               content := ContentReadBack(t.parts, e.content),
               customMetadata := DictBack(e.customMetadata),
               finishReason := EnumBack(t.finishReason, e.finishReason))
  {
    hide ActionsProto, ActionsBack, ActionsReadBack, ContentProto, ContentBack, ContentReadBack, StoreDict, StructMap,
         DictBack, JsonValue, ValueToAny, TimestampOrNil, TimeFromProto, EnumToProto, EnumFromProto;
    ActionsReadsBack(t.parts, e.actions);
    ContentReadsBack(t.parts, e.content);
    StoredDictReadsBack(e.customMetadata);
    InstantRoundTrip(e.timestamp);
  }

  /** How any stored event is read, whoever stored it: what it does not say reads as zero, and
      without actions it has empty ones. */
  lemma {:induction false} StoredEventReads(t: EventEnums, p: PbEvent)
    ensures var e, b := EventBack(t, p), p.body;
            && e.id == p.id && e.invocationId == b.invocationId && e.author == b.author
            && e.timestamp == (if p.timestamp.None? then ZERO_INSTANT else AsTime(p.timestamp.value))
            && e.branch == (if b.branch.None? then "" else b.branch.value)
            && e.isolationScope == (if b.isolationScope.None? then "" else b.isolationScope.value)
            && e.modelVersion == (if b.modelVersion.None? then "" else b.modelVersion.value)
            && e.errorCode == (if b.errorCode.None? then "" else b.errorCode.value)
            && e.errorMessage == (if b.errorMessage.None? then "" else b.errorMessage.value)
            && (e.partial <==> b.partial == Some(true))
            && (e.turnComplete <==> b.turnComplete == Some(true))
            && (e.interrupted <==> b.interrupted == Some(true))
            && e.avgLogprobs == (if b.avgLogprobs.None? then Finite(0.0) else b.avgLogprobs.value)
            && (e.content.None? <==> b.content.None?) && (e.nodeInfo.None? <==> b.nodeInfo.None?)
            && (e.requestedInput.None? <==> b.requestedInput.None?)
            && Elements(e.longRunningToolIds) == b.longRunningToolIds && Elements(e.routes) == b.routes
            && (p.actions.None? ==> e.actions == EventActions(NilDict, None, None, false, "", false, None))
            && (p.actions.Some? ==> ReadsActions(e.actions, p.actions.value))
  {
    hide PartsBack, StructMap, ValueToAny, EnumFromProto, CompactionBack, ActionsBack, ReadsActions;
    if p.actions.Some? {
      ActionsRead(t.parts, p.actions.value);
    } else {
      NothingReads(t.parts);
    }
  }

  lemma {:induction false} NothingReads(t: PartEnums)
    ensures ActionsBack(t, NO_ACTIONS) == EventActions(NilDict, None, None, false, "", false, None)
  {
  }

  ghost predicate ReadsActions(a: EventActions, p: PbActions) {
    && Entries(a.stateDelta).Keys == (if p.stateDelta.None? then {} else p.stateDelta.value.Keys)
    && ArtifactsOf(a.artifactDelta) == p.artifactDelta
    && ConfirmationsOf(a.requestedToolConfirmations).Keys == p.requestedToolConfirmations.Keys
    && (forall id | id in p.requestedToolConfirmations ::
          && ConfirmationsOf(a.requestedToolConfirmations)[id].hint == p.requestedToolConfirmations[id].hint
          && ConfirmationsOf(a.requestedToolConfirmations)[id].confirmed == p.requestedToolConfirmations[id].confirmed)
    && a.skipSummarization == p.skipSummarization && a.transferToAgent == p.transferAgent && a.escalate == p.escalate
    && (a.compaction.None? <==> p.compaction.None?)
  }

  lemma {:induction false} ActionsRead(t: PartEnums, p: PbActions)
    ensures ReadsActions(ActionsBack(t, p), p)
  {
    hide ContentBack, ValueToAny, AsInterface;
    if p.stateDelta.Some? {
      assert AsMap(p.stateDelta.value).Keys == p.stateDelta.value.Keys;
    }
  }

  // What the stored protos show under their own names

  ghost predicate ShowsCompaction(c: EventCompaction, p: PbCompaction) {
    && TimeFromProto(p.startTimestamp) == c.startTimestamp && TimeFromProto(p.endTimestamp) == c.endTimestamp
    && (p.compactedContent.None? <==> c.compactedContent.None?)
    && |p.excludedEvents| == |Elements(c.excludedEvents)|
    && forall i | 0 <= i < |p.excludedEvents| ::
         && p.excludedEvents[i].invocationId == Elements(c.excludedEvents)[i].invocationId
         && TimeFromProto(p.excludedEvents[i].timestamp) == Elements(c.excludedEvents)[i].timestamp
  }

  ghost predicate ShowsDelta(d: GoDict, p: Option<Struct>) {
    && p != Some(map[])
    && forall k: string :: k in (if p.None? then map[] else p.value) <==> k in Entries(d) && !("temp:" <= k)
  }

  ghost predicate ShowsConfirmations(m: Confirmations, p: map<string, PbToolConfirmation>) {
    && p.Keys == m.Keys
    && forall id | id in p :: p[id].hint == m[id].hint && p[id].confirmed == m[id].confirmed
  }

  ghost predicate ShowsActions(a: EventActions, p: PbActions) {
    && ShowsDelta(a.stateDelta, p.stateDelta)
    && p.artifactDelta == ArtifactsOf(a.artifactDelta)
    && ShowsConfirmations(ConfirmationsOf(a.requestedToolConfirmations), p.requestedToolConfirmations)
    && p.skipSummarization == a.skipSummarization && p.transferAgent == a.transferToAgent && p.escalate == a.escalate
    && (p.compaction.None? <==> a.compaction.None?)
    && (a.compaction.Some? ==> ShowsCompaction(a.compaction.value, p.compaction.value))
  }

  ghost predicate ShowsEvent(key: SessionKey, e: Event, p: PbEvent) {
    var b := p.body;
    && p.id == e.id && p.sessionId == key.sessionId && p.appName == key.appName && p.userId == key.userId
    && TimeFromProto(p.timestamp) == e.timestamp
    && b.invocationId == e.invocationId && b.author == e.author
    && StringOf(b.branch) == e.branch && StringOf(b.isolationScope) == e.isolationScope
    && StringOf(b.modelVersion) == e.modelVersion
    && StringOf(b.errorCode) == e.errorCode && StringOf(b.errorMessage) == e.errorMessage
    && b.branch != Some("") && b.isolationScope != Some("") && b.modelVersion != Some("")
    && b.errorCode != Some("") && b.errorMessage != Some("") && b.avgLogprobs != Some(Finite(0.0))
    && (b.output.None? <==> e.output == GoNil) && (b.customMetadata.None? <==> Entries(e.customMetadata) == map[])
    && b.partial == Some(e.partial) && b.turnComplete == Some(e.turnComplete) && b.interrupted == Some(e.interrupted)
    && b.longRunningToolIds == Elements(e.longRunningToolIds) && b.routes == Elements(e.routes)
    && FloatOf(b.avgLogprobs) == e.avgLogprobs
    && (b.content.None? <==> e.content.None?)
    && (b.requestedInput.None? <==> e.requestedInput.None?)
    && (e.requestedInput.Some? ==>
          && b.requestedInput.value.interruptId == e.requestedInput.value.interruptId
          && b.requestedInput.value.message == e.requestedInput.value.message
          && (b.requestedInput.value.payload.None? <==> e.requestedInput.value.payload == GoNil))
    && (b.nodeInfo.None? <==> e.nodeInfo.None?)
    && (e.nodeInfo.Some? ==>
          && b.nodeInfo.value.path == e.nodeInfo.value.path
          && b.nodeInfo.value.messageAsOutput == e.nodeInfo.value.messageAsOutput
          && b.nodeInfo.value.outputFor == Elements(e.nodeInfo.value.outputFor))
    && p.actions.Some? && ShowsActions(e.actions, p.actions.value)
  }

  lemma {:induction false} CompactionShows(t: PartEnums, c: EventCompaction)
    requires CompactionProto(t, Some(c)).Ok?
    ensures CompactionProto(t, Some(c)).value.Some? && ShowsCompaction(c, CompactionProto(t, Some(c)).value.value)
  {
    hide TimestampOrNil, TimeFromProto, PartsProto;
    InstantRoundTrip(c.startTimestamp);
    InstantRoundTrip(c.endTimestamp);
    forall i | 0 <= i < |Elements(c.excludedEvents)|
      ensures TimeFromProto(TimestampOrNil(Elements(c.excludedEvents)[i].timestamp)) ==
              Elements(c.excludedEvents)[i].timestamp
    {
      InstantRoundTrip(Elements(c.excludedEvents)[i].timestamp);
    }
  }

  lemma {:induction false} ActionsShow(t: PartEnums, a: EventActions)
    requires ActionsProto(t, a).Ok?
    ensures ShowsActions(a, ActionsProto(t, a).value)
  {
    hide DeltaProto, ConfirmationsProto, CompactionProto, ShowsDelta, ShowsConfirmations, ShowsCompaction;
    DeltaShows(a.stateDelta);
    ConfirmationsShow(ConfirmationsOf(a.requestedToolConfirmations));
    if a.compaction.None? {
      NoCompaction(t);
    } else {
      CompactionShows(t, a.compaction.value);
      assert a.compaction == Some(a.compaction.value);
    }
  }

  lemma {:induction false} ConfirmationsShow(m: Confirmations)
    requires ConfirmationsProto(m).Ok?
    ensures ShowsConfirmations(m, ConfirmationsProto(m).value)
  {
    hide StorePayload;
  }

  lemma {:induction false} DeltaShows(d: GoDict)
    requires DeltaProto(d).Ok?
    ensures ShowsDelta(d, DeltaProto(d).value)
  {
    hide StoreDict;
    StoreDictEntries(TrimTempDict(d));
    assert Entries(TrimTempDict(d)) == TrimTemp(Entries(d));
  }

  lemma {:induction false} NoCompaction(t: PartEnums)
    ensures CompactionProto(t, None) == Ok(None)
  {
  }

  lemma {:induction false} StringStays(s: string)
    ensures StringOf(StringPtr(s)) == s && StringPtr(s) != Some("")
  {
  }

  lemma {:induction false} EventShows(t: EventEnums, key: SessionKey, e: Event)
    requires EventProto(t, key, e).Ok?
    ensures ShowsEvent(key, e, EventProto(t, key, e).value)
  {
    hide ActionsProto, ContentProto, StoreDict, JsonValue, TimestampOrNil, TimeFromProto, EnumToProto, ShowsActions,
         StringPtr, StringOf, Elements, RequestInputProto;
    ActionsShow(t.parts, e.actions);
    InstantRoundTrip(e.timestamp);
    StringStays(e.branch);
    StringStays(e.isolationScope);
    StringStays(e.modelVersion);
    StringStays(e.errorCode);
    StringStays(e.errorMessage);
    StoreDictEntries(e.customMetadata);
    JsonIsNone(e.output);
    InputShows(e.requestedInput);
    ContentStays(t.parts, e.content);
  }

  lemma {:induction false} InputShows(r: Option<RequestInput>)
    requires RequestInputProto(r).Ok?
    ensures var p := RequestInputProto(r).value;
            && (p.None? <==> r.None?)
            && (r.Some? ==>
                  && p.value.interruptId == r.value.interruptId && p.value.message == r.value.message
                  && (p.value.payload.None? <==> r.value.payload == GoNil))
  {
    hide Json;
  }

  lemma {:induction false} JsonIsNone(v: GoValue)
    requires JsonValue(v).Ok?
    ensures JsonValue(v).value.None? <==> v == GoNil
  {
  }

  lemma {:induction false} ContentStays(t: PartEnums, c: Option<Content>)
    requires ContentProto(t, c).Ok?
    ensures ContentProto(t, c).value.None? <==> c.None?
  {
  }

  // The converters as the program runs them

  method ActionsToProto(t: PartEnums, a: EventActions) returns (r: Result<PbActions>)
    ensures Answers(r, ActionsProto(t, a), ConfirmationsOf(a.requestedToolConfirmations))
    ensures r.Ok? ==> ShowsActions(a, r.value)
  {
    hide StorePayload, ContentProto, CompactionProto, StoreDict, TrimTempDict, HasNilPointer, ShowsActions;
    if ActionsProto(t, a).Ok? {
      ActionsShow(t, a);
    }
    var trimmed := TrimTempKeys(a.stateDelta);
    var stateDelta := StoreMap(trimmed);
    if stateDelta.Err? {
      return Err(stateDelta.status);
    }
    var all := ConfirmationsOf(a.requestedToolConfirmations);
    var confirmations: map<string, PbToolConfirmation> := map[];
    var pending := all.Keys;
    while pending != {}
      invariant pending <= all.Keys && confirmations.Keys == all.Keys - pending
      invariant forall id | id in confirmations ::
          && StorePayload(all[id].payload).Ok?
          && confirmations[id] == PbToolConfirmation(all[id].hint, all[id].confirmed,
            StorePayload(all[id].payload).value)
    {
      var id :| id in pending;
      var payload := PayloadToProto(all[id].payload);
      if payload.Err? {
        PayloadErrors(all[id].payload);
        return Err(payload.status);
      }
      confirmations := confirmations[id := PbToolConfirmation(all[id].hint, all[id].confirmed, payload.value)];
      pending := pending - {id};
    }
    assert confirmations == ConfirmationsProto(all).value;
    var compaction := CompactionToProto(t, a.compaction);
    if compaction.Err? {
      return Err(compaction.status);
    }
    return Ok(PbActions(stateDelta.value, ArtifactsOf(a.artifactDelta), confirmations, a.skipSummarization,
                        a.transferToAgent, a.escalate, compaction.value));
  }

  method PayloadToProto(v: GoValue) returns (r: Result<Option<Value>>)
    ensures r == StorePayload(v)
  {
    var clean := SanitizeValue(v);
    return if clean.Err? then Err(clean.status) else JsonValue(clean.value);
  }

  lemma {:induction false} PayloadErrors(v: GoValue)
    ensures StorePayload(v).Err? ==> StorePayload(v).status == if HasNilPointer(v) then Panicked else InvalidArgument
    ensures HasNilPointer(v) ==> StorePayload(v).Err?
  {
  }

  method CompactionToProto(t: PartEnums, c: Option<EventCompaction>) returns (r: Result<Option<PbCompaction>>)
    ensures r == CompactionProto(t, c)
    ensures r.Ok? ==> (r.value.None? <==> c.None?) && (c.Some? ==> ShowsCompaction(c.value, r.value.value))
  {
    hide ContentProto, ShowsCompaction;
    if CompactionProto(t, c).Ok? && c.Some? {
      CompactionShows(t, c.value);
    }
    if c.None? {
      return Ok(None);
    }
    var content := ContentToProto(t, c.value.compactedContent);
    if content.Err? {
      return Err(content.status);
    }
    var refs := Elements(c.value.excludedEvents);
    var out: seq<PbEventRef> := [];
    for i := 0 to |refs|
      invariant out == RefsProto(refs)[..i]
    {
      out := out + [PbEventRef(refs[i].invocationId, TimestampOrNil(refs[i].timestamp))];
    }
    assert out == RefsProto(refs);
    return Ok(Some(PbCompaction(TimestampOrNil(c.value.startTimestamp), TimestampOrNil(c.value.endTimestamp),
                                content.value, out)));
  }

  method CompactionFromProto(t: PartEnums, c: Option<PbCompaction>) returns (r: Option<EventCompaction>)
    ensures r == CompactionBack(t, c)
  {
    hide ContentBack;
    if c.None? {
      return None;
    }
    var content := ContentFromProto(t, c.value.compactedContent);
    var refs := c.value.excludedEvents;
    var out: Slice<EventRef> := None;
    for i := 0 to |refs|
      invariant Elements(out) == RefsBack(refs)[..i] && NilOrNonEmpty(out)
    {
      out := Some(Elements(out) + [EventRef(refs[i].invocationId, TimeFromProto(refs[i].timestamp))]);
    }
    assert Elements(out) == RefsBack(refs);
    return Some(EventCompaction(TimeFromProto(c.value.startTimestamp), TimeFromProto(c.value.endTimestamp),
                                content, out));
  }

  method ActionsFromProto(t: PartEnums, a: PbActions) returns (r: EventActions)
    ensures r == ActionsBack(t, a)
  {
    hide CompactionBack, ValueToAny, StructMap;
    var compaction := CompactionFromProto(t, a.compaction);
    r := EventActions(StructMap(a.stateDelta), None, None, a.skipSummarization, a.transferAgent, a.escalate,
                      compaction);
    if a.artifactDelta != map[] {
      r := r.(artifactDelta := Some(a.artifactDelta));
    }
    var all := a.requestedToolConfirmations;
    var confirmations: Option<Confirmations> := None;
    var pending := all.Keys;
    while pending != {}
      invariant pending <= all.Keys && ConfirmationsOf(confirmations).Keys == all.Keys - pending
      invariant confirmations.Some? ==> confirmations.value != map[]
      invariant forall id | id in ConfirmationsOf(confirmations) ::
          ConfirmationsOf(confirmations)[id] == ToolConfirmation(all[id].hint, all[id].confirmed,
            ValueToAny(all[id].payload))
    {
      var id :| id in pending;
      var x := ToolConfirmation(all[id].hint, all[id].confirmed, ValueToAny(all[id].payload));
      confirmations := Some(ConfirmationsOf(confirmations)[id := x]);
      assert id in confirmations.value;
      pending := pending - {id};
    }
    assert ConfirmationsOf(confirmations) == ConfirmationsOf(ConfirmationsBack(all));
    r := r.(requestedToolConfirmations := confirmations);
  }

  method EventToProto(t: EventEnums, key: SessionKey, e: Event) returns (r: Result<PbEvent>)
    ensures Answers(r, EventProto(t, key, e), ConfirmationsOf(e.actions.requestedToolConfirmations))
    ensures r.Ok? ==> ShowsEvent(key, e, r.value)
  {
    hide ActionsProto, ContentProto, RequestInputProto, StoreDict, JsonValue, EnumToProto, MixedErrors, ShowsEvent;
    if EventProto(t, key, e).Ok? {
      EventShows(t, key, e);
    }
    var actions := ActionsToProto(t.parts, e.actions);
    if actions.Err? {
      return Err(actions.status);
    }
    var content := ContentToProto(t.parts, e.content);
    if content.Err? {
      return Err(content.status);
    }
    var customMetadata := StoreMap(e.customMetadata);
    if customMetadata.Err? {
      return Err(customMetadata.status);
    }
    var requestedInput := RequestInputProto(e.requestedInput);
    if requestedInput.Err? {
      return Err(requestedInput.status);
    }
    var output := JsonValue(e.output);
    if output.Err? {
      return Err(output.status);
    }
    return Ok(PbEvent(
                e.id, key.sessionId, key.appName, key.userId, TimestampOrNil(e.timestamp), Some(actions.value),
                PbEventBody(e.invocationId, e.author, StringPtr(e.branch), StringPtr(e.isolationScope),
                            Elements(e.longRunningToolIds), Elements(e.routes), requestedInput.value, output.value,
                            NodeInfoProto(e.nodeInfo), content.value, customMetadata.value, StringPtr(e.modelVersion),
                            Some(e.partial), Some(e.turnComplete), Some(e.interrupted), StringPtr(e.errorCode),
                            StringPtr(e.errorMessage), EnumToProto(t.finishReason, e.finishReason),
                            Float64Ptr(e.avgLogprobs))));
  }
}
