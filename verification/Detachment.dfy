/** The objects behind a recorded event (copyEvent and copyCompaction in adk_service.go): which of
    them the record owns, which it shares with the caller, and exactly which later writes show in
    it. */
module Detachment {
  import opened Wrappers
  import opened Encoding
  import opened Values
  import opened Timestamps
  import opened Messages

  // Go's reference types. Nil is null.

  /** A map; also a struct behind a pointer, held as its fields by name. */
  class MapObject<V> {
    var entries: map<string, V>

    constructor (entries: map<string, V>)
      ensures this.entries == entries
    {
      this.entries := entries;
    }
  }

  /** A value of type any: one without references, or a reference. */
  datatype HeapValue = Leaf(v: GoValue) | To(ref: Ref)

  /** What a shared field or a nested value can refer to. */
  datatype Ref =
    | MapRef(m: MapObject<HeapValue>)
    | ListRef(items: array<HeapValue>)
    | BytesRef(bytes: array<Byte>)
    | ContentRef(content: ContentObject)
    | SlotsRef(slots: array<PartObject?>)
    | PartRef(part: PartObject)

  /** The fields of a part: scalars, a byte slice, and pointers to the payloads. */
  datatype PartFields = PartFields(
    thought: bool,
    text: string,
    thoughtSignature: array?<Byte>,
    inlineData: MapObject?<HeapValue>,
    fileData: MapObject?<HeapValue>,
    functionCall: MapObject?<HeapValue>,
    functionResponse: MapObject?<HeapValue>,
    executableCode: MapObject?<HeapValue>,
    codeExecutionResult: MapObject?<HeapValue>,
    videoMetadata: MapObject?<HeapValue>)

  class PartObject {
    var fields: PartFields

    constructor (fields: PartFields)
      ensures this.fields == fields
    {
      this.fields := fields;
    }
  }

  // What objects hold, down to the pointers that are shared

  datatype ContentValue = ContentValue(role: string, parts: Slice<Option<PartFields>>)

  datatype CompactionValue = CompactionValue(
    startTimestamp: Instant, endTimestamp: Instant, content: Option<ContentValue>, excluded: Slice<EventRef>)

  /** The fields that copyEvent leaves as they are: scalars, and pointers it shares. */
  datatype PlainFields = PlainFields(
    id: string, timestamp: Instant, invocationId: string, author: string, branch: string, isolationScope: string,
    skipSummarization: bool, transferToAgent: string, escalate: bool, modelVersion: string, partial: bool,
    turnComplete: bool, interrupted: bool, errorCode: string, errorMessage: string, finishReason: string,
    avgLogprobs: Float, content: ContentObject?, customMetadata: MapObject?<HeapValue>,
    requestedInput: MapObject?<HeapValue>, output: HeapValue, nodeInfo: MapObject?<HeapValue>)

  /** A tool confirmation, which is held by value. */
  datatype Confirmation = Confirmation(hint: string, confirmed: bool, payload: HeapValue)

  datatype EventValue = EventValue(
    plain: PlainFields, stateDelta: Option<map<string, HeapValue>>, artifactDelta: Option<map<string, int>>,
    confirmations: Option<map<string, Confirmation>>, compaction: Option<CompactionValue>,
    longRunningToolIds: Slice<string>, routes: Slice<string>)

  function SliceOf<T>(a: array?<T>): Slice<T>
    reads a
  {
    if a == null then None else Some(a[..])
  }

  function MapOf<V>(m: MapObject?<V>): Option<map<string, V>>
    reads m
  {
    if m == null then None else Some(m.entries)
  }

  /** An object, if there is one. */
  ghost function Only(o: object?): set<object> {
    if o == null then {} else {o}
  }

  function EntriesOf(m: Option<map<string, HeapValue>>): map<string, HeapValue> {
    match m case None => map[] case Some(entries) => entries
  }

  class ContentObject {
    var role: string
    var parts: array?<PartObject?>

    constructor (role: string, parts: array?<PartObject?>)
      ensures this.role == role && this.parts == parts
    {
      this.role, this.parts := role, parts;
    }

    ghost function Footprint(): set<object>
      reads this, parts
    {
      {this} + Only(parts)
      + if parts == null then {} else set i | 0 <= i < parts.Length && parts[i] != null :: parts[i] as object
    }

    ghost function Value(): ContentValue
      reads this, parts, Footprint()
    {
      ContentValue(role, if parts == null then None else Some(PartValues(parts[..])))
    }
  }

  /** The parts that pointers lead to; a nil part stays nil. */
  ghost function PartValues(ps: seq<PartObject?>): seq<Option<PartFields>>
    reads set i | 0 <= i < |ps| :: ps[i]
  {
    seq(|ps|, i requires 0 <= i < |ps| reads set j | 0 <= j < |ps| :: ps[j] =>
      if ps[i] == null then None else Some(ps[i].fields))
  }

  class CompactionObject {
    var startTimestamp: Instant
    var endTimestamp: Instant
    var content: ContentObject?
    var excluded: array?<EventRef>

    constructor (startTimestamp: Instant, endTimestamp: Instant, content: ContentObject?, excluded: array?<EventRef>)
      ensures this.startTimestamp == startTimestamp && this.endTimestamp == endTimestamp
      ensures this.content == content && this.excluded == excluded
    {
      this.startTimestamp, this.endTimestamp := startTimestamp, endTimestamp;
      this.content, this.excluded := content, excluded;
    }

    ghost function Footprint(): set<object>
      reads this, content, if content == null then {} else content.Footprint()
    {
      {this} + Only(excluded) + if content == null then {} else content.Footprint()
    }

    ghost function Value(): CompactionValue
      reads this, content, Footprint()
    {
      CompactionValue(startTimestamp, endTimestamp,
                      if content == null then None else Some(content.Value()), SliceOf(excluded))
    }
  }

  ghost function CompactionReads(c: CompactionObject?): set<object>
    reads c, if c == null then {} else {c.content}, if c == null || c.content == null then {} else c.content.Footprint()
  {
    if c == null then {} else c.Footprint()
  }

  class EventObject {
    var plain: PlainFields
    var stateDelta: MapObject?<HeapValue>
    var artifactDelta: MapObject?<int>
    var confirmations: MapObject?<Confirmation>
    var compaction: CompactionObject?
    var longRunningToolIds: array?<string>
    var routes: array?<string>

    constructor (plain: PlainFields, stateDelta: MapObject?<HeapValue>, artifactDelta: MapObject?<int>,
                 confirmations: MapObject?<Confirmation>, compaction: CompactionObject?,
                 longRunningToolIds: array?<string>, routes: array?<string>)
      ensures this.plain == plain && this.stateDelta == stateDelta && this.artifactDelta == artifactDelta
      ensures this.confirmations == confirmations && this.compaction == compaction
      ensures this.longRunningToolIds == longRunningToolIds && this.routes == routes
    {
      this.plain, this.stateDelta, this.artifactDelta := plain, stateDelta, artifactDelta;
      this.confirmations, this.compaction := confirmations, compaction;
      this.longRunningToolIds, this.routes := longRunningToolIds, routes;
    }

    /** The event itself, and its maps and slices. */
    ghost function OwnObjects(): set<object>
      reads this
    {
      {this} + Only(stateDelta) + Only(artifactDelta) + Only(confirmations) + Only(longRunningToolIds) + Only(routes)
    }

    /** The objects an event does not share once it is recorded. */
    ghost function Footprint(): set<object>
      reads this, CompactionReads(compaction)
    {
      OwnObjects() + if compaction == null then {} else compaction.Footprint()
    }

    ghost function Value(): EventValue
      reads this, OwnObjects(), CompactionReads(compaction)
    {
      EventValue(plain, MapOf(stateDelta), MapOf(artifactDelta), MapOf(confirmations),
                 if compaction == null then None else Some(compaction.Value()),
                 SliceOf(longRunningToolIds), SliceOf(routes))
    }
  }

  // What does not change an object's footprint does not change what it holds.

  twostate lemma ContentFrame(c: ContentObject)
    requires unchanged(old(c.Footprint()))
    ensures c.Footprint() == old(c.Footprint()) && c.Value() == old(c.Value())
  {
    if c.parts != null {
      assert c.parts[..] == old(c.parts[..]);
    }
  }

  twostate lemma CompactionFrame(c: CompactionObject)
    requires unchanged(old(c.Footprint()))
    ensures c.Footprint() == old(c.Footprint()) && c.Value() == old(c.Value())
  {
    hide ContentObject.Footprint, ContentObject.Value;
    if c.content != null {
      ContentFrame(c.content);
    }
  }

  twostate lemma EventFrame(e: EventObject)
    requires unchanged(old(e.Footprint()))
    ensures e.Footprint() == old(e.Footprint()) && e.Value() == old(e.Value())
  {
    hide CompactionObject.Footprint, CompactionObject.Value;
    if e.compaction != null {
      CompactionFrame(e.compaction);
    }
  }

  lemma {:induction false} ContentAllocated(c: ContentObject)
    ensures forall o: object | o in c.Footprint() :: allocated(o)
  {
  }

  lemma {:induction false} CompactionAllocated(c: CompactionObject)
    ensures forall o: object | o in c.Footprint() :: allocated(o)
  {
  }

  lemma {:induction false} EventAllocated(e: EventObject)
    ensures forall o: object | o in e.Footprint() :: allocated(o)
  {
  }

  // Copying

  /** maps.Clone. */
  method CloneMap<V>(m: MapObject?<V>) returns (out: MapObject?<V>)
    ensures out != null ==> fresh(out)
    ensures MapOf(out) == MapOf(m)
  {
    if m == null {
      return null;
    }
    out := new MapObject(m.entries);
  }

  /** slices.Clone. */
  method CloneSlice<T>(a: array?<T>) returns (out: array?<T>)
    ensures out != null ==> fresh(out)
    ensures SliceOf(out) == SliceOf(a)
    ensures out != null ==> a != null && out.Length == a.Length && out[..] == a[..]
  {
    if a == null {
      return null;
    }
    out := new T[a.Length](i requires 0 <= i < a.Length reads a => a[i]);
    assert out[..] == a[..];
  }

  /** The parts of a compaction's content: the slice is cloned, and then every part in it is
      replaced by a copy of its struct. */
  method CopyParts(parts: array?<PartObject?>) returns (out: array?<PartObject?>)
    ensures out == null <==> parts == null
    ensures out != null ==> fresh(out) && forall i | 0 <= i < out.Length && out[i] != null :: fresh(out[i])
    ensures out != null ==> PartValues(out[..]) == PartValues(parts[..])
  {
    out := CloneSlice(parts);
    if out == null {
      return;
    }
    assert out[..] == parts[..];
    for i := 0 to out.Length
      invariant fresh(out) && out.Length == parts.Length
      invariant forall j | i <= j < out.Length :: out[j] == parts[j]
      invariant forall j | 0 <= j < i :: out[j] == null <==> parts[j] == null
      invariant forall j | 0 <= j < i && out[j] != null :: fresh(out[j]) && out[j].fields == parts[j].fields
    {
      var part := out[i];
      if part == null {
        continue;
      }
      out[i] := new PartObject(part.fields);
    }
    assert PartValues(out[..]) == PartValues(parts[..]);
  }

  method CopyContent(content: ContentObject) returns (out: ContentObject)
    ensures fresh(out) && fresh(out.Footprint()) && out.Value() == content.Value()
  {
    hide PartValues;
    var parts := CopyParts(content.parts);
    out := new ContentObject(content.role, parts);
  }

  /** copyCompaction: everything the record owns is new, and holds what the original held. */
  method CopyCompaction(c: CompactionObject?) returns (out: CompactionObject?)
    ensures out == null <==> c == null
    ensures out != null ==> fresh(out.Footprint()) && out.Value() == c.Value()
  {
    hide ContentObject.Footprint, ContentObject.Value;
    if c == null {
      return null;
    }
    var excluded := CloneSlice(c.excluded);
    var content := c.content;
    if content != null {
      content := CopyContent(content);
    }
    if content != null {
      ContentAllocated(content);
      ContentAllocated(c.content);
    }
    label Copied:
    out := new CompactionObject(c.startTimestamp, c.endTimestamp, content, excluded);
    if content != null {
      ContentFrame@Copied(content);
      ContentFrame@Copied(c.content);
    }
  }

  /** The clones of an event's maps. */
  method CloneMaps(event: EventObject)
    returns (stateDelta: MapObject?<HeapValue>, artifactDelta: MapObject?<int>, confirmations: MapObject?<Confirmation>)
    ensures fresh(Only(stateDelta)) && fresh(Only(artifactDelta)) && fresh(Only(confirmations))
    ensures MapOf(stateDelta) == MapOf(event.stateDelta) && MapOf(artifactDelta) == MapOf(event.artifactDelta)
    ensures MapOf(confirmations) == MapOf(event.confirmations)
  {
    stateDelta := CloneMap(event.stateDelta);
    artifactDelta := CloneMap(event.artifactDelta);
    confirmations := CloneMap(event.confirmations);
  }

  /** The clones of an event's slices. */
  method CloneSlices(event: EventObject) returns (longRunningToolIds: array?<string>, routes: array?<string>)
    ensures fresh(Only(longRunningToolIds)) && fresh(Only(routes))
    ensures SliceOf(longRunningToolIds) == SliceOf(event.longRunningToolIds) && SliceOf(routes) == SliceOf(event.routes)
  {
    longRunningToolIds := CloneSlice(event.longRunningToolIds);
    routes := CloneSlice(event.routes);
  }

  /** A copy of an event's struct with its maps and slices cloned, and with the given compaction
      record. */
  method CloneFields(event: EventObject, compaction: CompactionObject?) returns (out: EventObject)
    ensures fresh(out.OwnObjects()) && out.compaction == compaction
    ensures out.plain == event.plain && MapOf(out.stateDelta) == MapOf(event.stateDelta)
    ensures MapOf(out.artifactDelta) == MapOf(event.artifactDelta)
    ensures MapOf(out.confirmations) == MapOf(event.confirmations)
    ensures SliceOf(out.longRunningToolIds) == SliceOf(event.longRunningToolIds)
            && SliceOf(out.routes) == SliceOf(event.routes)
  {
    hide Only;
    var stateDelta, artifactDelta, confirmations := CloneMaps(event);
    var longRunningToolIds, routes := CloneSlices(event);
    out := new EventObject(
      event.plain, stateDelta, artifactDelta, confirmations, compaction, longRunningToolIds, routes);
  }

  /** copyEvent. */
  method CopyEvent(event: EventObject) returns (out: EventObject)
    ensures fresh(out.Footprint()) && out.Value() == event.Value()
  {
    hide CompactionObject.Footprint, CompactionObject.Value, EventObject.OwnObjects, MapOf, SliceOf;
    var compaction := CopyCompaction(event.compaction);
    if compaction != null {
      CompactionAllocated(compaction);
      CompactionAllocated(event.compaction);
    }
    label Copied:
    out := CloneFields(event, compaction);
    if compaction != null {
      CompactionFrame@Copied(compaction);
      CompactionFrame@Copied(event.compaction);
    }
  }

  // What a record shares

  /** What a referenced object holds, references included. */
  datatype ObjectContent =
    | MapContent(entries: map<string, HeapValue>)
    | ListContent(items: seq<HeapValue>)
    | BytesContent(bytes: seq<Byte>)
    | ContentContent(role: string, parts: array?<PartObject?>)
    | SlotsContent(slots: seq<PartObject?>)
    | PartContent(fields: PartFields)

  function ObjectOf(r: Ref): object {
    match r
    case MapRef(m) => m
    case ListRef(l) => l
    case BytesRef(b) => b
    case ContentRef(c) => c
    case SlotsRef(p) => p
    case PartRef(p) => p
  }

  function Content(r: Ref): ObjectContent
    reads ObjectOf(r)
  {
    match r
    case MapRef(m) => MapContent(m.entries)
    case ListRef(l) => ListContent(l[..])
    case BytesRef(b) => BytesContent(b[..])
    case ContentRef(c) => ContentContent(c.role, c.parts)
    case SlotsRef(p) => SlotsContent(p[..])
    case PartRef(p) => PartContent(p.fields)
  }

  ghost function RefsOf(values: set<HeapValue>): set<Ref> {
    set v | v in values && v.To? :: v.ref
  }

  ghost function MapRefs(m: MapObject?<HeapValue>): set<Ref> {
    if m == null then {} else {MapRef(m)}
  }

  ghost function PartRefs(f: PartFields): set<Ref> {
    (if f.thoughtSignature == null then {} else {BytesRef(f.thoughtSignature)})
    + MapRefs(f.inlineData) + MapRefs(f.fileData) + MapRefs(f.functionCall) + MapRefs(f.functionResponse)
    + MapRefs(f.executableCode) + MapRefs(f.codeExecutionResult) + MapRefs(f.videoMetadata)
  }

  /** The references an object holds. */
  ghost function Held(c: ObjectContent): set<Ref> {
    match c
    case MapContent(entries) => RefsOf(entries.Values)
    case ListContent(items) => RefsOf(set v | v in items)
    case BytesContent(_) => {}
    case ContentContent(_, parts) => if parts == null then {} else {SlotsRef(parts)}
    case SlotsContent(slots) => set i | 0 <= i < |slots| && slots[i] != null :: PartRef(slots[i])
    case PartContent(fields) => PartRefs(fields)
  }

  /** The references in a record: out of its delta, its confirmations, the parts of its compaction
      record, and the fields that are not cloned. */
  ghost function Roots(v: EventValue): set<Ref> {
    (match v.stateDelta case None => {} case Some(entries) => RefsOf(entries.Values))
    + (match v.confirmations case None => {} case Some(answers) => RefsOf(set c | c in answers.Values :: c.payload))
    + (match v.compaction
       case Some(CompactionValue(_, _, Some(ContentValue(_, Some(parts))), _)) =>
         set p, r | p in parts && p.Some? && r in PartRefs(p.value) :: r
       case _ => {})
    + (if v.plain.content == null then {} else {ContentRef(v.plain.content)})
    + MapRefs(v.plain.customMetadata) + MapRefs(v.plain.requestedInput) + RefsOf({v.plain.output})
    + MapRefs(v.plain.nodeInfo)
  }

  /** What references lead to in at most n steps. */
  ghost function Reach(roots: set<Ref>, n: nat): set<Ref>
    reads *
  {
    if n == 0 then roots else Onward(Reach(roots, n - 1))
  }

  ghost function Onward(refs: set<Ref>): set<Ref>
    reads *
  {
    refs + set r, x | r in refs && x in Held(Content(r)) :: x
  }

  /** Everything references lead to in n steps, with what is in it: what a reader can see. */
  ghost function Deep(roots: set<Ref>, n: nat): map<Ref, ObjectContent>
    reads *
  {
    map r | r in Reach(roots, n) :: Content(r)
  }

  /** Objects hold what they are said to hold. */
  ghost predicate Hold(contents: map<Ref, ObjectContent>)
    reads *
  {
    forall r | r in contents :: Content(r) == contents[r]
  }

  lemma {:induction false} DeepHolds(roots: set<Ref>, n: nat)
    ensures Hold(Deep(roots, n)) && Deep(roots, n).Keys == Reach(roots, n)
    ensures n > 0 ==> forall r | r in Deep(roots, n - 1) ::
                        r in Deep(roots, n) && Deep(roots, n)[r] == Deep(roots, n - 1)[r]
  {
  }

  /** What references lead to depends on what the objects on the way hold. */
  ghost function HeldIn(contents: map<Ref, ObjectContent>): set<Ref> {
    contents.Keys + set r, x | r in contents && x in Held(contents[r]) :: x
  }

  lemma {:induction false} ReachIsHeld(roots: set<Ref>, n: nat)
    requires n > 0
    ensures Reach(roots, n) == HeldIn(Deep(roots, n - 1))
  {
    hide Held, Content;
    assert Deep(roots, n - 1).Keys == Reach(roots, n - 1);
  }

  lemma {:induction false} DeepIs(roots: set<Ref>, n: nat, contents: map<Ref, ObjectContent>)
    requires contents.Keys == Reach(roots, n) && Hold(contents)
    ensures Deep(roots, n) == contents
  {
  }

  lemma {:induction false} HoldPart(contents: map<Ref, ObjectContent>, some: map<Ref, ObjectContent>)
    requires Hold(contents) && forall r | r in some :: r in contents && contents[r] == some[r]
    ensures Hold(some)
  {
  }

  twostate lemma DeepStep(roots: set<Ref>, new n: nat)
    requires Hold(old(Deep(roots, n)))
    requires n > 0 ==> Deep(roots, n - 1) == old(Deep(roots, n - 1))
    ensures Deep(roots, n) == old(Deep(roots, n))
  {
    hide Held, Content, Deep, Hold, Reach;
    var before := old(Deep(roots, n));
    SameReach(roots, n);
    DeepIs(roots, n, before);
  }

  twostate lemma SameReach(roots: set<Ref>, new n: nat)
    requires n > 0 ==> Deep(roots, n - 1) == old(Deep(roots, n - 1))
    ensures old(Deep(roots, n)).Keys == Reach(roots, n)
  {
    hide Held, Content, Deep, Hold, Reach;
    OldDeepHolds(roots, n);
    if n == 0 {
      ReachesRoots(roots);
    } else {
      ReachIsHeld(roots, n);
    }
  }

  /** What does not change any reached object does not change what is seen. */
  twostate lemma DeepFrame(roots: set<Ref>, new n: nat)
    requires Hold(old(Deep(roots, n)))
    ensures Deep(roots, n) == old(Deep(roots, n))
  {
    hide Held, Content, Deep, Hold, Reach;
    if n == 0 {
      DeepStep(roots, 0);
    } else {
      OldDeepHolds(roots, n);
      HoldPart(old(Deep(roots, n)), old(Deep(roots, n - 1)));
      DeepFrame(roots, n - 1);
      DeepStep(roots, n);
    }
  }

  lemma {:induction false} ReachesRoots(roots: set<Ref>)
    ensures Reach(roots, 0) == roots
  {
  }

  /** What was seen before, step by step. */
  twostate lemma OldDeepHolds(roots: set<Ref>, new n: nat)
    ensures old(Deep(roots, n)).Keys == old(Reach(roots, n))
    ensures n == 0 ==> old(Reach(roots, n)) == roots
    ensures n > 0 ==> forall r | r in old(Deep(roots, n - 1)) ::
                        r in old(Deep(roots, n)) && old(Deep(roots, n))[r] == old(Deep(roots, n - 1))[r]
    ensures n > 0 ==> old(Reach(roots, n)) == HeldIn(old(Deep(roots, n - 1)))
  {
    hide Held;
    if n == 0 {
    } else {
      assert old(Deep(roots, n - 1)).Keys == old(Reach(roots, n - 1));
    }
  }

  /** An object that is written to stays reached: the way to it does not lead through it. */
  twostate lemma StillReached(roots: set<Ref>, new n: nat, new target: Ref)
    requires target in old(Reach(roots, n))
    requires Hold(old(Deep(roots, n)) - {target})
    ensures target in Reach(roots, n)
  {
    hide Held, Content, Deep, Hold, Reach;
    OldDeepHolds(roots, n);
    if n == 0 {
      ReachesRoots(roots);
    } else {
      ReachIsHeld(roots, n);
      var before := old(Deep(roots, n - 1));
      OldDeepHolds(roots, n - 1);
      HoldPart(old(Deep(roots, n)) - {target}, before - {target});
      if target in old(Reach(roots, n - 1)) {
        StillReached(roots, n - 1, target);
        DeepKeys(roots, n - 1);
      } else {
        assert before - {target} == before;
        DeepFrame(roots, n - 1);
      }
    }
  }

  lemma {:induction false} DeepAllocated(roots: set<Ref>, n: nat)
    ensures forall r | r in Deep(roots, n) :: allocated(ObjectOf(r))
  {
    var seen := Deep(roots, n);
    assert allocated(seen);
    forall r | r in seen
      ensures allocated(ObjectOf(r))
    {
      match r
      case MapRef(_) =>
      case _ =>
    }
  }

  lemma {:induction false} DeepKeys(roots: set<Ref>, n: nat)
    ensures Deep(roots, n).Keys == Reach(roots, n)
  {
  }

  // What a caller can do afterwards

  /** A write to one object: new contents for a map, an element of a slice, or a struct. */
  datatype Write =
    | WriteMap(m: MapObject<HeapValue>, entries: map<string, HeapValue>)
    | WriteItem(items: array<HeapValue>, i: nat, item: HeapValue)
    | WriteByte(bytes: array<Byte>, i: nat, byte: Byte)
    | WriteSlot(slots: array<PartObject?>, i: nat, slot: PartObject?)
    | WritePart(part: PartObject, fields: PartFields)
    | WriteContent(content: ContentObject, role: string, parts: array?<PartObject?>)
    | WriteArtifacts(artifacts: MapObject<int>, versions: map<string, int>)
    | WriteConfirmations(confirmations: MapObject<Confirmation>, answers: map<string, Confirmation>)
    | WriteString(strings: array<string>, i: nat, s: string)
    | WriteHole(holes: array<EventRef>, i: nat, hole: EventRef)
    | WriteCompaction(
        compaction: CompactionObject, start: Instant, end: Instant, to: ContentObject?, excluded: array?<EventRef>)
    | WriteEvent(event: EventObject, like: EventObject)

  function Written(w: Write): object {
    match w
    case WriteMap(m, _) => m
    case WriteItem(a, _, _) => a
    case WriteByte(a, _, _) => a
    case WriteSlot(a, _, _) => a
    case WritePart(p, _) => p
    case WriteContent(c, _, _) => c
    case WriteArtifacts(m, _) => m
    case WriteConfirmations(m, _) => m
    case WriteString(a, _, _) => a
    case WriteHole(a, _, _) => a
    case WriteCompaction(c, _, _, _, _) => c
    case WriteEvent(e, _) => e
  }

  /** The written object, if it is of a kind that records share. */
  function Target(w: Write): Option<Ref> {
    match w
    case WriteMap(m, _) => Some(MapRef(m))
    case WriteItem(a, _, _) => Some(ListRef(a))
    case WriteByte(a, _, _) => Some(BytesRef(a))
    case WriteSlot(a, _, _) => Some(SlotsRef(a))
    case WritePart(p, _) => Some(PartRef(p))
    case WriteContent(c, _, _) => Some(ContentRef(c))
    case _ => None
  }

  /** A slice with one element written. An index outside panics in Go and writes nothing. */
  function Updated<T>(s: seq<T>, i: nat, x: T): seq<T> {
    if i < |s| then s[i := x] else s
  }

  /** What the written object holds afterwards. */
  function Applied(w: Write, c: ObjectContent): ObjectContent {
    match (w, c)
    case (WriteMap(_, entries), MapContent(_)) => MapContent(entries)
    case (WriteItem(_, i, item), ListContent(items)) => ListContent(Updated(items, i, item))
    case (WriteByte(_, i, byte), BytesContent(bytes)) => BytesContent(Updated(bytes, i, byte))
    case (WriteSlot(_, i, slot), SlotsContent(slots)) => SlotsContent(Updated(slots, i, slot))
    case (WritePart(_, fields), PartContent(_)) => PartContent(fields)
    case (WriteContent(_, role, parts), ContentContent(_, _)) => ContentContent(role, parts)
    case _ => c
  }

  /** One write. */
  method Perform(w: Write)
    modifies Written(w)
    ensures Target(w).Some? ==> Content(Target(w).value) == Applied(w, old(Content(Target(w).value)))
    ensures match w
            case WriteArtifacts(m, versions) => m.entries == versions
            case WriteConfirmations(m, answers) => m.entries == answers
            case WriteString(a, i, s) => a[..] == Updated(old(a[..]), i, s)
            case WriteHole(a, i, hole) => a[..] == Updated(old(a[..]), i, hole)
            case WriteCompaction(c, start, end, to, excluded) =>
              c.startTimestamp == start && c.endTimestamp == end && c.content == to && c.excluded == excluded
            case WriteEvent(e, like) =>
              && e.plain == old(like.plain) && e.stateDelta == old(like.stateDelta)
              && e.artifactDelta == old(like.artifactDelta) && e.confirmations == old(like.confirmations)
              && e.compaction == old(like.compaction) && e.routes == old(like.routes)
              && e.longRunningToolIds == old(like.longRunningToolIds)
            case _ => true
  {
    match w
    case WriteMap(m, entries) => m.entries := entries;
    case WriteItem(a, i, item) => if i < a.Length { a[i] := item; }
    case WriteByte(a, i, byte) => if i < a.Length { a[i] := byte; }
    case WriteSlot(a, i, slot) => if i < a.Length { a[i] := slot; }
    case WritePart(p, fields) => p.fields := fields;
    case WriteContent(c, role, parts) => c.role, c.parts := role, parts;
    case WriteArtifacts(m, versions) => m.entries := versions;
    case WriteConfirmations(m, answers) => m.entries := answers;
    case WriteString(a, i, s) => if i < a.Length { a[i] := s; }
    case WriteHole(a, i, hole) => if i < a.Length { a[i] := hole; }
    case WriteCompaction(c, start, end, to, excluded) =>
      c.startTimestamp, c.endTimestamp, c.content, c.excluded := start, end, to, excluded;
    case WriteEvent(e, like) =>
      e.plain, e.stateDelta, e.artifactDelta := like.plain, like.stateDelta, like.artifactDelta;
      e.confirmations, e.compaction := like.confirmations, like.compaction;
      e.longRunningToolIds, e.routes := like.longRunningToolIds, like.routes;
  }

  /** Exactly which writes show: after one write, what is seen from some references is what was
      seen before if and only if the written object is not among what they led to, or the write
      put in what was there. */
  method PerformShows(w: Write, ghost roots: set<Ref>, ghost n: nat)
    modifies Written(w)
    ensures Target(w).Some? ==> Content(Target(w).value) == Applied(w, old(Content(Target(w).value)))
    ensures Deep(roots, n) == old(Deep(roots, n)) <==>
            (Target(w).Some? && Target(w).value in old(Reach(roots, n)) ==>
               Applied(w, old(Content(Target(w).value))) == old(Content(Target(w).value)))
  {
    hide Held, Applied, Reach, Onward;
    ghost var before := Deep(roots, n);
    DeepKeys(roots, n);
    DeepHolds(roots, n);
    DeepAllocated(roots, n);
    Perform(w);
    OnlyTarget(w, before);
    if Target(w).Some? && Target(w).value in before && Content(Target(w).value) != before[Target(w).value] {
      StillReached(roots, n, Target(w).value);
    } else {
      DeepFrame(roots, n);
    }
  }

  /** A write changes no other object. */
  twostate lemma OnlyTarget(w: Write, new before: map<Ref, ObjectContent>)
    requires forall r | r in before :: ObjectOf(r) != Written(w) ==> Content(r) == before[r]
    ensures Hold(if Target(w).Some? then before - {Target(w).value} else before)
  {
  }

  /** None of the writes is to an object the references led to. */
  ghost predicate SpareAll(writes: seq<Write>, reached: set<Ref>) {
    forall w | w in writes && Target(w).Some? :: Target(w).value !in reached
  }

  method PerformAll(writes: seq<Write>, ghost record: EventObject, ghost roots: set<Ref>, ghost n: nat)
    requires forall w | w in writes :: Written(w) !in record.Footprint()
    modifies set w | w in writes :: Written(w)
    ensures record.Footprint() == old(record.Footprint()) && record.Value() == old(record.Value())
    ensures SpareAll(writes, old(Reach(roots, n))) ==> Deep(roots, n) == old(Deep(roots, n))
  {
    hide EventObject.Footprint, EventObject.Value, Written, Content, Held, Reach, Deep, Target, Applied;
    ghost var reached := Reach(roots, n);
    DeepKeys(roots, n);
    for m := 0 to |writes|
      invariant record.Footprint() == old(record.Footprint()) && record.Value() == old(record.Value())
      invariant SpareAll(writes, reached) ==> Deep(roots, n) == old(Deep(roots, n))
    {
      assert writes[m] in writes;
      EventAllocated(record);
      DeepKeys(roots, n);
      label Before:
      PerformShows(writes[m], roots, n);
      EventFrame@Before(record);
    }
  }

  // The event list of a handle

  /** The state of a handle, and its slice of events in a backing array that appends may grow
      into. */
  class EventList {
    var state: map<string, HeapValue>
    var backing: array<EventObject?>
    var count: nat

    ghost predicate Valid()
      reads this, backing
    {
      count <= backing.Length && forall i | 0 <= i < count :: backing[i] != null
    }

    ghost function Events(): seq<EventObject?>
      reads this, backing
      requires Valid()
    {
      backing[..count]
    }

    constructor ()
      ensures Valid() && fresh(backing) && Events() == [] && state == map[]
    {
      state := map[];
      backing := new EventObject?[0];
      count := 0;
    }

    /** append(s.events, event): in place while there is room, otherwise in a larger array. */
    method Append(event: EventObject)
      requires Valid()
      modifies this, backing
      ensures Valid() && (backing == old(backing) || fresh(backing))
      ensures Events() == old(Events()) + [event] && state == old(state)
    {
      if count == backing.Length {
        var larger := new EventObject?[2 * count + 1](i requires 0 <= i reads this, backing =>
          if i < backing.Length then backing[i] else null);
        backing := larger;
      }
      backing[count] := event;
      count := count + 1;
    }

    /** DatabaseSession.appendEvent, but for the update time. The state takes over the values of
        the caller's delta, references included. */
    method Record(event: EventObject)
      requires Valid()
      modifies this, backing
      ensures Valid() && (backing == old(backing) || fresh(backing))
      ensures |Events()| == old(|Events()|) + 1 && Events()[..old(|Events()|)] == old(Events())
      ensures var record := Events()[old(|Events()|)];
              record != null && fresh(record.Footprint()) && record.Value() == old(event.Value())
      ensures state == old(state) + EntriesOf(old(event.Value()).stateDelta)
    {
      hide EventObject.Footprint, EventObject.Value;
      EventAllocated(event);
      var record := CopyEvent(event);
      EventFrame(event);
      EventAllocated(record);
      label Copied:
      Append(record);
      EventFrame@Copied(record);
      DeltaOfValue(record);
      state := state + EntriesOf(MapOf(record.stateDelta));
      EventFrame@Copied(record);
    }

    /** Events().All: a clone of the slice, taken at the call. */
    method All() returns (snapshot: array<EventObject?>)
      requires Valid()
      ensures fresh(snapshot) && snapshot[..] == Events()
    {
      snapshot := new EventObject?[count](i requires 0 <= i < count reads this, backing requires Valid() => backing[i]);
    }
  }

  lemma {:induction false} DeltaOfValue(e: EventObject)
    ensures e.Value().stateDelta == MapOf(e.stateDelta)
  {
  }

  /** A recorded event stays as it was passed in, down to the references in it, whatever is written
      afterwards to any objects the caller had. What the references lead to, in any number of
      steps, stays as long as none of the objects on the way is written to. */
  method RecordThenWrite(list: EventList, event: EventObject, writes: seq<Write>, ghost n: nat)
    requires list.Valid() && forall w | w in writes :: Written(w) != list.backing
    modifies list, list.backing, set w | w in writes :: Written(w)
    ensures list.Valid() && |list.Events()| == old(|list.Events()|) + 1
    ensures var record, was := list.Events()[old(|list.Events()|)], old(event.Value());
            && record != null && record.Value() == was
            && (SpareAll(writes, old(Reach(Roots(was), n))) ==>
                  Deep(Roots(record.Value()), n) == old(Deep(Roots(was), n)))
  {
    hide EventObject.Footprint, EventObject.Value, Content, Held, Reach, Deep, Roots, Applied;
    ghost var roots := Roots(event.Value());
    assert forall w | w in writes :: allocated(Written(w));
    RecordKeepsDeep(list, event, roots, n);
    ghost var record := list.Events()[|list.Events()| - 1];
    PerformAll(writes, record, roots, n);
  }

  /** Exactly what shows after one write. */
  method RecordThenWriteOne(list: EventList, event: EventObject, w: Write, ghost n: nat)
    requires list.Valid() && Written(w) != list.backing
    modifies list, list.backing, Written(w)
    ensures list.Valid() && |list.Events()| == old(|list.Events()|) + 1
    ensures var record, was := list.Events()[old(|list.Events()|)], old(event.Value());
            && record != null && record.Value() == was
            && (Deep(Roots(record.Value()), n) == old(Deep(Roots(was), n)) <==>
                  (Target(w).Some? && Target(w).value in old(Reach(Roots(was), n)) ==>
                     Applied(w, old(Content(Target(w).value))) == old(Content(Target(w).value))))
  {
    hide EventObject.Footprint, EventObject.Value, Held, Reach, Deep, Roots, Applied;
    ghost var roots := Roots(event.Value());
    assert allocated(Written(w));
    RecordKeepsDeep(list, event, roots, n);
    ghost var record := list.Events()[|list.Events()| - 1];
    EventAllocated(record);
    label Recorded:
    PerformShows(w, roots, n);
    EventFrame@Recorded(record);
  }

  /** Recording an event writes to nothing that is shared. */
  method RecordKeepsDeep(list: EventList, event: EventObject, ghost roots: set<Ref>, ghost n: nat)
    requires list.Valid()
    modifies list, list.backing
    ensures list.Valid() && (list.backing == old(list.backing) || fresh(list.backing))
    ensures |list.Events()| == old(|list.Events()|) + 1
    ensures var record := list.Events()[old(|list.Events()|)];
            record != null && fresh(record.Footprint()) && record.Value() == old(event.Value())
    ensures Deep(roots, n) == old(Deep(roots, n)) && Reach(roots, n) == old(Reach(roots, n))
  {
    hide EventObject.Footprint, EventObject.Value, Held, Reach;
    ghost var before := Deep(roots, n);
    DeepHolds(roots, n);
    DeepAllocated(roots, n);
    list.Record(event);
    DeepFrame(roots, n);
    DeepKeys(roots, n);
  }

  /** Among what is shared: an event's own content, which is not copied at all. */
  method SharedContentShows(list: EventList, event: EventObject, role: string)
    requires list.Valid() && event.plain.content != null
    modifies list, list.backing, event.plain.content
    ensures list.Valid() && |list.Events()| == old(|list.Events()|) + 1
    ensures var record := list.Events()[old(|list.Events()|)];
            record != null && record.plain.content != null && record.plain.content.role == role
  {
    list.Record(event);
    event.plain.content.role := role;
  }

  /** The function call a part of a compaction record points to, if there is one. */
  function CallOf(v: EventValue, i: nat): MapObject?<HeapValue> {
    match v.compaction
    case Some(CompactionValue(_, _, Some(ContentValue(_, Some(parts))), _)) =>
      if i < |parts| && parts[i].Some? then parts[i].value.functionCall else null
    case _ => null
  }

  /** And inside a compaction record, whose parts are copied, what they point to. */
  method SharedCallShows(list: EventList, event: EventObject, i: nat, entries: map<string, HeapValue>)
    requires list.Valid() && CallOf(event.Value(), i) != null
    modifies list, list.backing, CallOf(event.Value(), i)
    ensures list.Valid() && |list.Events()| == old(|list.Events()|) + 1
    ensures var record := list.Events()[old(|list.Events()|)];
            && record != null
            && CallOf(record.Value(), i) == old(CallOf(event.Value(), i))
            && old(CallOf(event.Value(), i)).entries == entries
  {
    hide EventObject.Footprint, CompactionObject.Footprint, ContentObject.Footprint;
    var call := event.compaction.content.parts[i].fields.functionCall;
    list.Record(event);
    ghost var record := list.Events()[|list.Events()| - 1];
    EventAllocated(record);
    label Recorded:
    call.entries := entries;
    EventFrame@Recorded(record);
  }

  /** An iteration runs over the events there were when All was called, whatever is appended
      later. */
  method IterateAfterAppends(list: EventList, later: seq<EventObject>) returns (seen: seq<EventObject?>)
    requires list.Valid()
    modifies list, list.backing
    ensures seen == old(list.Events())
    ensures list.Valid() && |list.Events()| == old(|list.Events()|) + |later|
    ensures list.Events()[..|seen|] == seen
  {
    var snapshot := list.All();
    for n := 0 to |later|
      invariant list.Valid() && (list.backing == old(list.backing) || fresh(list.backing)) && list.backing != snapshot
      invariant snapshot[..] == old(list.Events())
      invariant |list.Events()| == old(|list.Events()|) + n
      invariant list.Events()[..old(|list.Events()|)] == old(list.Events())
    {
      list.Record(later[n]);
    }
    seen := [];
    for n := 0 to snapshot.Length
      invariant seen == snapshot[..n]
    {
      seen := seen + [snapshot[n]];
    }
  }
}
