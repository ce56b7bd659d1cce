/** The live session an ADK runner holds (adk_service.go) against the store: what a handle knows,
    what a fresh read would give, and why the two stay in agreement. */
module LiveSession {
  import opened Wrappers
  import opened Values
  import opened Sanitizing
  import opened Timestamps
  import opened Messages
  import opened Parts
  import opened Events
  import opened ScopedState
  import opened Tables
  import opened Transactions
  import opened History
  import opened Listing
  import SpannerService

  type State = map<string, GoValue>

  /** What a DatabaseSession knows. */
  datatype View = View(key: SessionKey, updateTime: Instant, state: State, events: seq<Event>)

  // Fresh reads

  /** The merged state of stored rows. */
  function MergedState(row: Session, app: Struct, user: Struct): State {
    Merge(AsMap(app), AsMap(user), AsMap(StateOf(row.state)))
  }

  /** newDatabaseSession. */
  function NewView(row: Session, events: seq<Event>, app: Struct, user: Struct): View {
    View(KeyOf(row), TimeFromProto(row.updateTime), MergedState(row, app, user), events)
  }

  function EventsBack(t: EventEnums, ps: seq<PbEvent>): seq<Event> {
    seq(|ps|, i requires 0 <= i < |ps| => EventBack(t, ps[i]))
  }

  lemma {:induction false} EventsBackGrows(t: EventEnums, ps: seq<PbEvent>, p: PbEvent)
    ensures EventsBack(t, ps + [p]) == EventsBack(t, ps) + [EventBack(t, p)]
  {
    hide EventBack;
  }

  /** What Get returns on the tables as they are. */
  ghost function FreshGet(t: EventEnums, db: Database, k: SessionKey, after: Instant, numRecent: int): Result<View> {
    if k !in db.sessions then Err(NotFound)
    else Ok(NewView(db.sessions[k], EventsBack(t, Listed(db, k, after, numRecent)),
                    AppStateOf(db, k.appName), UserStateOf(db, UserKeyOf(k))))
  }

  ghost function FreshEvents(t: EventEnums, db: Database, k: SessionKey): seq<Event> {
    EventsBack(t, Listed(db, k, ZERO_INSTANT, 0))
  }

  function FreshState(db: Database, k: SessionKey): State
    requires k in db.sessions
  {
    MergedState(db.sessions[k], AppStateOf(db, k.appName), UserStateOf(db, UserKeyOf(k)))
  }

  // Appending

  /** What the platform and the store would draw if they had to: an id and a time for the event,
      another id, and the times of the call and of the commit. */
  datatype Draws = Draws(uuid: string, clock: Instant, freshId: NewId, now: Instant, at: Timestamp) {
    predicate Usable() {
      uuid != "" && clock != ZERO_INSTANT
    }
  }

  /** What uuid.NewString returns. */
  type NewId = s: string | |s| > 0 witness "0"

  /** The event once its missing id and time are assigned. */
  function Assigned(e: Event, d: Draws): Event {
    e.(id := if e.id == "" then d.uuid else e.id,
       timestamp := if e.timestamp == ZERO_INSTANT then d.clock else e.timestamp)
  }

  /** DatabaseSession.appendEvent. */
  function Recorded(v: View, e: Event): View {
    v.(updateTime := e.timestamp, state := v.state + Entries(e.actions.stateDelta), events := v.events + [e])
  }

  /** The tables, the handle and the caller's event after a call, and its answer. */
  datatype Appending = Appending(db: Database, view: View, event: Event, status: Result<()>)

  /** ADKService.AppendEvent through a handle. */
  function AppendOutcome(t: EventEnums, db: Database, v: View, e: Event, d: Draws): Appending
  {
    if e.partial then Appending(db, v, e, Ok(()))
    else
      var event := Assigned(e, d);
      match EventProto(t, v.key, event)
      case Err(s) => Appending(db, v, event, Err(s))
      case Ok(p) =>
        match Execute(db, AppendOp(v.key, p, d.freshId, d.now), d.at)
        case Err(s) => Appending(db, v, event, Err(s))
        case Ok(next) => Appending(next, Recorded(v, event), event, Ok(()))
  }

  // Agreement

  /** Live state as it reads back once it has been stored. */
  function ReadBackState(m: State): State {
    map k | k in m && !IsTemp(k) :: ReadBack(m[k])
  }

  /** Everything in live state could be stored, but for the "temp:" keys. */
  predicate KeepsStorable(m: State) {
    forall k | k in m && !IsTemp(k) :: Storable(m[k])
  }

  /** The handle's update time is the stored one, and its state, less its "temp:" keys and with
      its values as they would read back, is the one a fresh Get returns. */
  predicate Agrees(db: Database, v: View) {
    && v.key in db.sessions
    && v.updateTime == TimeFromProto(db.sessions[v.key].updateTime)
    && ReadBackState(v.state) == FreshState(db, v.key)
    && KeepsStorable(v.state)
  }

  lemma {:induction false} ReadBackOfStored(w: Value)
    ensures ReadBack(AsInterface(w)) == AsInterface(w) && Storable(AsInterface(w))
  {
    hide Storable, AsInterface, Sanitized, NewValue;
    RestoreSanitized(w);
    SanitizedIsStorable(AsInterface(w));
  }

  lemma {:induction false} ReadBackOfSum(a: State, b: State)
    ensures ReadBackState(a + b) == ReadBackState(a) + ReadBackState(b)
    ensures KeepsStorable(a) && KeepsStorable(b) ==> KeepsStorable(a + b)
  {
    hide ReadBack, Storable;
  }

  /** What is appended to the tables is what is added to the handle. */
  lemma {:induction false} DeltaReadsBack(d: GoDict)
    requires DeltaProto(d).Ok?
    ensures AsMap(StateOf(DeltaProto(d).value)) == ReadBackState(Entries(d)) && KeepsStorable(Entries(d))
  {
    hide AsInterface, Sanitized, NewValue, StoreDict, Storable;
    StoreDictEntries(TrimTempDict(d));
    assert Entries(TrimTempDict(d)) == TrimTemp(Entries(d));
    var s := StateOf(DeltaProto(d).value);
    assert s.Keys == TrimTemp(Entries(d)).Keys;
    forall k | k in s
      ensures NewValue(Sanitized(Entries(d)[k])) == Some(s[k]) && Storable(Entries(d)[k])
    {
      SanitizedIsStorable(Entries(d)[k]);
    }
  }

  /** Reading the merged Structs is merging what the Structs read as. */
  lemma {:induction false} MergedStructs(app: Struct, user: Struct, session: Struct)
    ensures Merge(AsMap(app), AsMap(user), AsMap(session)) == AsMap(Merge(app, user, session))
  {
    hide Merge, AsInterface;
    var left, right := Merge(AsMap(app), AsMap(user), AsMap(session)), AsMap(Merge(app, user, session));
    forall k
      ensures k in left <==> k in right
      ensures k in left ==> left[k] == right[k]
    {
      MergeAt(AsMap(app), AsMap(user), AsMap(session), k);
      MergeAt(app, user, session, k);
    }
  }

  lemma {:induction false} NoTempInMerge(app: Struct, user: Struct, session: Struct)
    requires AllUnscoped(session)
    ensures NoTemp(Merge(app, user, session))
  {
    hide Merge;
    forall k | k in Merge(app, user, session)
      ensures !IsTemp(k)
    {
      PrefixesAreExclusive(k);
      MergeAt(app, user, session, k);
    }
  }

  lemma {:induction false} StoredStateReadsBack(s: Struct)
    requires NoTemp(s)
    ensures ReadBackState(AsMap(s)) == AsMap(s) && KeepsStorable(AsMap(s))
  {
    hide AsInterface, ReadBack, Storable;
    forall k | k in s
      ensures ReadBack(AsInterface(s[k])) == AsInterface(s[k]) && Storable(AsInterface(s[k]))
    {
      ReadBackOfStored(s[k]);
    }
  }

  /** A handle agrees with the tables it was just read from, whatever window of events it asked
      for. */
  lemma {:induction false} FreshGetAgrees(t: EventEnums, db: Database, k: SessionKey, after: Instant, numRecent: int)
    requires Coherent(db) && k in db.sessions
    ensures FreshGet(t, db, k, after, numRecent).value.key == k
    ensures Agrees(db, FreshGet(t, db, k, after, numRecent).value)
  {
    hide Listed, Merge, ReadBackState, KeepsStorable, AsMap, AppStateOf, UserStateOf, StateOf;
    var app, user, session := AppStateOf(db, k.appName), UserStateOf(db, UserKeyOf(k)), StateOf(db.sessions[k].state);
    MergedStructs(app, user, session);
    NoTempInMerge(app, user, session);
    StoredStateReadsBack(Merge(app, user, session));
  }

  // One append

  /** A converted event that has its id and time goes through the store's own preparation
      unchanged. */
  lemma {:induction false} StoredIsConverted(t: EventEnums, k: SessionKey, e: Event, freshId: string, now: Instant)
    requires EventProto(t, k, e).Ok? && e.id != "" && e.timestamp != ZERO_INSTANT
    ensures StoredEvent(k, EventProto(t, k, e).value, freshId, now) == EventProto(t, k, e).value
  {
    hide DeltaProto, ConfirmationsProto, CompactionProto, ContentProto, StoreDict, RequestInputProto, JsonValue,
         TrimTemp;
    SpannerService.SecondTrimChangesNothing(e.actions.stateDelta);
  }

  /** What a committed append does to what a fresh read sees of state. */
  lemma {:induction false} AppendedState(db: Database, op: Op, at: Timestamp)
    requires op.AppendOp? && Ready(op) && Error(db, op).None? && KeyOf(db.sessions[op.key]) == op.key
    ensures var next := Outcome(db, op, at);
            && op.key in next.sessions
            && next.sessions[op.key].updateTime == StoredEvent(op.key, op.event, op.freshId, op.now).timestamp
            && FreshState(next, op.key) == FreshState(db, op.key) + AsMap(TrimTemp(DeltaOf(op.event)))
  {
    hide Merge, Split, TrimTemp, DeltaOf, AppStateOf, UserStateOf, AppsAfter, UsersAfter, EventsAfter, AsMap;
    var next, k := Outcome(db, op, at), op.key;
    var d := Split(DeltaOf(op.event));
    StoredDelta(k, op.event, op.freshId, op.now);
    AppStep(db, op, at, k.appName);
    UserStep(db, op, at, UserKeyOf(k));
    var app, user, session := AppStateOf(db, k.appName), UserStateOf(db, UserKeyOf(k)), StateOf(db.sessions[k].state);
    assert StateOf(next.sessions[k].state) == session + d.session;
    ScopedWritesAreFlat(app, user, session, DeltaOf(op.event));
    MergedStructs(app, user, session);
    MergedStructs(app + d.app, user + d.user, session + d.session);
    AsMapOfSum(Merge(app, user, session), TrimTemp(DeltaOf(op.event)));
  }

  lemma {:induction false} AsMapOfSum(a: Struct, b: Struct)
    ensures AsMap(a + b) == AsMap(a) + AsMap(b)
  {
    hide AsInterface;
  }

  /** And of events. */
  lemma {:induction false} AppendedEvents(db: Database, op: Op, at: Timestamp, id: string)
    requires op.AppendOp? && Ready(op) && Error(db, op).None?
    ensures var next, p := Outcome(db, op, at), StoredEvent(op.key, op.event, op.freshId, op.now);
            && EventKeyOf(p).session == op.key && EventKeyOf(p) !in db.events
            && Row(next.events, EventKey(op.key, id)) ==
               if id == p.id then Some(p) else Row(db.events, EventKey(op.key, id))
  {
    hide SessionsAfter, AppsAfter, UsersAfter;
  }

  /** The append a call leads to. */
  function AppendOf(t: EventEnums, k: SessionKey, e: Event, d: Draws): Op
    requires EventProto(t, k, Assigned(e, d)).Ok?
  {
    AppendOp(k, EventProto(t, k, Assigned(e, d)).value, d.freshId, d.now)
  }

  /** The call stores its event. */
  predicate Commits(t: EventEnums, db: Database, k: SessionKey, e: Event, d: Draws)
  {
    !e.partial && EventProto(t, k, Assigned(e, d)).Ok? && Execute(db, AppendOf(t, k, e, d), d.at).Ok?
  }

  /** A call that does not store its event changes neither the tables nor the handle. */
  lemma {:induction false} CallMeaning(t: EventEnums, db: Database, v: View, e: Event, d: Draws)
    ensures var o := AppendOutcome(t, db, v, e, d);
            && (o.status.Ok? <==> e.partial || Commits(t, db, v.key, e, d))
            && (!Commits(t, db, v.key, e, d) ==> o.db == db && o.view == v)
            && (Commits(t, db, v.key, e, d) ==>
                  var op := AppendOf(t, v.key, e, d);
                  && o.view == Recorded(v, Assigned(e, d)) && Ready(op)
                  && Error(db, op).None? && o.db == Outcome(db, op, d.at))
  {
    hide EventProto, Execute, Recorded, Assigned, Outcome, Error;
    if EventProto(t, v.key, Assigned(e, d)).Ok? {
      ExecuteMeaning(db, AppendOf(t, v.key, e, d), d.at);
    }
  }

  /** What a stored event changes in what a fresh read sees: the time becomes the event's, and the
      state is overwritten by its delta as it will read back. */
  lemma {:induction false} CommittedState(t: EventEnums, db: Database, k: SessionKey, e: Event, d: Draws)
    requires d.Usable() && Coherent(db) && Commits(t, db, k, e, d)
    requires Ready(AppendOf(t, k, e, d)) && Error(db, AppendOf(t, k, e, d)).None?
    ensures var next, event := Outcome(db, AppendOf(t, k, e, d), d.at), Assigned(e, d);
            && k in db.sessions && k in next.sessions
            && TimeFromProto(next.sessions[k].updateTime) == event.timestamp
            && FreshState(next, k) == FreshState(db, k) + ReadBackState(Entries(event.actions.stateDelta))
            && KeepsStorable(Entries(event.actions.stateDelta))
  {
    hide EventProto, FreshState, Outcome, Error, Execute, ReadBackState, KeepsStorable, AsMap, TrimTemp, DeltaOf,
         DeltaProto, StoredEvent, Ready;
    var event, op := Assigned(e, d), AppendOf(t, k, e, d);
    AppendHasRow(db, op);
    StoredIsConverted(t, k, event, d.freshId, d.now);
    AppendedState(db, op, d.at);
    ConvertedFields(t, k, event);
    DeltaReadsBack(event.actions.stateDelta);
  }

  /** A call, whatever becomes of it, keeps the handle in agreement with the tables. */
  lemma {:induction false} AppendAgrees(t: EventEnums, db: Database, v: View, e: Event, d: Draws)
    requires d.Usable() && Coherent(db) && Agrees(db, v)
    ensures var o := AppendOutcome(t, db, v, e, d); o.view.key == v.key && Agrees(o.db, o.view)
  {
    hide AppendOutcome, EventProto, FreshState, Outcome, Error, Execute, ReadBackState, KeepsStorable, Ready, Commits,
         AppendOf, Assigned;
    CallMeaning(t, db, v, e, d);
    if Commits(t, db, v.key, e, d) {
      CommittedState(t, db, v.key, e, d);
      ReadBackOfSum(v.state, Entries(Assigned(e, d).actions.stateDelta));
    }
  }

  /** A call whose event is stored although its caller is told otherwise leaves the handle behind,
      unless the event has the time the handle knows already and its delta, as it reads back,
      changes nothing the handle shows. */
  lemma {:induction false} UnheardAgrees(t: EventEnums, db: Database, v: View, e: Event, d: Draws)
    requires d.Usable() && Coherent(db) && Agrees(db, v) && Commits(t, db, v.key, e, d)
    ensures var delta := ReadBackState(Entries(e.actions.stateDelta));
            Agrees(AppendOutcome(t, db, v, e, d).db, v) <==>
              Assigned(e, d).timestamp == v.updateTime && ReadBackState(v.state) + delta == ReadBackState(v.state)
  {
    hide AppendOutcome, EventProto, FreshState, Outcome, Error, Execute, ReadBackState, KeepsStorable, Ready, Commits,
         AppendOf;
    CallMeaning(t, db, v, e, d);
    CommittedState(t, db, v.key, e, d);
  }

  lemma {:induction false} AppendHasRow(db: Database, op: Op)
    requires Coherent(db) && op.AppendOp? && Error(db, op).None?
    ensures op.key in db.sessions && KeyOf(db.sessions[op.key]) == op.key
  {
  }

  lemma {:induction false} ConvertedFields(t: EventEnums, k: SessionKey, e: Event)
    requires EventProto(t, k, e).Ok?
    ensures DeltaProto(e.actions.stateDelta).Ok?
    ensures var p := EventProto(t, k, e).value;
            && p.id == e.id && EventKeyOf(p).session == k
            && TimeFromProto(p.timestamp) == e.timestamp
            && (e.timestamp != ZERO_INSTANT ==> p.timestamp.Some?)
            && TrimTemp(DeltaOf(p)) == StateOf(DeltaProto(e.actions.stateDelta).value)
  {
    hide DeltaProto, ConfirmationsProto, CompactionProto, ContentProto, StoreDict, RequestInputProto, JsonValue,
         TrimTemp;
    SpannerService.SecondTrimChangesNothing(e.actions.stateDelta);
    InstantRoundTrip(e.timestamp);
  }

  // Retries

  /** Ids and times are assigned once: a retry with the same event object keeps them. */
  lemma {:induction false} AssignedOnce(e: Event, first: Draws, later: Draws)
    requires first.Usable()
    ensures Assigned(Assigned(e, first), later) == Assigned(e, first)
    ensures Assigned(e, first).id != "" && Assigned(e, first).timestamp != ZERO_INSTANT
  {
  }

  /** A call whose commit went through although the caller was told otherwise, and which the caller
      retries with the same event object: unless the session was deleted in between, the retry
      fails as a duplicate and changes nothing, whatever else was committed meanwhile. */
  lemma {:induction false} RetryIsDuplicate(
      t: EventEnums, log: Log, i: nat, v: View, e: Event, first: Draws, later: Draws)
    requires first.Usable() && later.Usable() && Valid(log) && i < |log| && !e.partial
    requires EventProto(t, v.key, Assigned(e, first)).Ok? && log[i].op == AppendOf(t, v.key, e, first)
    requires forall m | i < m < |log| :: !(log[m].op.DeleteOp? && Target(log[m].op) == v.key)
    ensures AppendOutcome(t, After(log), v, Assigned(e, first), later) ==
            Appending(After(log), v, Assigned(e, first), Err(AlreadyExists))
  {
    hide Valid, After, EventProto, Execute, EventIds, Assigned, Target, Coherent;
    var event, k := Assigned(e, first), v.key;
    AssignedOnce(e, first, later);
    ConvertedFields(t, k, event);
    var prefix := log[..i + 1];
    ValidPrefix(log, i + 1);
    assert Last(prefix) == log[i];
    AppendedId(prefix);
    IdStays(log, i + 1, k, event.id);
    EventRowsAreAppends(log, k);
    HistoryIsCoherent(log);
    EventHasSession(After(log), EventKey(k, event.id));
    DuplicatesFail(After(log), AppendOf(t, k, event, later), later.at);
    assert event.partial == e.partial by { AssignedPartial(e, first); }
  }

  lemma {:induction false} AssignedPartial(e: Event, d: Draws)
    ensures Assigned(e, d).partial == e.partial
  {
  }

  lemma {:induction false} EventHasSession(db: Database, e: EventKey)
    requires Coherent(db) && e in db.events
    ensures e.session in db.sessions
  {
  }
}
