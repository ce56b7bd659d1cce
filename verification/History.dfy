/** Serial histories of the store: what holds of the tables after any sequence of committed
    transactions, whoever ran them. */
module History {
  import opened Wrappers
  import opened Values
  import opened Timestamps
  import opened Messages
  import opened ScopedState
  import opened Tables
  import opened Folds
  import opened UpdateMask
  import opened Transactions

  /** A committed transaction and the clock its writes to the shared rows carry. */
  datatype Entry = Entry(op: Op, at: Timestamp)

  type Log = seq<Entry>

  function Last(log: Log): Entry
    requires log != []
  {
    log[|log| - 1]
  }

  function Before(log: Log): Log
    requires log != []
  {
    log[..|log| - 1]
  }

  /** The tables after running a log from empty tables. */
  function After(log: Log): Database {
    if log == [] then EMPTY
    else
      var db, e := After(Before(log)), Last(log);
      if Ready(e.op) && Execute(db, e.op, e.at).Ok? then Execute(db, e.op, e.at).value else db
  }

  /** The key an update request names. */
  function RequestKey(op: Op): SessionKey
    requires op.UpdateOp?
  {
    SessionKey(op.request.id, op.request.appName, op.request.userId)
  }

  /** An update's base is the row its request named, as it was some commits ago. */
  predicate ReadsPast(log: Log, op: Op)
    requires op.UpdateOp?
  {
    && op.readAt <= |log|
    && Row(After(log[..op.readAt]).sessions, RequestKey(op)) == Some(op.base)
  }

  /** Every entry was ready to run and committed. */
  predicate Valid(log: Log) {
    log == [] ||
    var init, e := Before(log), Last(log);
    && Valid(init)
    && Ready(e.op)
    && Execute(After(init), e.op, e.at).Ok?
    && (e.op.UpdateOp? ==> ReadsPast(init, e.op))
  }

  lemma {:induction false} ValidPrefix(log: Log, n: nat)
    requires Valid(log) && n <= |log|
    ensures Valid(log[..n])
  {
    hide Execute, Ready, ReadsPast;
    if n == |log| {
      assert log[..n] == log;
    } else {
      ValidPrefix(Before(log), n);
      assert Before(log)[..n] == log[..n];
    }
  }

  // The invariant

  /** Session rows agree with the ids inside their protos, and their state is free of scoped
      keys. */
  ghost predicate CoherentSessions(sessions: map<SessionKey, Session>) {
    forall k | k in sessions :: KeyOf(sessions[k]) == k && AllUnscoped(StateOf(sessions[k].state))
  }

  /** An event row has an id that agrees with its proto, a time, and a delta free of "temp:"
      keys. */
  ghost predicate CoherentEvent(e: EventKey, event: PbEvent) {
    EventKeyOf(event) == e && e.eventId != "" && event.timestamp.Some? && NoTemp(DeltaOf(event))
  }

  ghost predicate Coherent(db: Database) {
    && CoherentSessions(db.sessions)
    && (forall e | e in db.events :: e.session in db.sessions && CoherentEvent(e, db.events[e]))
    && (forall a | a in db.apps :: db.apps[a].appName == a)
    && (forall u | u in db.users :: UserKey(db.users[u].appName, db.users[u].userId) == u)
  }

  lemma {:induction false} SessionPartIsUnscoped(d: Struct)
    ensures AllUnscoped(Split(d).session)
  {
  }

  lemma {:induction false} StoredDelta(key: SessionKey, input: PbEvent, freshId: string, now: Instant)
    ensures DeltaOf(StoredEvent(key, input, freshId, now)) == TrimTemp(DeltaOf(input))
    ensures Split(DeltaOf(StoredEvent(key, input, freshId, now))) == Split(DeltaOf(input))
    ensures NoTemp(DeltaOf(StoredEvent(key, input, freshId, now)))
  {
    SplitIgnoresTemp(DeltaOf(input));
  }

  lemma {:induction false} CoherentSessionsStep(db: Database, op: Op)
    requires CoherentSessions(db.sessions) && Ready(op) && Error(db, op).None?
    requires op.UpdateOp? ==> AllUnscoped(StateOf(op.base.state))
    ensures CoherentSessions(SessionsAfter(db, op))
    ensures !op.DeleteOp? ==> SessionsAfter(db, op).Keys == db.sessions.Keys + {Target(op)}
  {
    hide Split, TrimTemp, DraftOf;
    SessionPartIsUnscoped(Incoming(op));
    match op
    case AppendOp(key, event, freshId, now) =>
      StoredDelta(key, event, freshId, now);
    case UpdateOp(request, paths, now, base, _) =>
      DraftMeaning(paths, request, base, now);
    case _ =>
  }

  lemma {:induction false} CoherentStep(db: Database, op: Op, at: Timestamp)
    requires Coherent(db) && Ready(op) && Error(db, op).None?
    requires op.UpdateOp? ==> AllUnscoped(StateOf(op.base.state))
    ensures Coherent(Outcome(db, op, at))
  {
    hide Split, AppDelta, UserDelta, SessionsAfter, DraftOf, CoherentSessions, CoherentEvent;
    CoherentSessionsStep(db, op);
    if op.AppendOp? {
      AppendedIsCoherent(op);
    } else if op.DeleteOp? {
      assert SessionsAfter(db, op) == db.sessions - {op.key} by { DeletedRow(db, op); }
    }
  }

  lemma {:induction false} DeletedRow(db: Database, op: Op)
    requires op.DeleteOp?
    ensures SessionsAfter(db, op) == db.sessions - {op.key}
  {
  }

  lemma {:induction false} AppendedIsCoherent(op: Op)
    requires op.AppendOp? && Ready(op)
    ensures CoherentEvent(EventKey(op.key, EventIdOf(op.event, op.freshId)),
                          StoredEvent(op.key, op.event, op.freshId, op.now))
  {
    StoredDelta(op.key, op.event, op.freshId, op.now);
  }

  /** The invariant holds after every history. */
  lemma {:induction false} HistoryIsCoherent(log: Log)
    requires Valid(log)
    ensures Coherent(After(log))
    decreases |log|
  {
    hide Execute, Coherent;
    if log != [] {
      var op := Last(log).op;
      HistoryIsCoherent(Before(log));
      if op.UpdateOp? {
        ValidPrefix(Before(log), op.readAt);
        HistoryIsCoherent(Before(log)[..op.readAt]);
        BaseIsUnscoped(After(Before(log)[..op.readAt]), RequestKey(op), op.base);
      }
      ExecuteMeaning(After(Before(log)), op, Last(log).at);
      CoherentStep(After(Before(log)), op, Last(log).at);
    } else {
      assert Coherent(EMPTY) by { EmptyIsCoherent(); }
    }
  }

  lemma {:induction false} EmptyIsCoherent()
    ensures Coherent(EMPTY)
  {
  }

  lemma {:induction false} BaseIsUnscoped(db: Database, k: SessionKey, row: Session)
    requires Coherent(db) && Row(db.sessions, k) == Some(row)
    ensures KeyOf(row) == k && AllUnscoped(StateOf(row.state))
  {
  }

  /** What an entry did, given the tables it met. */
  lemma {:induction false} LastEntry(log: Log)
    requires Valid(log) && log != []
    ensures var op, db := Last(log).op, After(Before(log));
            && Valid(Before(log)) && Ready(op) && Error(db, op).None?
            && After(log) == Outcome(db, op, Last(log).at)
            && (forall k | k in db.sessions :: KeyOf(db.sessions[k]) == k)
  {
    hide Execute, Outcome;
    HistoryIsCoherent(Before(log));
    ExecuteMeaning(After(Before(log)), Last(log).op, Last(log).at);
  }

  // Shared state

  /** All app deltas committed for an app, folded in commit order. */
  function AppFold(log: Log, app: string): Struct {
    if log == [] then map[]
    else AppFold(Before(log), app) + (if Target(Last(log).op).appName == app then AppDelta(Last(log).op) else map[])
  }

  function UserFold(log: Log, u: UserKey): Struct {
    if log == [] then map[]
    else UserFold(Before(log), u) + (if UserKeyOf(Target(Last(log).op)) == u then UserDelta(Last(log).op) else map[])
  }

  /** What one operation adds to an app's row. */
  lemma {:induction false} AppStep(db: Database, op: Op, at: Timestamp, app: string)
    requires Ready(op) && Error(db, op).None?
    ensures var next := Outcome(db, op, at);
            && AppStateOf(next, app) ==
               AppStateOf(db, app) + (if Target(op).appName == app then AppDelta(op) else map[])
            && (app in next.apps <==> app in db.apps || (Target(op).appName == app && AppDelta(op) != map[]))
  {
    hide AppDelta, SessionsAfter, EventsAfter, UsersAfter, Target;
  }

  /** What one operation adds to a user's row. */
  lemma {:induction false} UserStep(db: Database, op: Op, at: Timestamp, u: UserKey)
    requires Ready(op) && Error(db, op).None?
    ensures var next := Outcome(db, op, at);
            && UserStateOf(next, u) ==
               UserStateOf(db, u) + (if UserKeyOf(Target(op)) == u then UserDelta(op) else map[])
            && (u in next.users <==> u in db.users || (UserKeyOf(Target(op)) == u && UserDelta(op) != map[]))
  {
    hide UserDelta, SessionsAfter, EventsAfter, AppsAfter, Target;
  }

  /** The commits that brought an app something. */
  predicate AppTouched(log: Log, app: string) {
    exists i :: 0 <= i < |log| && Target(log[i].op).appName == app && AppDelta(log[i].op) != map[]
  }

  predicate UserTouched(log: Log, u: UserKey) {
    exists i :: 0 <= i < |log| && UserKeyOf(Target(log[i].op)) == u && UserDelta(log[i].op) != map[]
  }

  lemma {:induction false} TouchedStep(log: Log, app: string, u: UserKey)
    requires log != []
    ensures AppTouched(log, app) <==>
            AppTouched(Before(log), app) || (Target(Last(log).op).appName == app && AppDelta(Last(log).op) != map[])
    ensures UserTouched(log, u) <==>
            UserTouched(Before(log), u) || (UserKeyOf(Target(Last(log).op)) == u && UserDelta(Last(log).op) != map[])
  {
    hide AppDelta, UserDelta, Target;
    var init := Before(log);
    assert forall i | 0 <= i < |init| :: log[i] == init[i];
    assert log[|log| - 1] == Last(log);
  }

  /** No shared delta is ever lost: every app row and every user row is the fold, in commit
      order, of all the deltas committed for it, and there is no row exactly as long as all of
      those were empty. */
  lemma {:induction false} SharedRowsAreFolds(log: Log, app: string, u: UserKey)
    requires Valid(log)
    ensures AppStateOf(After(log), app) == AppFold(log, app)
    ensures UserStateOf(After(log), u) == UserFold(log, u)
    ensures app in After(log).apps <==> AppTouched(log, app)
    ensures u in After(log).users <==> UserTouched(log, u)
  {
    hide AppDelta, UserDelta, Outcome, Valid, After, AppTouched, UserTouched, AppStateOf, UserStateOf;
    if log == [] {
      EmptyShared(log, app, u);
    } else {
      LastEntry(log);
      SharedRowsAreFolds(Before(log), app, u);
      AppStep(After(Before(log)), Last(log).op, Last(log).at, app);
      UserStep(After(Before(log)), Last(log).op, Last(log).at, u);
      TouchedStep(log, app, u);
    }
  }

  lemma {:induction false} EmptyShared(log: Log, app: string, u: UserKey)
    requires log == []
    ensures AppStateOf(After(log), app) == map[] && UserStateOf(After(log), u) == map[]
    ensures app !in After(log).apps && !AppTouched(log, app) && u !in After(log).users && !UserTouched(log, u)
  {
  }

  // Events

  /** The ids appended to a session since it was last deleted, in commit order. */
  function EventIds(log: Log, k: SessionKey): seq<string> {
    if log == [] then []
    else
      var ids, op := EventIds(Before(log), k), Last(log).op;
      if Target(op) != k then ids
      else if op.DeleteOp? then []
      else if op.AppendOp? then ids + [EventIdOf(op.event, op.freshId)]
      else ids
  }

  /** Each event is applied exactly once in its session's lifetime if its row exists, and never
      otherwise: the session's event rows are the ids of its committed appends, which do not
      repeat. */
  lemma {:induction false} EventRowsAreAppends(log: Log, k: SessionKey)
    requires Valid(log)
    ensures Distinct(EventIds(log, k))
    ensures forall id :: EventKey(k, id) in After(log).events <==> id in EventIds(log, k)
  {
    hide SessionsAfter, AppsAfter, UsersAfter, StoredEvent, Valid;
    if log == [] {
    } else {
      var op, db := Last(log).op, After(Before(log));
      LastEntry(log);
      EventRowsAreAppends(Before(log), k);
      assert op.AppendOp? ==> EventKey(op.key, EventIdOf(op.event, op.freshId)) !in db.events;
    }
  }

  /** Once applied, an id stays among its session's rows until the session is deleted. */
  lemma {:induction false} IdStays(log: Log, n: nat, k: SessionKey, id: string)
    requires n <= |log| && id in EventIds(log[..n], k)
    requires forall i | n <= i < |log| :: !(log[i].op.DeleteOp? && Target(log[i].op) == k)
    ensures id in EventIds(log, k)
  {
    if n == |log| {
      assert log[..n] == log;
    } else {
      assert Before(log)[..n] == log[..n];
      IdStays(Before(log), n, k, id);
    }
  }

  lemma {:induction false} AppendedId(log: Log)
    requires Valid(log) && log != [] && Last(log).op.AppendOp?
    ensures var op := Last(log).op;
            var id := EventIdOf(op.event, op.freshId);
            id !in EventIds(Before(log), op.key) && id in EventIds(log, op.key)
  {
    hide Valid, Outcome, SessionsAfter;
    var op := Last(log).op;
    LastEntry(log);
    EventRowsAreAppends(Before(log), op.key);
    assert EventIds(log, op.key) == EventIds(Before(log), op.key) + [EventIdOf(op.event, op.freshId)];
  }

  /** A retried append that carries the id of an earlier, committed one cannot commit again
      unless the session was deleted in between. */
  lemma {:induction false} RetryAppliesOnce(log: Log, i: nat, j: nat)
    requires Valid(log) && i < j < |log|
    requires log[i].op.AppendOp? && log[j].op.AppendOp? && log[i].op.key == log[j].op.key
    requires EventIdOf(log[i].op.event, log[i].op.freshId) == EventIdOf(log[j].op.event, log[j].op.freshId)
    ensures exists m :: i < m < j && log[m].op.DeleteOp? && Target(log[m].op) == log[i].op.key
  {
    hide Valid, EventIds, EventIdOf, Target;
    var k, id := log[i].op.key, EventIdOf(log[i].op.event, log[i].op.freshId);
    var first, second := log[..i + 1], log[..j + 1];
    ValidPrefix(log, i + 1);
    ValidPrefix(log, j + 1);
    assert Last(first) == log[i] && Last(second) == log[j];
    AppendedId(first);
    AppendedId(second);
    var between := Before(second);
    assert between == log[..j] && between[..i + 1] == first;
    if forall m | i < m < j :: !(log[m].op.DeleteOp? && Target(log[m].op) == k) {
      assert forall m | i + 1 <= m < |between| :: between[m] == log[m];
      IdStays(between, i + 1, k, id);
      assert false;
    }
  }

  /** A create of an existing session and an append of an existing event fail, which commits
      nothing. */
  lemma {:induction false} DuplicatesFail(db: Database, op: Op, at: Timestamp)
    requires Ready(op)
    ensures op.CreateOp? && Target(op) in db.sessions ==> Execute(db, op, at) == Err(AlreadyExists)
    ensures op.AppendOp? && op.key in db.sessions && EventKey(op.key, EventIdOf(op.event, op.freshId)) in db.events
            ==> Execute(db, op, at) == Err(AlreadyExists)
    ensures op.AppendOp? && op.key !in db.sessions ==> Execute(db, op, at) == Err(NotFound)
  {
    hide Execute;
    ExecuteMeaning(db, op, at);
  }

  // Session state

  /** The delta stored with an event. */
  function StoredDeltaAt(db: Database, k: SessionKey, id: string): Struct {
    if EventKey(k, id) in db.events then DeltaOf(db.events[EventKey(k, id)]) else map[]
  }

  /** Session state replayed from stored events: each one's session keys, in the given order. */
  function Replay(db: Database, k: SessionKey, ids: seq<string>, initial: Struct): Struct {
    if ids == [] then initial
    else Replay(db, k, ids[..|ids| - 1], initial) + Split(StoredDeltaAt(db, k, ids[|ids| - 1])).session
  }

  lemma {:induction false} ReplayFrame(db: Database, other: Database, k: SessionKey, ids: seq<string>, initial: Struct)
    requires forall id | id in ids :: StoredDeltaAt(db, k, id) == StoredDeltaAt(other, k, id)
    ensures Replay(db, k, ids, initial) == Replay(other, k, ids, initial)
  {
    hide Split, StoredDeltaAt;
    if ids == [] {
    } else {
      ReplayFrame(db, other, k, ids[..|ids| - 1], initial);
      assert ids[|ids| - 1] in ids;
    }
  }

  /** No commit touched the session's row between two points of a log. */
  predicate Untouched(log: Log, from: nat, to: nat, k: SessionKey)
    requires to <= |log|
  {
    forall i | from <= i < to :: Target(log[i].op) != k
  }

  lemma {:induction false} UntouchedRow(log: Log, from: nat, k: SessionKey)
    requires Valid(log) && from <= |log| && Untouched(log, from, |log|, k)
    ensures Row(After(log).sessions, k) == Row(After(log[..from]).sessions, k)
  {
    hide EventsAfter, AppsAfter, UsersAfter, DraftOf, NewSession, Split;
    if from == |log| {
      assert log[..from] == log;
    } else {
      LastEntry(log);
      assert Before(log)[..from] == log[..from];
      UntouchedRow(Before(log), from, k);
      assert Target(log[|log| - 1].op) != k;
      OnlyTargetRow(After(Before(log)), Last(log).op, k);
    }
  }

  lemma {:induction false} OnlyTargetRow(db: Database, op: Op, k: SessionKey)
    requires Ready(op) && Error(db, op).None? && k != Target(op)
    requires Target(op) in db.sessions ==> KeyOf(db.sessions[Target(op)]) == Target(op)
    ensures Row(SessionsAfter(db, op), k) == Row(db.sessions, k)
  {
  }

  /** An update that leaves state unmasked, and whose read no commit to the row has overtaken. */
  predicate QuietUpdate(log: Log, i: nat)
    requires i < |log|
  {
    var op := log[i].op;
    op.UpdateOp? && "state" !in PathsOf(op.paths) && op.readAt <= i && Untouched(log, op.readAt, i, Target(op))
  }

  /** After its creation the session is only appended to and quietly updated. */
  predicate AppendedSince(log: Log, created: nat, k: SessionKey)
    requires created < |log|
  {
    && log[created].op.CreateOp? && Target(log[created].op) == k
    && forall i | created < i < |log| && Target(log[i].op) == k :: log[i].op.AppendOp? || QuietUpdate(log, i)
  }

  lemma {:induction false} AppendedSincePrefix(log: Log, created: nat, k: SessionKey)
    requires created < |log| - 1 && AppendedSince(log, created, k)
    ensures AppendedSince(Before(log), created, k)
  {
    hide Target, PathsOf;
    var init := Before(log);
    assert forall i | 0 <= i < |init| :: init[i] == log[i];
    forall i | created < i < |init| && Target(init[i].op) == k
      ensures init[i].op.AppendOp? || QuietUpdate(init, i)
    {
      assert log[i].op.AppendOp? || QuietUpdate(log, i);
    }
  }

  /** Session replay: the session's state is what it was created with, overwritten by the
      session keys of its stored events' deltas in commit order. */
  lemma {:induction false} SessionReplay(log: Log, created: nat, k: SessionKey)
    requires Valid(log) && created < |log| && AppendedSince(log, created, k)
    ensures k in After(log).sessions
    ensures StateOf(After(log).sessions[k].state) ==
            Replay(After(log), k, EventIds(log, k), Split(Incoming(log[created].op)).session)
  {
    hide Split, Outcome, Valid, Incoming, EventIds, Replay, After, Ready, Error, Target, PathsOf;
    var initial := Split(Incoming(log[created].op)).session;
    if created == |log| - 1 {
      FreshSession(log);
      ReplayNothing(After(log), k, initial);
    } else {
      var op := Last(log).op;
      LastEntry(log);
      AppendedSincePrefix(log, created, k);
      SessionReplay(Before(log), created, k);
      if Target(op) != k {
        OtherTarget(log, k, initial);
      } else if op.AppendOp? {
        ReplayAppend(log, initial);
      } else {
        assert QuietUpdate(log, |log| - 1);
        ReplayQuietUpdate(log, initial);
      }
    }
  }

  lemma {:induction false} ReplayNothing(db: Database, k: SessionKey, initial: Struct)
    ensures Replay(db, k, [], initial) == initial
  {
  }

  lemma {:induction false} FreshSession(log: Log)
    requires Valid(log) && log != [] && Last(log).op.CreateOp?
    ensures var k := Target(Last(log).op);
            && k in After(log).sessions && EventIds(log, k) == []
            && StateOf(After(log).sessions[k].state) == Split(Incoming(Last(log).op)).session
  {
    hide Split, EventsAfter, AppsAfter, UsersAfter;
    var k := Target(Last(log).op);
    LastEntry(log);
    HistoryIsCoherent(Before(log));
    EventRowsAreAppends(Before(log), k);
    if EventIds(log, k) != [] {
      assert EventKey(k, EventIds(log, k)[0]) in After(Before(log)).events;
      assert false;
    }
  }

  lemma {:induction false} OtherTarget(log: Log, k: SessionKey, initial: Struct)
    requires Valid(log) && log != [] && Target(Last(log).op) != k
    ensures Row(After(log).sessions, k) == Row(After(Before(log)).sessions, k)
    ensures EventIds(log, k) == EventIds(Before(log), k)
    ensures Replay(After(log), k, EventIds(log, k), initial) == Replay(After(Before(log)), k, EventIds(log, k), initial)
  {
    hide Split, AppsAfter, UsersAfter, SessionsAfter, EventsAfter, Valid, After, Ready, Error, Target, Replay;
    LastEntry(log);
    OnlyTargetRow(After(Before(log)), Last(log).op, k);
    OnlyTargetEvents(After(Before(log)), Last(log).op, k);
    ReplayFrame(After(log), After(Before(log)), k, EventIds(log, k), initial);
  }

  lemma {:induction false} OnlyTargetEvents(db: Database, op: Op, k: SessionKey)
    requires k != Target(op)
    ensures forall id :: Row(EventsAfter(db, op), EventKey(k, id)) == Row(db.events, EventKey(k, id))
  {
    hide StoredEvent;
  }

  /** What a committed append did. */
  lemma {:induction false} AppendEffect(log: Log)
    requires Valid(log) && log != [] && Last(log).op.AppendOp?
    ensures var op, db, next := Last(log).op, After(Before(log)), After(log);
            var id, delta := EventIdOf(op.event, op.freshId), Split(Incoming(op));
            && op.key in db.sessions && op.key in next.sessions
            && StateOf(next.sessions[op.key].state) == StateOf(db.sessions[op.key].state) + delta.session
            && EventKey(op.key, id) in next.events
            && Split(StoredDeltaAt(next, op.key, id)) == delta
            && (forall other | other != id :: StoredDeltaAt(next, op.key, other) == StoredDeltaAt(db, op.key, other))
            && EventIds(log, op.key) == EventIds(Before(log), op.key) + [id]
            && id !in EventIds(Before(log), op.key)
  {
    hide Split, AppsAfter, UsersAfter, Valid, After;
    var op := Last(log).op;
    LastEntry(log);
    AppendedId(log);
    StoredDelta(op.key, op.event, op.freshId, op.now);
  }

  /** What a committed append does to its row: the update time is that of the event, the session's
      own keys of the delta are written over the state, and every other field stays. */
  lemma {:induction false} AppendKeepsRow(log: Log)
    requires Valid(log) && log != [] && Last(log).op.AppendOp?
    ensures var op, db, next := Last(log).op, After(Before(log)), After(log);
            var e := EventKey(op.key, EventIdOf(op.event, op.freshId));
            && op.key in db.sessions && op.key in next.sessions && e in next.events
            && IsStored(op.key, op.event, op.freshId, op.now, next.events[e])
            && IsAppendedTo(db.sessions[op.key], next.events[e], DeltaOf(op.event), next.sessions[op.key])
            && SharedWritten(db, next, op.key, DeltaOf(op.event), Last(log).at)
  {
    hide Valid, After, Outcome, IsStored, IsAppendedTo, SharedWritten, Error, Ready, DeltaOf;
    LastEntry(log);
    AppendSeen(After(Before(log)), Last(log).op, Last(log).at);
    StoredId(Last(log).op);
  }

  lemma {:induction false} StoredId(op: Op)
    requires op.AppendOp?
    ensures StoredEvent(op.key, op.event, op.freshId, op.now).id == EventIdOf(op.event, op.freshId)
  {
  }

  /** Everything of a row that appends leave alone. */
  predicate SameButStateAndTime(a: Session, b: Session) {
    && a.id == b.id && a.appName == b.appName && a.userId == b.userId
    && a.displayName == b.displayName && a.expiration == b.expiration && a.createTime == b.createTime
  }

  /** While only appends hit a session's row, its ids, display name, expiration and creation time
      are what they were, and its update time is that of the last event appended since. */
  lemma {:induction false} RowSince(log: Log, from: nat, k: SessionKey)
    requires Valid(log) && from <= |log| && OnlyAppends(log, from, k) && k in After(log[..from]).sessions
    ensures k in After(log).sessions
    ensures SameButStateAndTime(After(log[..from]).sessions[k], After(log).sessions[k])
    ensures forall i | from <= i < |log| && Target(log[i].op) == k
                       && (forall j | i < j < |log| :: Target(log[j].op) != k) ::
              && EventKey(k, EventIdOf(log[i].op.event, log[i].op.freshId)) in After(log).events
              && After(log).sessions[k].updateTime ==
                 After(log).events[EventKey(k, EventIdOf(log[i].op.event, log[i].op.freshId))].timestamp
  {
    hide Valid, After, Target, EventIdOf, IsStored, SharedWritten, Outcome;
    if |log| == from {
      assert log[..from] == log;
    } else {
      var init, op := Before(log), Last(log).op;
      assert init[..from] == log[..from];
      assert forall i | 0 <= i < |init| :: init[i] == log[i];
      assert log[|log| - 1].op == op;
      LastEntry(log);
      RowSince(init, from, k);
      if Target(op) == k {
        TargetOfAppend(op);
        AppendKeepsRow(log);
      } else {
        NotItsRows(log, k);
      }
    }
  }

  lemma {:induction false} NotItsRows(log: Log, k: SessionKey)
    requires Valid(log) && log != [] && Target(Last(log).op) != k
    ensures Row(After(log).sessions, k) == Row(After(Before(log)).sessions, k)
    ensures forall id :: Row(After(log).events, EventKey(k, id)) == Row(After(Before(log)).events, EventKey(k, id))
  {
    hide AppsAfter, UsersAfter, SessionsAfter, EventsAfter, Valid, After, Ready, Error, Target;
    LastEntry(log);
    OnlyTargetRow(After(Before(log)), Last(log).op, k);
    OnlyTargetEvents(After(Before(log)), Last(log).op, k);
  }

  /** What a committed create puts in its row and in the shared ones. */
  lemma {:induction false} CreateWrites(log: Log)
    requires Valid(log) && log != [] && Last(log).op.CreateOp?
    ensures var op := Last(log).op;
            var k := SessionKey(op.id, op.input.appName, op.input.userId);
            && k !in After(Before(log)).sessions && k in After(log).sessions
            && IsNewRow(op.input, op.id, op.now, After(log).sessions[k])
            && SharedWritten(After(Before(log)), After(log), k, StateOf(op.input.state), Last(log).at)
  {
    hide Valid, After, IsNewRow, SharedWritten, NewSession, AppsAfter, UsersAfter, EventsAfter, StateOf;
    LastEntry(log);
    NewSessionIs(Last(log).op.input, Last(log).op.id, Last(log).op.now);
    OutcomeShared(After(Before(log)), Last(log).op, Last(log).at);
  }

  /** What a committed update puts there, from the row it read. */
  lemma {:induction false} UpdateWrites(log: Log)
    requires Valid(log) && log != [] && Last(log).op.UpdateOp?
    ensures var op := Last(log).op;
            var k := SessionKey(op.request.id, op.request.appName, op.request.userId);
            && k in After(log).sessions && k in After(log[..op.readAt]).sessions
            && IsUpdated(op.paths, op.request, op.now, After(log[..op.readAt]).sessions[k], After(log).sessions[k])
            && SharedWritten(After(Before(log)), After(log), k,
                             if op.paths == [] || "state" in op.paths then StateOf(op.request.state) else map[],
                             Last(log).at)
  {
    hide Valid, After, IsUpdated, SharedWritten, Outcome, StateOf, Ready;
    LastEntry(log);
    UpdateBase(log);
    UpdateSeen(After(Before(log)), Last(log).op, Last(log).at);
  }

  lemma {:induction false} ReplayAppend(log: Log, initial: Struct)
    requires Valid(log) && log != [] && Last(log).op.AppendOp?
    requires var k, db := Target(Last(log).op), After(Before(log));
             k in db.sessions && StateOf(db.sessions[k].state) == Replay(db, k, EventIds(Before(log), k), initial)
    ensures var k := Target(Last(log).op);
            && k in After(log).sessions
            && StateOf(After(log).sessions[k].state) == Replay(After(log), k, EventIds(log, k), initial)
  {
    hide Split, Valid, After, EventIds, StoredDeltaAt, StateOf, Incoming, EventIdOf;
    var k, ids := Target(Last(log).op), EventIds(Before(log), Target(Last(log).op));
    AppendEffect(log);
    ReplayFrame(After(log), After(Before(log)), k, ids, initial);
    assert EventIds(log, k)[..|ids|] == ids;
  }

  lemma {:induction false} ReplayQuietUpdate(log: Log, initial: Struct)
    requires Valid(log) && log != [] && QuietUpdate(log, |log| - 1)
    requires var k, db := Target(Last(log).op), After(Before(log));
             k in db.sessions && StateOf(db.sessions[k].state) == Replay(db, k, EventIds(Before(log), k), initial)
    ensures var k := Target(Last(log).op);
            && k in After(log).sessions
            && StateOf(After(log).sessions[k].state) == Replay(After(log), k, EventIds(log, k), initial)
  {
    hide Split, AppsAfter, UsersAfter, SessionsAfter, Valid, After, Ready, Replay, PathsOf;
    var op, k := Last(log).op, Target(Last(log).op);
    LastEntry(log);
    UpdateKeepsUnmasked(log);
    ReplayFrame(After(log), After(Before(log)), k, EventIds(log, k), initial);
  }

  // Updates

  /** The row an update read, as the history has it. */
  lemma {:induction false} UpdateBase(log: Log)
    requires Valid(log) && log != [] && Last(log).op.UpdateOp?
    ensures var op := Last(log).op;
            && op.readAt < |log|
            && RequestKey(op) == Target(op)
            && Row(After(log[..op.readAt]).sessions, Target(op)) == Some(op.base)
  {
    hide Execute, Coherent;
    var op := Last(log).op;
    ValidPrefix(Before(log), op.readAt);
    HistoryIsCoherent(Before(log)[..op.readAt]);
    BaseIsUnscoped(After(Before(log)[..op.readAt]), RequestKey(op), op.base);
    assert Before(log)[..op.readAt] == log[..op.readAt];
  }

  /** An update whose read no commit to the row has overtaken keeps every unmasked field of the
      row it replaces, its ids and its creation time. */
  lemma {:induction false} UpdateKeepsUnmasked(log: Log)
    requires Valid(log) && log != [] && Last(log).op.UpdateOp?
    requires Untouched(log, Last(log).op.readAt, |log| - 1, Target(Last(log).op))
    ensures var op, k := Last(log).op, Target(Last(log).op);
            && k in After(Before(log)).sessions && k in After(log).sessions
            && var prior, row := After(Before(log)).sessions[k], After(log).sessions[k];
               && KeyOf(row) == KeyOf(prior) && row.createTime == prior.createTime
               && ("display_name" !in PathsOf(op.paths) ==> row.displayName == prior.displayName)
               && ("state" !in PathsOf(op.paths) ==> row.state == prior.state)
               && (LastExpiryPath(PathsOf(op.paths)).None? ==> row.expiration == prior.expiration)
  {
    hide Split, AppsAfter, UsersAfter, EventsAfter;
    var op, k := Last(log).op, Target(Last(log).op);
    LastEntry(log);
    UpdateBase(log);
    assert Before(log)[..op.readAt] == log[..op.readAt];
    UntouchedRow(Before(log), op.readAt, k);
    MaskMeaning(PathsOf(op.paths), op.request, op.base, op.now);
  }

  /** Whatever was committed meanwhile, an update puts every unmasked field of the row back to what
      it read, and touches no event; without state in the mask it touches no app or user row. */
  lemma {:induction false} UpdateRestoresUnmasked(log: Log)
    requires Valid(log) && log != [] && Last(log).op.UpdateOp?
    ensures var op, k := Last(log).op, Target(Last(log).op);
            && k in After(log).sessions && k in After(log[..op.readAt]).sessions
            && var row, base := After(log).sessions[k], After(log[..op.readAt]).sessions[k];
               && base == op.base
               && KeyOf(row) == k && row.createTime == base.createTime
               && ("display_name" !in PathsOf(op.paths) ==> row.displayName == base.displayName)
               && ("state" !in PathsOf(op.paths) ==> row.state == base.state)
               && (LastExpiryPath(PathsOf(op.paths)).None? ==> row.expiration == base.expiration)
               && After(log).events == After(Before(log)).events
               && ("state" !in PathsOf(op.paths) ==>
                     After(log).apps == After(Before(log)).apps && After(log).users == After(Before(log)).users)
  {
    hide Split;
    var op := Last(log).op;
    LastEntry(log);
    UpdateBase(log);
    MaskMeaning(PathsOf(op.paths), op.request, op.base, op.now);
    SplitOfNothing<Value>();
  }

  /** Since some point, the commits to a session's row were appends. */
  predicate OnlyAppends(log: Log, from: nat, k: SessionKey) {
    forall i | from <= i < |log| && Target(log[i].op) == k :: log[i].op.AppendOp?
  }

  /** The session parts of the appends committed to a session since some point. */
  function DeltasSince(log: Log, from: nat, k: SessionKey): seq<Struct> {
    if |log| <= from then []
    else
      var op := Last(log).op;
      DeltasSince(Before(log), from, k)
      + if op.AppendOp? && op.key == k then [Split(Incoming(op)).session] else []
  }

  lemma {:induction false} StateSince(log: Log, from: nat, k: SessionKey)
    requires Valid(log) && from <= |log| && OnlyAppends(log, from, k) && k in After(log[..from]).sessions
    ensures k in After(log).sessions
    ensures StateOf(After(log).sessions[k].state) ==
            Fold(StateOf(After(log[..from]).sessions[k].state), DeltasSince(log, from, k))
  {
    hide Valid, After, Split, StateOf, Incoming, Target, Outcome, EventIdOf, EventIds, StoredDeltaAt, Fold;
    if |log| == from {
      assert log[..from] == log;
      FoldOfNothing(StateOf(After(log).sessions[k].state));
    } else {
      var op := Last(log).op;
      assert Before(log)[..from] == log[..from];
      assert forall i | 0 <= i < |Before(log)| :: Before(log)[i] == log[i];
      LastEntry(log);
      StateSince(Before(log), from, k);
      assert log[|log| - 1].op == op;
      var start, deltas := StateOf(After(log[..from]).sessions[k].state), DeltasSince(Before(log), from, k);
      if Target(op) == k {
        TargetOfAppend(op);
        AppendEffect(log);
        FoldOfOneMore(start, deltas, Split(Incoming(op)).session);
      } else {
        OtherTarget(log, k, map[]);
        NotTarget(op, k);
        assert deltas + [] == deltas;
      }
    }
  }

  lemma {:induction false} NotTarget(op: Op, k: SessionKey)
    requires Target(op) != k
    ensures !(op.AppendOp? && op.key == k)
  {
  }

  /** The race of an update with any number of appends: what they brought the state survives
      exactly when each key they set was last set to what the update had read. */
  lemma {:induction false} RacedAppendsSurvive(log: Log)
    requires Valid(log) && log != [] && Last(log).op.UpdateOp?
    requires "state" !in PathsOf(Last(log).op.paths)
    requires OnlyAppends(Before(log), Last(log).op.readAt, Target(Last(log).op))
    ensures var op, k := Last(log).op, Target(Last(log).op);
            var appended := DeltasSince(Before(log), op.readAt, k);
            && k in After(Before(log)).sessions && k in After(log).sessions
            && (StateOf(After(log).sessions[k].state) == StateOf(After(Before(log)).sessions[k].state) <==>
                  forall name | LastSet(appended, name).Some? ::
                    LastSet(appended, name) == Row(StateOf(op.base.state), name))
  {
    hide Valid, After, StateOf, Target, DeltasSince, Fold, LastSet, PathsOf, LastExpiryPath, OnlyAppends;
    var op, k := Last(log).op, Target(Last(log).op);
    UpdateRestoresUnmasked(log);
    UpdateBase(log);
    assert Before(log)[..op.readAt] == log[..op.readAt];
    assert Valid(Before(log)) by { LastEntry(log); }
    StateSince(Before(log), op.readAt, k);
    FoldChangesNothing(StateOf(op.base.state), DeltasSince(Before(log), op.readAt, k));
  }

  /** The race, from any history: an event is appended after an update has read the row and
      before it writes. The event row and the shared deltas survive; the session part of the
      delta survives only if it had nothing new to say. */
  lemma {:induction false} StaleUpdateLosesDelta(log: Log, append: Entry, update: Entry)
    requires Valid(log) && Valid(log + [append]) && append.op.AppendOp?
    requires update.op.UpdateOp? && Ready(update.op) && "state" !in PathsOf(update.op.paths)
    requires update.op.readAt == |log| && RequestKey(update.op) == append.op.key
    requires Row(After(log).sessions, append.op.key) == Some(update.op.base)
    ensures var k, id, end := append.op.key, EventIdOf(append.op.event, append.op.freshId), log + [append, update];
            var delta := Split(Incoming(append.op));
            && Valid(end) && k in After(end).sessions && k in After(log + [append]).sessions
            && EventKey(k, id) in After(end).events
            && Split(StoredDeltaAt(After(end), k, id)) == delta
            && AppStateOf(After(end), k.appName) == AppStateOf(After(log), k.appName) + delta.app
            && UserStateOf(After(end), UserKey(k.appName, k.userId))
               == UserStateOf(After(log), UserKey(k.appName, k.userId)) + delta.user
            && var state := StateOf(After(log).sessions[k].state);
               && StateOf(After(log + [append]).sessions[k].state) == state + delta.session
               && StateOf(After(end).sessions[k].state) == state
  {
    hide Split, Execute, DraftOf, After, Valid, StateOf, Incoming, EventIdOf, Target, Ready, PathsOf;
    var k, u, end := append.op.key, UserKeyOf(append.op.key), log + [append, update];
    var mid := log + [append];
    assert Before(mid) == log && Last(mid) == append;
    assert end == mid + [update] && Before(end) == mid && Last(end) == update;
    assert end[..|log|] == log && mid[..|log|] == log;
    AppendEffect(mid);
    ValidUpdate(mid, update);
    UpdateRestoresUnmasked(end);
    LastEntry(mid);
    TargetOfAppend(append.op);
    AppStep(After(log), append.op, append.at, k.appName);
    UserStep(After(log), append.op, append.at, u);
    UpdateBase(end);
  }

  lemma {:induction false} TargetOfAppend(op: Op)
    requires op.AppendOp?
    ensures Target(op) == op.key
  {
  }

  /** An update never fails once its read and its mask have gone through. */
  lemma {:induction false} ValidUpdate(log: Log, update: Entry)
    requires Valid(log) && update.op.UpdateOp? && Ready(update.op) && ReadsPast(log, update.op)
    ensures Valid(log + [update])
  {
    hide Execute, Ready, ReadsPast;
    assert Before(log + [update]) == log;
    ExecuteMeaning(After(log), update.op, update.at);
  }

  /** The same race with a delete: the update brings the deleted session back, under its old
      creation time but without its events. */
  lemma {:induction false} StaleUpdateRevivesSession(log: Log, delete: Entry, update: Entry)
    requires Valid(log) && Valid(log + [delete]) && delete.op.DeleteOp?
    requires update.op.UpdateOp? && Ready(update.op)
    requires update.op.readAt == |log| && RequestKey(update.op) == delete.op.key
    requires Row(After(log).sessions, delete.op.key) == Some(update.op.base)
    ensures var k, end := delete.op.key, log + [delete, update];
            && Valid(end)
            && k in After(log).sessions && k !in After(log + [delete]).sessions && k in After(end).sessions
            && After(end).sessions[k].createTime == After(log).sessions[k].createTime
            && ("state" !in PathsOf(update.op.paths) ==> After(end).sessions[k].state == After(log).sessions[k].state)
            && forall id :: EventKey(k, id) !in After(end).events
  {
    hide Split, Execute, DraftOf, After, Valid, StateOf, Incoming, PathsOf, AppsAfter, UsersAfter;
    var k, end, mid := delete.op.key, log + [delete, update], log + [delete];
    assert Before(mid) == log && Last(mid) == delete;
    assert end == mid + [update] && Before(end) == mid && Last(end) == update;
    assert end[..|log|] == log && mid[..|log|] == log;
    LastEntry(mid);
    ValidUpdate(mid, update);
    LastEntry(end);
    UpdateBase(end);
    DraftMeaning(update.op.paths, update.op.request, update.op.base, update.op.now);
  }

  /** Of the commits to a session since some point the last one is a delete. */
  predicate DeletedSince(log: Log, from: nat, k: SessionKey) {
    if |log| <= from then false
    else if Target(Last(log).op) == k then Last(log).op.DeleteOp?
    else DeletedSince(Before(log), from, k)
  }

  /** A session that was there is gone exactly if the last commit to it since then deleted it. */
  lemma {:induction false} Presence(log: Log, from: nat, k: SessionKey)
    requires Valid(log) && from <= |log| && k in After(log[..from]).sessions
    ensures k !in After(log).sessions <==> DeletedSince(log, from, k)
  {
    hide Valid, After, Target, Outcome, Error, Ready;
    if |log| == from {
      assert log[..from] == log;
    } else {
      assert Before(log)[..from] == log[..from];
      LastEntry(log);
      Presence(Before(log), from, k);
      PresenceStep(After(Before(log)), Last(log).op, Last(log).at, k);
    }
  }

  lemma {:induction false} PresenceStep(db: Database, op: Op, at: Timestamp, k: SessionKey)
    requires Ready(op) && Error(db, op).None?
    requires forall l | l in db.sessions :: KeyOf(db.sessions[l]) == l
    ensures k in Outcome(db, op, at).sessions <==> if Target(op) == k then !op.DeleteOp? else k in db.sessions
  {
    hide Split, AppsAfter, UsersAfter, EventsAfter;
    if op.UpdateOp? {
      DraftMeaning(op.paths, op.request, op.base, op.now);
    }
  }

  /** An update always leaves its session in place. It brings back one that was deleted exactly
      when the last commit to the session since its read is a delete, and then without events. */
  lemma {:induction false} UpdateRevivesExactly(log: Log)
    requires Valid(log) && log != [] && Last(log).op.UpdateOp?
    ensures var op, k := Last(log).op, Target(Last(log).op);
            && k in After(log).sessions
            && (k !in After(Before(log)).sessions <==> DeletedSince(Before(log), op.readAt, k))
            && (DeletedSince(Before(log), op.readAt, k) ==> forall id :: EventKey(k, id) !in After(log).events)
  {
    hide Valid, After, Target, DeletedSince, PathsOf, LastExpiryPath, Coherent, Outcome;
    var op, k := Last(log).op, Target(Last(log).op);
    LastEntry(log);
    UpdateRestoresUnmasked(log);
    UpdateBase(log);
    assert Before(log)[..op.readAt] == log[..op.readAt];
    Presence(Before(log), op.readAt, k);
    HistoryIsCoherent(Before(log));
    if k !in After(Before(log)).sessions {
      NoSessionNoEvents(After(Before(log)), k);
    }
  }

  lemma {:induction false} NoSessionNoEvents(db: Database, k: SessionKey)
    requires Coherent(db) && k !in db.sessions
    ensures forall id :: EventKey(k, id) !in db.events
  {
  }
}
