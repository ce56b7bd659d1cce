/** The store's operations as transactions: the rows an attempt reads, the mutations it buffers
    from them, and what a commit does to the four tables (spanner.go). */
module Transactions {
  import opened Wrappers
  import opened Values
  import opened Timestamps
  import opened Messages
  import opened ScopedState
  import opened Tables
  import opened UpdateMask

  /** A call that has reached its transaction. An update carries the session row it read
      beforehand, outside the transaction, and how many commits preceded that read. */
  datatype Op =
    | CreateOp(input: Session, id: string, now: Instant)
    | AppendOp(key: SessionKey, event: PbEvent, freshId: string, now: Instant)
    | DeleteOp(key: SessionKey)
    | UpdateOp(request: Session, paths: seq<string>, now: Instant, base: Session, readAt: nat)

  // What is computed before the transaction

  /** normalizeSession and the stamps createSession adds. */
  function NewSession(input: Session, id: string, now: Instant): Session {
    var stamp := Some(NewTimestamp(now));
    input.(id := id,
           state := SomeState(Split(StateOf(input.state)).session),
           expiration := if input.expiration.Ttl? then ExpiryOfTtl(input, now) else input.expiration,
           createTime := stamp,
           updateTime := stamp)
  }

  /** The delta of an event as it arrives. */
  function DeltaOf(e: PbEvent): Struct {
    match e.actions case None => map[] case Some(a) => StateOf(a.stateDelta)
  }

  function EventIdOf(input: PbEvent, freshId: string): string {
    if input.id != "" then input.id else freshId
  }

  /** The event row appendEvent writes. */
  function StoredEvent(key: SessionKey, input: PbEvent, freshId: string, now: Instant): PbEvent {
    PbEvent(EventIdOf(input, freshId), key.sessionId, key.appName, key.userId,
            if input.timestamp.Some? then input.timestamp else Some(NewTimestamp(now)),
            match input.actions
            case None => None
            case Some(a) => Some(a.(stateDelta := SomeState(TrimTemp(DeltaOf(input))))),
            input.body)
  }

  /** The session row appendEvent writes. */
  function Appended(row: Session, e: PbEvent): Session {
    row.(state := SomeState(StateOf(row.state) + Split(DeltaOf(e)).session), updateTime := e.timestamp)
  }

  /** What the handlers check before they start a transaction. */
  predicate Ready(op: Op) {
    match op
    case CreateOp(input, id, _) => input.appName != "" && input.userId != "" && id != ""
    case AppendOp(_, input, freshId, _) => EventIdOf(input, freshId) != ""
    case DeleteOp(_) => true
    case UpdateOp(request, paths, now, base, _) => DraftOf(paths, request, base, now).Ok?
  }

  /** The session row an operation is about. */
  function Target(op: Op): SessionKey {
    match op
    case CreateOp(input, id, _) => SessionKey(id, input.appName, input.userId)
    case AppendOp(key, _, _, _) => key
    case DeleteOp(key) => key
    case UpdateOp(_, _, _, base, _) => KeyOf(base)
  }

  /** Everything the caller asked to be merged into state, in one flat map. */
  function Incoming(op: Op): Struct {
    match op
    case CreateOp(input, _, _) => StateOf(input.state)
    case AppendOp(_, input, _, _) => DeltaOf(input)
    case DeleteOp(_) => map[]
    case UpdateOp(request, paths, _, _, _) => if "state" in PathsOf(paths) then StateOf(request.state) else map[]
  }

  function AppDelta(op: Op): Struct {
    Split(Incoming(op)).app
  }

  function UserDelta(op: Op): Struct {
    Split(Incoming(op)).user
  }

  // One attempt

  /** The rows an attempt may read. */
  datatype Reads = Reads(session: Option<Session>, app: Option<AppState>, user: Option<UserState>)

  function ReadsOf(db: Database, key: SessionKey): Reads {
    Reads(Row(db.sessions, key), Row(db.apps, key.appName), Row(db.users, UserKey(key.appName, key.userId)))
  }

  function AppStruct(r: Reads): Struct {
    match r.app case None => map[] case Some(a) => a.state
  }

  function UserStruct(r: Reads): Struct {
    match r.user case None => map[] case Some(u) => u.state
  }

  /** scopedStateMutations: a row is only written when its delta is not empty. */
  function ScopedMutations(
      key: SessionKey, r: Reads, appDelta: Struct, userDelta: Struct, at: Timestamp): seq<Mutation> {
    (if appDelta == map[] then [] else [PutApp(AppState(key.appName, AppStruct(r) + appDelta, at))])
    + (if userDelta == map[] then []
       else [PutUser(UserState(key.appName, key.userId, UserStruct(r) + userDelta, at))])
  }

  /** The body of an operation's transaction: from the rows it reads, the mutations it buffers.
      Every part of the delta is computed the way its handler does. */
  function Body(op: Op, r: Reads, at: Timestamp): Result<seq<Mutation>>
    requires Ready(op)
  {
    match op
    case CreateOp(input, id, now) =>
      var parts := Split(StateOf(input.state));
      Ok(ScopedMutations(Target(op), r, parts.app, parts.user, at) + [InsertSession(NewSession(input, id, now))])
    case AppendOp(key, input, freshId, now) =>
      var event := StoredEvent(key, input, freshId, now);
      var parts := Split(TrimTemp(DeltaOf(input)));
      if r.session.None? then Err(NotFound)
      else
        Ok(ScopedMutations(key, r, parts.app, parts.user, at)
           + [PutSession(Appended(r.session.value, event)), InsertEvent(event)])
    case DeleteOp(key) =>
      Ok([DeleteSession(key), DeleteEvents(key)])
    case UpdateOp(request, paths, now, base, _) =>
      var d := DraftOf(paths, request, base, now).value;
      Ok(ScopedMutations(KeyOf(d.next), r, d.appDelta, d.userDelta, at) + [PutSession(d.next)])
  }

  /** A transaction that runs alone: read, buffer, commit. */
  function Execute(db: Database, op: Op, at: Timestamp): Result<Database>
    requires Ready(op)
  {
    var muts :- Body(op, ReadsOf(db, Target(op)), at);
    match ApplyAll(db, muts)
    case None => Err(AlreadyExists)
    case Some(next) => Ok(next)
  }

  // What a transaction does, table by table

  function Error(db: Database, op: Op): Option<Status> {
    match op
    case CreateOp(_, _, _) => if Target(op) in db.sessions then Some(AlreadyExists) else None
    case AppendOp(key, input, freshId, _) =>
      if key !in db.sessions then Some(NotFound)
      else if EventKey(key, EventIdOf(input, freshId)) in db.events then Some(AlreadyExists)
      else None
    case _ => None
  }

  function SessionsAfter(db: Database, op: Op): map<SessionKey, Session>
    requires Ready(op) && Error(db, op).None?
  {
    match op
    case CreateOp(input, id, now) => db.sessions[Target(op) := NewSession(input, id, now)]
    case AppendOp(key, input, freshId, now) =>
      var row := Appended(db.sessions[key], StoredEvent(key, input, freshId, now));
      db.sessions[KeyOf(row) := row]
    case DeleteOp(key) => db.sessions - {key}
    case UpdateOp(request, paths, now, base, _) =>
      db.sessions[KeyOf(base) := DraftOf(paths, request, base, now).value.next]
  }

  function EventsAfter(db: Database, op: Op): map<EventKey, PbEvent> {
    match op
    case AppendOp(key, input, freshId, now) =>
      db.events[EventKey(key, EventIdOf(input, freshId)) := StoredEvent(key, input, freshId, now)]
    case DeleteOp(key) => map e | e in db.events && e.session != key :: db.events[e]
    case _ => db.events
  }

  function AppsAfter(db: Database, op: Op, at: Timestamp): map<string, AppState> {
    var app := Target(op).appName;
    if AppDelta(op) == map[] then db.apps
    else db.apps[app := AppState(app, AppStruct(ReadsOf(db, Target(op))) + AppDelta(op), at)]
  }

  function UsersAfter(db: Database, op: Op, at: Timestamp): map<UserKey, UserState> {
    var key := Target(op);
    if UserDelta(op) == map[] then db.users
    else db.users[UserKey(key.appName, key.userId) :=
                  UserState(key.appName, key.userId, UserStruct(ReadsOf(db, key)) + UserDelta(op), at)]
  }

  function Outcome(db: Database, op: Op, at: Timestamp): Database
    requires Ready(op) && Error(db, op).None?
  {
    Database(SessionsAfter(db, op), EventsAfter(db, op), AppsAfter(db, op, at), UsersAfter(db, op, at))
  }

  /** The meaning of a transaction run alone: when it fails, and the content of every table when
      it does not. The app and user rows of its own target are the only shared rows it can
      change, by exactly its own delta. */
  lemma {:induction false} ExecuteMeaning(db: Database, op: Op, at: Timestamp)
    requires Ready(op)
    ensures Execute(db, op, at) ==
            if Error(db, op).Some? then Err(Error(db, op).value)
            else Ok(Outcome(db, op, at))
  {
    hide Split, TrimTemp, DraftOf;
    match op
    case CreateOp(input, id, now) =>
      var d := Split(StateOf(input.state));
      CommitScoped(db, Target(op), d.app, d.user, at, [InsertSession(NewSession(input, id, now))]);
    case AppendOp(_, _, _, _) =>
      AppendMeaning(db, op, at);
    case DeleteOp(key) =>
      SplitOfNothing<Value>();
      CommitTwo(db, DeleteSession(key), DeleteEvents(key));
    case UpdateOp(request, paths, now, base, _) =>
      var d := DraftOf(paths, request, base, now).value;
      DraftMeaning(paths, request, base, now);
      CommitScoped(db, KeyOf(base), d.appDelta, d.userDelta, at, [PutSession(d.next)]);
      SplitOfNothing<Value>();
  }

  lemma {:induction false} AppendMeaning(db: Database, op: Op, at: Timestamp)
    requires op.AppendOp? && Ready(op)
    ensures Execute(db, op, at) ==
            if Error(db, op).Some? then Err(Error(db, op).value)
            else Ok(Outcome(db, op, at))
  {
    hide Split, TrimTemp, ApplyAll;
    var key := op.key;
    if key in db.sessions {
      SplitIgnoresTemp(DeltaOf(op.event));
      var d := Split(TrimTemp(DeltaOf(op.event)));
      var event := StoredEvent(key, op.event, op.freshId, op.now);
      var put, insert := PutSession(Appended(db.sessions[key], event)), InsertEvent(event);
      CommitScoped(db, key, d.app, d.user, at, [put, insert]);
      CommitTwo(ScopedWrites(db, key, d.app, d.user, at), put, insert);
    }
  }

  lemma {:induction false} CommitTwo(db: Database, a: Mutation, b: Mutation)
    ensures ApplyAll(db, [a, b]) == match Apply(db, a) case None => None case Some(next) => Apply(next, b)
  {
    hide Apply;
    assert [a, b][1..] == [b];
    if Apply(db, a).Some? {
      assert ApplyAll(Apply(db, a).value, [b]) == Apply(Apply(db, a).value, b);
    }
  }

  lemma {:induction false} DraftMeaning(paths: seq<string>, request: Session, base: Session, now: Instant)
    requires DraftOf(paths, request, base, now).Ok?
    ensures var d := DraftOf(paths, request, base, now).value;
            var parts := Split(StateOf(request.state));
            && KeyOf(d.next) == KeyOf(base)
            && d.appDelta == (if "state" in PathsOf(paths) then parts.app else map[])
            && d.userDelta == (if "state" in PathsOf(paths) then parts.user else map[])
            && d.next.state == (if "state" in PathsOf(paths) then SomeState(parts.session) else base.state)
            && d.next.displayName ==
               (if "display_name" in PathsOf(paths) then request.displayName else base.displayName)
            && d.next.createTime == base.createTime
  {
    hide Split;
    MaskMeaning(PathsOf(paths), request, base, now);
  }

  /** The tables once the shared rows are written. */
  function ScopedWrites(db: Database, key: SessionKey, appDelta: Struct, userDelta: Struct, at: Timestamp): Database {
    var r := ReadsOf(db, key);
    db.(apps := if appDelta == map[] then db.apps
                else db.apps[key.appName := AppState(key.appName, AppStruct(r) + appDelta, at)],
        users := if userDelta == map[] then db.users
                 else db.users[UserKey(key.appName, key.userId) :=
                               UserState(key.appName, key.userId, UserStruct(r) + userDelta, at)])
  }

  /** The scoped mutations never fail, and commit before the rest of the list. */
  lemma {:induction false} CommitScoped(
      db: Database, key: SessionKey, appDelta: Struct, userDelta: Struct, at: Timestamp, rest: seq<Mutation>)
    ensures ApplyAll(db, ScopedMutations(key, ReadsOf(db, key), appDelta, userDelta, at) + rest) ==
            ApplyAll(ScopedWrites(db, key, appDelta, userDelta, at), rest)
  {
    var r := ReadsOf(db, key);
    var app := PutApp(AppState(key.appName, AppStruct(r) + appDelta, at));
    var user := PutUser(UserState(key.appName, key.userId, UserStruct(r) + userDelta, at));
    var userPart := if userDelta == map[] then [] else [user];
    var muts := ScopedMutations(key, r, appDelta, userDelta, at) + rest;
    if appDelta == map[] {
      assert muts == userPart + rest;
    } else {
      assert muts[1..] == userPart + rest;
    }
    if userDelta != map[] {
      assert (userPart + rest)[1..] == rest;
    } else {
      assert userPart + rest == rest;
    }
  }

  /** No operation touches another app's state, another user's state or another session's row,
      and a delete touches no shared row at all. */
  lemma {:induction false} ExecuteFrame(db: Database, op: Op, at: Timestamp)
    requires Ready(op) && Execute(db, op, at).Ok?
    requires Target(op) in db.sessions ==> KeyOf(db.sessions[Target(op)]) == Target(op)
    ensures var next := Execute(db, op, at).value;
            && (forall app | app != Target(op).appName :: Row(next.apps, app) == Row(db.apps, app))
            && (forall u | u != UserKey(Target(op).appName, Target(op).userId) ::
                  Row(next.users, u) == Row(db.users, u))
            && (forall k | k != Target(op) :: Row(next.sessions, k) == Row(db.sessions, k))
            && (forall e: EventKey | e.session != Target(op) :: Row(next.events, e) == Row(db.events, e))
            && (op.DeleteOp? ==> next.apps == db.apps && next.users == db.users)
  {
    hide Split, DraftOf, TrimTemp;
    ExecuteMeaning(db, op, at);
    SplitOfNothing<Value>();
  }

  // What a caller sees of a transaction, read off what it passed in

  /** The row of a new session. */
  ghost predicate IsNewRow(input: Session, id: string, now: Instant, row: Session) {
    && row.id == id && row.appName == input.appName && row.userId == input.userId
    && row.displayName == input.displayName
    && row.createTime.Some? && AsTime(row.createTime.value) == now && row.updateTime == row.createTime
    && IsSessionPart(StateOf(input.state), StateOf(row.state)) && row.state != Some(map[])
    && match input.expiration
       case Ttl(Some(ttl)) => row.expiration.ExpireTime? && AsTime(row.expiration.at) == now + ttl
       case Ttl(None) => row.expiration == NoExpiration
       case _ => row.expiration == input.expiration
  }

  lemma {:induction false} NewSessionIs(input: Session, id: string, now: Instant)
    ensures IsNewRow(input, id, now, NewSession(input, id, now))
  {
    hide Split, IsSessionPart;
    SessionPartOf(StateOf(input.state));
    InstantRoundTrip(now);
    if input.expiration.Ttl? && input.expiration.ttl.Some? {
      InstantRoundTrip(now + input.expiration.ttl.value);
    }
  }

  /** An event as it is stored: as it came, but for the ids of its session, an id and a time if it
      had none, and the "temp:" keys of its delta. */
  ghost predicate IsStored(key: SessionKey, input: PbEvent, freshId: string, now: Instant, e: PbEvent) {
    && e.sessionId == key.sessionId && e.appName == key.appName && e.userId == key.userId
    && e.id == (if input.id == "" then freshId else input.id)
    && (if input.timestamp.Some? then e.timestamp == input.timestamp
        else e.timestamp.Some? && AsTime(e.timestamp.value) == now)
    && e.body == input.body
    && (input.actions.None? ==> e.actions.None?)
    && (input.actions.Some? ==>
          && e.actions.Some?
          && e.actions.value.(stateDelta := input.actions.value.stateDelta) == input.actions.value
          && e.actions.value.stateDelta != Some(map[])
          && forall k: string ::
               Row(StateOf(e.actions.value.stateDelta), k) ==
               if "temp:" <= k then None else Row(StateOf(input.actions.value.stateDelta), k))
  }

  lemma {:induction false} StoredEventIs(key: SessionKey, input: PbEvent, freshId: string, now: Instant)
    ensures IsStored(key, input, freshId, now, StoredEvent(key, input, freshId, now))
  {
    InstantRoundTrip(now);
    if input.actions.Some? {
      var d := TrimTemp(DeltaOf(input));
      assert StateOf(SomeState(d)) == d;
    }
  }

  /** The row of a session after an append: the event's time, the session's own keys of the delta
      written over its state, and all else as it was. */
  ghost predicate IsAppendedTo(row: Session, e: PbEvent, delta: Struct, next: Session) {
    && next.id == row.id && next.appName == row.appName && next.userId == row.userId
    && next.displayName == row.displayName && next.expiration == row.expiration && next.createTime == row.createTime
    && next.updateTime == e.timestamp
    && forall k: string ::
         Row(StateOf(next.state), k) ==
         if k in delta && !("app:" <= k) && !("user:" <= k) && !("temp:" <= k) then Some(delta[k])
         else Row(StateOf(row.state), k)
  }

  lemma {:induction false} AppendedIs(
      row: Session, key: SessionKey, input: PbEvent, freshId: string, now: Instant)
    ensures var e := StoredEvent(key, input, freshId, now);
            IsAppendedTo(row, e, DeltaOf(input), Appended(row, e))
  {
    hide Split, TrimTemp;
    var e, delta := StoredEvent(key, input, freshId, now), DeltaOf(input);
    assert Split(DeltaOf(e)).session == Split(delta).session by { StoredSessionPart(key, input, freshId, now); }
    assert StateOf(Appended(row, e).state) == StateOf(row.state) + Split(delta).session;
    forall k: string
      ensures Row(StateOf(Appended(row, e).state), k) ==
              if k in delta && !("app:" <= k) && !("user:" <= k) && !("temp:" <= k) then Some(delta[k])
              else Row(StateOf(row.state), k)
    {
      SplitAt(delta, k);
    }
  }

  lemma {:induction false} StoredSessionPart(key: SessionKey, input: PbEvent, freshId: string, now: Instant)
    ensures Split(DeltaOf(StoredEvent(key, input, freshId, now))).session == Split(DeltaOf(input)).session
  {
    hide Split;
    var d := DeltaOf(input);
    SplitIgnoresTemp(d);
    assert StateOf(SomeState(TrimTemp(d))) == TrimTemp(d);
    if input.actions.None? {
      assert TrimTemp(d) == d;
    }
  }

  /** What any transaction leaves in the shared rows of its session, read off the state it was
      given. */
  lemma {:induction false} OutcomeShared(db: Database, op: Op, at: Timestamp)
    requires Ready(op) && Error(db, op).None?
    ensures SharedWritten(db, Outcome(db, op, at), Target(op), Incoming(op), at)
  {
    hide Split, SessionsAfter, EventsAfter, Target, Incoming;
    var incoming := Incoming(op);
    OverlaidBy(AppStateOf(db, Target(op).appName), UserStateOf(db, UserKeyOf(Target(op))), incoming);
    PartIsThere(incoming);
  }

  lemma {:induction false} OverlaidBy(app: Struct, user: Struct, incoming: Struct)
    ensures Overlaid(app, incoming, "app:", app + Split(incoming).app)
    ensures Overlaid(user, incoming, "user:", user + Split(incoming).user)
  {
    hide Split;
    forall k: string
      ensures Row(app + Split(incoming).app, k) ==
              if "app:" + k in incoming then Some(incoming["app:" + k]) else Row(app, k)
      ensures Row(user + Split(incoming).user, k) ==
              if "user:" + k in incoming then Some(incoming["user:" + k]) else Row(user, k)
    {
      SplitAt(incoming, k);
    }
  }

  lemma {:induction false} PartIsThere(incoming: Struct)
    ensures Split(incoming).app != map[] <==> exists k: string :: "app:" + k in incoming
    ensures Split(incoming).user != map[] <==> exists k: string :: "user:" + k in incoming
  {
    hide Split;
    var parts := Split(incoming);
    forall k: string
      ensures k in parts.app <==> "app:" + k in incoming
      ensures k in parts.user <==> "user:" + k in incoming
    {
      SplitAt(incoming, k);
    }
    if parts.app != map[] {
      var k :| k in parts.app;
      assert "app:" + k in incoming;
    }
    if parts.user != map[] {
      var k :| k in parts.user;
      assert "user:" + k in incoming;
    }
  }

  /** A committed append, read off its arguments. */
  lemma {:induction false} AppendSeen(db: Database, op: Op, at: Timestamp)
    requires op.AppendOp? && Ready(op) && Error(db, op).None?
    ensures var next, e := Outcome(db, op, at), StoredEvent(op.key, op.event, op.freshId, op.now);
            && IsStored(op.key, op.event, op.freshId, op.now, e)
            && EventKey(op.key, e.id) !in db.events && next.events == db.events[EventKey(op.key, e.id) := e]
            && SharedWritten(db, next, op.key, DeltaOf(op.event), at)
            && op.key in db.sessions
            && (KeyOf(db.sessions[op.key]) == op.key ==>
                  && op.key in next.sessions && next.sessions == db.sessions[op.key := next.sessions[op.key]]
                  && IsAppendedTo(db.sessions[op.key], e, DeltaOf(op.event), next.sessions[op.key]))
  {
    hide IsStored, SharedWritten, IsAppendedTo, AppsAfter, UsersAfter, Split, TrimTemp, DeltaOf;
    StoredEventIs(op.key, op.event, op.freshId, op.now);
    OutcomeShared(db, op, at);
    AppendedIs(db.sessions[op.key], op.key, op.event, op.freshId, op.now);
  }

  /** A committed update, read off its arguments and the row it read. */
  lemma {:induction false} UpdateSeen(db: Database, op: Op, at: Timestamp)
    requires op.UpdateOp? && Ready(op)
    ensures var next, k := Outcome(db, op, at), KeyOf(op.base);
            && next.events == db.events && k in next.sessions
            && next.sessions == db.sessions[k := next.sessions[k]]
            && next.sessions[k] == DraftOf(op.paths, op.request, op.base, op.now).value.next
            && IsUpdated(op.paths, op.request, op.now, op.base, next.sessions[k])
            && SharedWritten(
                 db, next, k,
                 if op.paths == [] || "state" in op.paths then StateOf(op.request.state) else map[], at)
  {
    hide IsUpdated, SharedWritten, AppsAfter, UsersAfter, Split, DraftOf, StateOf;
    DraftIsUpdated(op.paths, op.request, op.base, op.now);
    OutcomeShared(db, op, at);
    assert "state" in PathsOf(op.paths) <==> op.paths == [] || "state" in op.paths by { StateIsAsked(op.paths); }
  }

  lemma {:induction false} StateIsAsked(paths: seq<string>)
    ensures "state" in PathsOf(paths) <==> paths == [] || "state" in paths
  {
    assert DEFAULT_PATHS[1] == "state";
  }
}
