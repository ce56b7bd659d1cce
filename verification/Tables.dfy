/** The four tables of the store, and the mutations a transaction buffers. */
module Tables {
  import opened Wrappers
  import opened Values
  import opened Timestamps
  import opened Messages

  /** The expiration oneof of a session. */
  datatype Expiration = NoExpiration | ExpireTime(at: Timestamp) | Ttl(ttl: Option<int>)

  /** pb.Session. */
  datatype Session = Session(
    id: string,
    appName: string,
    userId: string,
    displayName: string,
    state: Option<Struct>,
    expiration: Expiration,
    createTime: Option<Timestamp>,
    updateTime: Option<Timestamp>)

  datatype AppState = AppState(appName: string, state: Struct, updateTime: Timestamp)

  datatype UserState = UserState(appName: string, userId: string, state: Struct, updateTime: Timestamp)

  datatype UserKey = UserKey(appName: string, userId: string)

  datatype EventKey = EventKey(session: SessionKey, eventId: string)

  datatype Database = Database(
    sessions: map<SessionKey, Session>,
    events: map<EventKey, PbEvent>,
    apps: map<string, AppState>,
    users: map<UserKey, UserState>)

  const EMPTY := Database(map[], map[], map[], map[])

  /** The key inside a session's proto. */
  function KeyOf(s: Session): SessionKey {
    SessionKey(s.id, s.appName, s.userId)
  }

  /** The key inside an event's proto. */
  function EventKeyOf(e: PbEvent): EventKey {
    EventKey(SessionKey(e.sessionId, e.appName, e.userId), e.id)
  }

  /** structMap of a state field, nil or not. */
  function StateOf(s: Option<Struct>): Struct {
    match s case None => map[] case Some(fields) => fields
  }

  /** structOrNil of plain state. */
  function SomeState(s: Struct): Option<Struct> {
    if s == map[] then None else Some(s)
  }

  datatype Mutation =
    | InsertSession(session: Session)
    | PutSession(session: Session)
    | InsertEvent(event: PbEvent)
    | PutApp(app: AppState)
    | PutUser(user: UserState)
    | DeleteSession(key: SessionKey)
    | DeleteEvents(prefix: SessionKey)

  /** One mutation; None when an insert meets an existing key. Rows are keyed by the ids in the
      proto that is written. */
  function Apply(db: Database, m: Mutation): Option<Database> {
    match m
    case InsertSession(s) =>
      if KeyOf(s) in db.sessions then None else Some(db.(sessions := db.sessions[KeyOf(s) := s]))
    case PutSession(s) => Some(db.(sessions := db.sessions[KeyOf(s) := s]))
    case InsertEvent(e) =>
      if EventKeyOf(e) in db.events then None else Some(db.(events := db.events[EventKeyOf(e) := e]))
    case PutApp(a) => Some(db.(apps := db.apps[a.appName := a]))
    case PutUser(u) => Some(db.(users := db.users[UserKey(u.appName, u.userId) := u]))
    case DeleteSession(k) => Some(db.(sessions := db.sessions - {k}))
    case DeleteEvents(k) => Some(db.(events := map e | e in db.events && e.session != k :: db.events[e]))
  }

  /** A commit: all the buffered mutations in order, or none of them. */
  function ApplyAll(db: Database, muts: seq<Mutation>): Option<Database>
    decreases |muts|
  {
    if muts == [] then Some(db)
    else
      match Apply(db, muts[0])
      case None => None
      case Some(next) => ApplyAll(next, muts[1..])
  }

  // Shared rows

  function AppStateOf(db: Database, app: string): Struct {
    if app in db.apps then db.apps[app].state else map[]
  }

  function UserKeyOf(k: SessionKey): UserKey {
    UserKey(k.appName, k.userId)
  }

  function UserStateOf(db: Database, u: UserKey): Struct {
    if u in db.users then db.users[u].state else map[]
  }

  /** A map with the entries under a prefix written over it, under their names without it. */
  ghost predicate Overlaid(before: Struct, incoming: Struct, prefix: string, after: Struct) {
    forall k: string :: Row(after, k) == if prefix + k in incoming then Some(incoming[prefix + k]) else Row(before, k)
  }

  /** The app and the user row of a session after incoming state was written: overwritten by the
      entries under their prefixes and stamped, or not touched if there are none. */
  ghost predicate SharedWritten(db: Database, next: Database, key: SessionKey, incoming: Struct, at: Timestamp) {
    var app, u := key.appName, UserKey(key.appName, key.userId);
    && Overlaid(AppStateOf(db, app), incoming, "app:", AppStateOf(next, app))
    && Overlaid(UserStateOf(db, u), incoming, "user:", UserStateOf(next, u))
    && (if exists k: string :: "app:" + k in incoming
        then app in next.apps && next.apps[app].appName == app && next.apps[app].updateTime == at
        else Row(next.apps, app) == Row(db.apps, app))
    && (if exists k: string :: "user:" + k in incoming
        then && u in next.users && next.users[u].appName == app && next.users[u].userId == key.userId
             && next.users[u].updateTime == at
        else Row(next.users, u) == Row(db.users, u))
  }

  /** The part of incoming state that is the session's own. */
  ghost predicate IsSessionPart(incoming: Struct, state: Struct) {
    forall k: string ::
      Row(state, k) == if "app:" <= k || "user:" <= k || "temp:" <= k then None else Row(incoming, k)
  }
}
