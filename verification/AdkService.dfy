/** ADKService and DatabaseSession as objects (adk_service.go): the handle changes in place, and so
    does the caller's event when it lacks an id or a time. */
module AdkService {
  import opened Wrappers
  import opened Values
  import opened Sanitizing
  import opened Timestamps
  import opened Messages
  import opened Events
  import opened ScopedState
  import opened Tables
  import opened Transactions
  import opened History
  import opened EventWindow
  import opened Listing
  import opened LiveSession
  import opened SpannerService

  /** The event a caller passes by pointer. */
  class CallerEvent {
    var value: Event

    constructor (value: Event)
      ensures this.value == value
    {
      this.value := value;
    }
  }

  class DatabaseSession {
    const key: SessionKey
    var updateTime: Instant
    var state: map<string, GoValue>
    var events: seq<Event>

    function View(): View
      reads this
    {
      LiveSession.View(key, updateTime, state, events)
    }

    /** newDatabaseSession. */
    constructor (row: Session, events: seq<Event>, app: Struct, user: Struct)
      ensures View() == NewView(row, events, app, user)
    {
      hide Merge, AsMap;
      var merged := MergeStateMaps(AsMap(app), AsMap(user), AsMap(StateOf(row.state)));
      key := KeyOf(row);
      updateTime := TimeFromProto(row.updateTime);
      state := merged;
      this.events := events;
    }

    /** DatabaseSession.appendEvent. */
    method RecordEvent(event: Event)
      modifies this
      ensures View() == Recorded(old(View()), event)
      ensures events == old(events) + [event] && updateTime == event.timestamp
      ensures forall k: string :: Row(state, k) ==
                if k in Entries(event.actions.stateDelta) then Some(Entries(event.actions.stateDelta)[k])
                else Row(old(state), k)
    {
      events := events + [event];
      updateTime := event.timestamp;
      state := state + Entries(event.actions.stateDelta);
    }
  }

  /** The session row Create asks for. */
  function NewRequest(id: string, appName: string, userId: string, state: Option<Struct>): Session {
    Session(id, appName, userId, "", state, NoExpiration, None, None)
  }

  /** The tables and the session row after a create. */
  datatype Creation = Creation(db: Database, row: Session)

  function CreateOutcome(db: Database, id: string, appName: string, userId: string, state: GoDict, freshId: NewId,
                         now: Instant, at: Timestamp): Result<Creation>
  {
    var stored :- StoreDict(state);
    if appName == "" || userId == "" then Err(InvalidArgument)
    else
      SessionIdMeaning(id, id, freshId);
      var op := CreateOp(NewRequest(id, appName, userId, stored), SessionIdFor(id, id, freshId), now);
      var next :- Execute(db, op, at);
      Ok(Creation(next, NewSession(op.input, op.id, now)))
  }

  /** What the caller of a create is given. */
  function FirstView(c: Creation): View {
    NewView(c.row, [], AppStateOf(c.db, c.row.appName), UserStateOf(c.db, UserKeyOf(KeyOf(c.row))))
  }

  /** The state of a new handle: what was asked for, as it reads back and without "temp:" keys,
      over the app and user state there was. */
  ghost predicate IsFirstState(app: Struct, user: Struct, request: map<string, GoValue>, state: map<string, GoValue>) {
    forall k: string ::
      Row(state, k) ==
      if k in request && !("temp:" <= k) then Some(ReadBack(request[k]))
      else if "app:" <= k && k[4..] in app then Some(AsInterface(app[k[4..]]))
      else if "user:" <= k && k[5..] in user then Some(AsInterface(user[k[5..]]))
      else None
  }

  /** Created rows and states that hold the parts of a request merge into the first state. */
  lemma {:induction false} FirstStateIs(
      app: Struct, user: Struct, request: GoDict, newApp: Struct, newUser: Struct, session: Struct)
    requires StoreDict(request).Ok?
    requires var incoming := StateOf(StoreDict(request).value);
             && Overlaid(app, incoming, "app:", newApp) && Overlaid(user, incoming, "user:", newUser)
             && IsSessionPart(incoming, session)
    ensures IsFirstState(app, user, Entries(request), Merge(AsMap(newApp), AsMap(newUser), AsMap(session)))
  {
    hide Merge, AsInterface, NewValue, Sanitized, StoreDict, ReadBack;
    var incoming := StateOf(StoreDict(request).value);
    var state := Merge(AsMap(newApp), AsMap(newUser), AsMap(session));
    StoredEntriesReadBack(request);
    forall k: string
      ensures Row(state, k) ==
              if k in Entries(request) && !("temp:" <= k) then Some(ReadBack(Entries(request)[k]))
              else if "app:" <= k && k[4..] in app then Some(AsInterface(app[k[4..]]))
              else if "user:" <= k && k[5..] in user then Some(AsInterface(user[k[5..]]))
              else None
    {
      MergeAt(AsMap(newApp), AsMap(newUser), AsMap(session), k);
      PrefixesAreExclusive(k);
      if "app:" <= k {
        assert k == "app:" + k[4..];
        assert Row(newApp, k[4..]) == if k in incoming then Some(incoming[k]) else Row(app, k[4..]);
      } else if "user:" <= k {
        assert k == "user:" + k[5..];
        assert Row(newUser, k[5..]) == if k in incoming then Some(incoming[k]) else Row(user, k[5..]);
      }
      assert Row(session, k) == if "app:" <= k || "user:" <= k || "temp:" <= k then None else Row(incoming, k);
    }
  }

  lemma {:induction false} StoredEntriesReadBack(d: GoDict)
    requires StoreDict(d).Ok?
    ensures var incoming := StateOf(StoreDict(d).value);
            && incoming.Keys == Entries(d).Keys
            && forall k | k in incoming :: AsInterface(incoming[k]) == ReadBack(Entries(d)[k])
  {
    hide AsInterface, NewValue, Sanitized, StoreDict;
    StoreDictEntries(d);
  }

  class ADKService {
    const store: Store
    const enums: EventEnums

    constructor (store: Store, enums: EventEnums)
      ensures this.store == store && this.enums == enums
    {
      this.store, this.enums := store, enums;
    }

    /** Create. The handle it returns is what a Get right after it would return. */
    method Create(
        id: string, appName: string, userId: string, state: GoDict, freshId: NewId, now: Instant, at: Timestamp)
      returns (r: Result<DatabaseSession>)
      modifies store
      ensures match CreateOutcome(old(store.Contents()), id, appName, userId, state, freshId, now, at)
              case Err(e) => r == Err(e) && store.Contents() == old(store.Contents())
              case Ok(c) =>
                && store.Contents() == c.db
                && r.Ok? && fresh(r.value) && r.value.View() == FirstView(c)
      ensures r.Ok? && Coherent(old(store.Contents())) ==>
                forall after, numRecent ::
                  FreshGet(enums, store.Contents(), r.value.key, after, numRecent) == Ok(r.value.View())
      ensures r.Ok? ==>
                && r.value.key.appName == appName && r.value.key.userId == userId
                && r.value.key.sessionId == (if TrimSpace(id) != "" then TrimSpace(id) else freshId)
                && r.value.key in store.sessions && r.value.key !in old(store.sessions)
                && r.value.updateTime == now && r.value.events == []
                && IsFirstState(AppStateOf(old(store.Contents()), appName),
                                UserStateOf(old(store.Contents()), UserKey(appName, userId)), Entries(state),
                                r.value.state)
    {
      hide IsFirstState, StoreDict, Execute, SessionIdFor, Merge, AsMap, NewSession, FreshGet, Coherent;
      var stored := StoreMap(state);
      if stored.Err? {
        return Err(stored.status);
      }
      ghost var before := store.Contents();
      var request := NewRequest(id, appName, userId, stored.value);
      var created := store.CreateSession(Some(request), id, freshId, now, at);
      if created.Err? {
        return Err(created.status);
      }
      ghost var op := CreateOp(request, SessionIdFor(id, id, freshId), now);
      var c := created.value;
      CreatedRow(before, op, at);
      FirstStateIs(
        AppStateOf(before, appName), UserStateOf(before, UserKey(appName, userId)), state, c.appState, c.userState,
        StateOf(c.session.state));
      ghost var creation := Creation(store.Contents(), c.session);
      var sess := new DatabaseSession(c.session, [], c.appState, c.userState);
      if Coherent(before) {
        forall after, numRecent
          ensures FreshGet(enums, store.Contents(), sess.key, after, numRecent) == Ok(sess.View())
        {
          CreatedIsFresh(enums, before, op, at, after, numRecent);
          assert sess.View() == FirstView(creation);
        }
      }
      return Ok(sess);
    }

    /** Get, given what the database answers to the event query. */
    method Get(
        key: SessionKey, after: Instant, numRecent: int, answer: seq<RowKey>) returns (r: Result<DatabaseSession>)
      requires IsAnswer(Filtered(EventRows(store.Contents(), key), after), numRecent <= 0, LimitOf(numRecent), answer)
      ensures r.Err? ==> FreshGet(enums, store.Contents(), key, after, numRecent) == Err(r.status)
      ensures r.Ok? ==> fresh(r.value) && FreshGet(enums, store.Contents(), key, after, numRecent) == Ok(r.value.View())
    {
      hide EventRows, IsAnswer, Filtered, Window, EventBack, Merge, AsMap;
      if key !in store.sessions {
        return Err(NotFound);
      }
      var row := store.sessions[key];
      var app := if key.appName in store.apps then store.apps[key.appName].state else map[];
      var u := UserKey(key.appName, key.userId);
      var user := if u in store.users then store.users[u].state else map[];
      ghost var db := store.Contents();
      ListedRowsExist(db, key, after, numRecent);
      var rows := ListSessionEvents(EventRows(db, key), after, numRecent, answer);
      var events: seq<Event> := [];
      for i := 0 to |rows|
        invariant events == EventsBack(enums, Listed(db, key, after, numRecent)[..i])
      {
        assert rows[i] in rows;
        var p := store.events[EventKey(key, rows[i].id)];
        EventsBackGrows(enums, Listed(db, key, after, numRecent)[..i], p);
        assert Listed(db, key, after, numRecent)[..i + 1] == Listed(db, key, after, numRecent)[..i] + [p];
        events := events + [EventBack(enums, p)];
      }
      assert Listed(db, key, after, numRecent)[..|rows|] == Listed(db, key, after, numRecent);
      var sess := new DatabaseSession(row, events, app, user);
      return Ok(sess);
    }

    /** AppendEvent. A missing id or time is set on the caller's own event before anything is
        stored, and stays set whatever happens next, a panic of the conversion included. */
    method AppendEvent(sess: DatabaseSession?, event: CallerEvent?, d: Draws) returns (r: Result<()>)
      modifies store, sess, event
      ensures sess == null || event == null ==> r == Err(InvalidArgument) && store.Contents() == old(store.Contents())
      ensures sess != null && event != null ==>
                var o := AppendOutcome(enums, old(store.Contents()), old(sess.View()), old(event.value), d);
                && Appending(store.Contents(), sess.View(), event.value, r) == o.(status := r)
                && Answers(r, o.status, ConfirmationsOf(old(event.value).actions.requestedToolConfirmations))
      ensures sess != null && event != null && old(event.value.partial) ==> event.value == old(event.value)
      ensures sess != null && event != null && !old(event.value.partial) ==>
                && event.value.id == (if old(event.value).id == "" then d.uuid else old(event.value).id)
                && event.value.timestamp ==
                   (if old(event.value).timestamp == ZERO_INSTANT then d.clock else old(event.value).timestamp)
                && event.value == old(event.value).(id := event.value.id, timestamp := event.value.timestamp)
    {
      hide EventProto, Execute, MixedErrors, ShowsEvent, StoredEvent, IsStored, IsAppendedTo, SharedWritten;
      if sess == null || event == null {
        return Err(InvalidArgument);
      }
      if event.value.partial {
        return Ok(());
      }
      if event.value.id == "" {
        event.value := event.value.(id := d.uuid);
      }
      if event.value.timestamp == ZERO_INSTANT {
        event.value := event.value.(timestamp := d.clock);
      }
      var p := EventToProto(enums, sess.key, event.value);
      if p.Err? {
        return Err(p.status);
      }
      var stored := store.AppendEvent(sess.key, Some(p.value), d.freshId, d.now, d.at);
      if stored.Err? {
        return Err(stored.status);
      }
      sess.RecordEvent(event.value);
      return Ok(());
    }

    /** Delete. */
    method Delete(key: SessionKey) returns (r: Result<()>)
      modifies store
      ensures r.Err? <==> key.appName == "" || key.userId == "" || key.sessionId == ""
      ensures r.Err? ==> r == Err(InvalidArgument) && store.Contents() == old(store.Contents())
      ensures r.Ok? ==> key !in store.sessions && (forall e | e in store.events :: e.session != key)
                        && store.apps == old(store.apps) && store.users == old(store.users)
                        && store.sessions == old(store.sessions) - {key}
                        && forall e | e in old(store.events) && e.session != key ::
                             e in store.events && store.events[e] == old(store.events)[e]
    {
      if key.appName == "" || key.userId == "" || key.sessionId == "" {
        return Err(InvalidArgument);
      }
      ghost var before := store.Contents();
      store.DeleteSession(key);
      DeleteMeaning(before, key);
      return Ok(());
    }
  }

  /** What a delete leaves: everything but the session and its events. */
  lemma {:induction false} DeleteMeaning(db: Database, key: SessionKey)
    ensures Execute(db, DeleteOp(key), Timestamp(0, 0)) ==
            Ok(Database(db.sessions - {key}, map e | e in db.events && e.session != key :: db.events[e],
                        db.apps, db.users))
  {
    hide Execute;
    SplitOfNothing<Value>();
    ExecuteMeaning(db, DeleteOp(key), Timestamp(0, 0));
  }

  /** The row a create leaves, and the shared states its caller is given. */
  lemma {:induction false} CreatedRow(db: Database, op: Op, at: Timestamp)
    requires op.CreateOp? && Ready(op) && Execute(db, op, at).Ok?
    ensures var next, k := Execute(db, op, at).value, Target(op);
            && Row(next.sessions, k) == Some(NewSession(op.input, op.id, op.now))
            && KeyOf(NewSession(op.input, op.id, op.now)) == k
            && next.events == db.events && k !in db.sessions
            && AppStruct(ReadsOf(next, k)) == AppStateOf(next, k.appName)
            && UserStruct(ReadsOf(next, k)) == UserStateOf(next, UserKeyOf(k))
  {
    hide Execute, Split, AppsAfter, UsersAfter;
    ExecuteMeaning(db, op, at);
  }

  /** A new session has no events, whatever was stored before. */
  lemma {:induction false} CreatedIsFresh(
      t: EventEnums, db: Database, op: Op, at: Timestamp, after: Instant, numRecent: int)
    requires Coherent(db) && op.CreateOp? && Ready(op) && Execute(db, op, at).Ok?
    ensures var next, row := Execute(db, op, at).value, NewSession(op.input, op.id, op.now);
            FreshGet(t, next, KeyOf(row), after, numRecent) == Ok(FirstView(Creation(next, row)))
  {
    hide Execute, Split, AppStateOf, UserStateOf, NewView, Window, EventBack, NewSession, EventRows, Coherent, Ready;
    var next, k := Execute(db, op, at).value, Target(op);
    CreatedRow(db, op, at);
    var rows := Window(EventRows(next, k), after, numRecent);
    assert rows != [] ==> rows[0] in rows;
    ListedRowsExist(next, k, after, numRecent);
    assert rows != [] ==> EventKey(k, rows[0].id) in next.events;
    NoSessionNoEvents(db, k);
    assert rows == [];
    assert EventsBack(t, Listed(next, k, after, numRecent)) == [];
  }
}
