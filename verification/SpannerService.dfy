/** The store as the handlers run it: an object whose four tables change in place, one
    transaction at a time. Each method is proved to do what its transaction means. */
module SpannerService {
  import opened Wrappers
  import opened Values
  import opened Sanitizing
  import opened Timestamps
  import opened Messages
  import opened ScopedState
  import opened Tables
  import opened UpdateMask
  import opened Transactions
  import opened Events

  // Ids

  /** unicode.IsSpace. */
  predicate IsSpace(c: char) {
    c == ' ' || ('\t' <= c <= '\r') || c == '\U{0085}' || c == '\U{00A0}' || c == '\U{1680}'
      || ('\U{2000}' <= c <= '\U{200A}')
    || c == '\U{2028}' || c == '\U{2029}' || c == '\U{202F}' || c == '\U{205F}' || c == '\U{3000}'
  }

  function TrimLeft(s: string): string {
    if s != "" && IsSpace(s[0]) then TrimLeft(s[1..]) else s
  }

  function TrimRight(s: string): string {
    if s != "" && IsSpace(s[|s| - 1]) then TrimRight(s[..|s| - 1]) else s
  }

  function TrimSpace(s: string): string {
    TrimRight(TrimLeft(s))
  }

  function FirstNonEmpty(a: string, b: string): string {
    if TrimSpace(a) != "" then a else if TrimSpace(b) != "" then b else ""
  }

  /** The id of a new session: the supplied one, else the one in the request, else a fresh one. */
  function SessionIdFor(supplied: string, inRequest: string, freshId: string): string {
    var candidate := TrimSpace(FirstNonEmpty(supplied, inRequest));
    if candidate != "" then candidate else freshId
  }

  lemma {:induction false} TrimRightKeepsStart(s: string)
    ensures TrimRight(s) <= s
  {
    if s != "" && IsSpace(s[|s| - 1]) {
      TrimRightKeepsStart(s[..|s| - 1]);
    }
  }

  lemma {:induction false} TrimLeftStart(s: string)
    ensures TrimLeft(s) != "" ==> !IsSpace(TrimLeft(s)[0])
  {
    if s != "" && IsSpace(s[0]) {
      TrimLeftStart(s[1..]);
    }
  }

  lemma {:induction false} TrimRightEnd(s: string)
    ensures TrimRight(s) != "" ==> !IsSpace(TrimRight(s)[|TrimRight(s)| - 1])
  {
    if s != "" && IsSpace(s[|s| - 1]) {
      TrimRightEnd(s[..|s| - 1]);
    }
  }

  lemma {:induction false} TrimLeftIs(s: string) returns (i: nat)
    ensures i <= |s| && TrimLeft(s) == s[i..] && (forall n | 0 <= n < i :: IsSpace(s[n]))
    ensures i < |s| ==> !IsSpace(s[i])
  {
    if s != "" && IsSpace(s[0]) {
      i := TrimLeftIs(s[1..]);
      i := i + 1;
    } else {
      i := 0;
    }
  }

  lemma {:induction false} TrimRightIs(s: string) returns (j: nat)
    ensures j <= |s| && TrimRight(s) == s[..j] && (forall n | j <= n < |s| :: IsSpace(s[n]))
    ensures j > 0 ==> !IsSpace(s[j - 1])
  {
    if s != "" && IsSpace(s[|s| - 1]) {
      j := TrimRightIs(s[..|s| - 1]);
    } else {
      j := |s|;
    }
  }

  /** Trimming takes away space at both ends, all of it, and nothing else. */
  lemma {:induction false} TrimSpaceIs(s: string) returns (i: nat, j: nat)
    ensures i <= j <= |s| && TrimSpace(s) == s[i..j]
    ensures forall n | 0 <= n < i || j <= n < |s| :: IsSpace(s[n])
    ensures i < j ==> !IsSpace(s[i]) && !IsSpace(s[j - 1])
  {
    hide IsSpace;
    i := TrimLeftIs(s);
    j := TrimRightIs(s[i..]);
    assert s[i..][..j] == s[i..i + j];
    assert forall n | 0 <= n < |s[i..]| :: s[i..][n] == s[i + n];
    forall n | i + j <= n < |s|
      ensures IsSpace(s[n])
    {
      assert IsSpace(s[i..][n - i]);
    }
    j := i + j;
  }

  /** The supplied candidate wins unless it is blank, then the one in the request, either without
      the space around it; the fresh id is taken only when both are blank. An id is never empty,
      and has no space at either end unless it is the fresh one. */
  lemma {:induction false} SessionIdMeaning(supplied: string, inRequest: string, freshId: string)
    requires freshId != ""
    ensures var id := SessionIdFor(supplied, inRequest, freshId);
            && id != ""
            && id == (if TrimSpace(supplied) != "" then TrimSpace(supplied)
                      else if TrimSpace(inRequest) != "" then TrimSpace(inRequest) else freshId)
            && (TrimSpace(supplied) != "" || TrimSpace(inRequest) != "" ==>
                  !IsSpace(id[0]) && !IsSpace(id[|id| - 1]))
  {
    hide IsSpace;
    var s := FirstNonEmpty(supplied, inRequest);
    TrimLeftStart(s);
    TrimRightEnd(TrimLeft(s));
    TrimRightKeepsStart(TrimLeft(s));
    assert TrimSpace("") == "";
  }

  // Deltas as the append handler rebuilds them

  /** Reading a stored delta as a Go map, trimming it and building a Struct again is the same as
      trimming the Struct. */
  lemma {:induction false} RebuiltDelta(d: Option<Struct>)
    ensures StructOrNil(TrimTempDict(StructMap(d))) == Ok(SomeState(TrimTemp(StateOf(d))))
  {
    var s := StateOf(d);
    var trimmed := TrimTemp(s);
    if d.Some? {
      assert TrimTemp(AsMap(s)) == AsMap(trimmed);
      if forall k | k in AsMap(s) :: !IsTemp(k) {
        assert trimmed == s;
      }
      assert TrimTempDict(StructMap(d)) == Dict(AsMap(trimmed));
      RestoreStruct(trimmed);
      assert AsMap(trimmed).Keys == trimmed.Keys;
    }
  }

  /** The delta eventToProto stores goes through the append handler's second trim unchanged. */
  lemma {:induction false} SecondTrimChangesNothing(d: GoDict)
    requires DeltaProto(d).Ok?
    ensures SomeState(TrimTemp(StateOf(DeltaProto(d).value))) == DeltaProto(d).value
  {
    hide NewStruct;
    StoreDictEntries(TrimTempDict(d));
    var s := DeltaProto(d).value;
    assert NoTemp(StateOf(s));
    assert TrimTemp(StateOf(s)) == StateOf(s);
    if s.Some? {
      assert s.value.Keys == Entries(TrimTempDict(d)).Keys;
    }
  }

  /** What createSession returns besides the error. */
  datatype Created = Created(session: Session, appState: Struct, userState: Struct)

  class Store {
    var sessions: map<SessionKey, Session>
    var events: map<EventKey, PbEvent>
    var apps: map<string, AppState>
    var users: map<UserKey, UserState>

    constructor ()
      ensures Contents() == EMPTY
    {
      sessions, events, apps, users := map[], map[], map[], map[];
    }

    function Contents(): Database
      reads this
    {
      Database(sessions, events, apps, users)
    }

    /** Commits buffered mutations: each meets the tables the previous ones left, and a failing
        insert discards them all. */
    method Commit(muts: seq<Mutation>) returns (committed: bool)
      modifies this
      ensures committed <==> ApplyAll(old(Contents()), muts).Some?
      ensures Contents() == if committed then ApplyAll(old(Contents()), muts).value else old(Contents())
    {
      hide Apply;
      var db := Contents();
      for i := 0 to |muts|
        invariant Contents() == old(Contents())
        invariant ApplyAll(db, muts[i..]) == ApplyAll(old(Contents()), muts)
      {
        assert muts[i..][1..] == muts[i + 1..];
        var next := Apply(db, muts[i]);
        if next.None? {
          return false;
        }
        db := next.value;
      }
      assert muts[|muts|..] == [];
      sessions, events, apps, users := db.sessions, db.events, db.apps, db.users;
      return true;
    }

    /** scopedStateMutations: reads both shared rows, merges the deltas, and returns what to
        write along with the resulting states. */
    method ScopedStateMutations(key: SessionKey, appDelta: Struct, userDelta: Struct, at: Timestamp)
      returns (muts: seq<Mutation>, appState: Struct, userState: Struct)
      ensures muts == ScopedMutations(key, ReadsOf(Contents(), key), appDelta, userDelta, at)
      ensures appState == AppStruct(ReadsOf(Contents(), key)) + appDelta
      ensures userState == UserStruct(ReadsOf(Contents(), key)) + userDelta
    {
      var u := UserKey(key.appName, key.userId);
      appState := if key.appName in apps then apps[key.appName].state else map[];
      userState := if u in users then users[u].state else map[];
      muts := [];
      if appDelta != map[] {
        appState := appState + appDelta;
        muts := muts + [PutApp(AppState(key.appName, appState, at))];
      }
      if userDelta != map[] {
        userState := userState + userDelta;
        muts := muts + [PutUser(UserState(key.appName, key.userId, userState, at))];
      }
    }

    /** createSession. On success the caller gets the stored session and the shared states as
        they are after the write. */
    method CreateSession(input: Option<Session>, suppliedId: string, freshId: string, now: Instant, at: Timestamp)
      returns (r: Result<Created>)
      requires freshId != ""
      modifies this
      ensures
        if input.None? || input.value.appName == "" || input.value.userId == "" then
          r == Err(InvalidArgument) && Contents() == old(Contents())
        else
          var op := CreateOp(input.value, SessionIdFor(suppliedId, input.value.id, freshId), now);
          Ready(op) &&
          match Execute(old(Contents()), op, at)
          case Err(e) => r == Err(e) && Contents() == old(Contents())
          case Ok(db) =>
            Contents() == db
            && r == Ok(Created(NewSession(op.input, op.id, now), AppStruct(ReadsOf(db, Target(op))),
                               UserStruct(ReadsOf(db, Target(op)))))
      ensures r.Ok? ==>
                var k := SessionKey(r.value.session.id, input.value.appName, input.value.userId);
                && k.sessionId == (if TrimSpace(suppliedId) != "" then TrimSpace(suppliedId)
                                   else if TrimSpace(input.value.id) != "" then TrimSpace(input.value.id) else freshId)
                && k !in old(sessions) && sessions == old(sessions)[k := r.value.session] && events == old(events)
                && IsNewRow(input.value, k.sessionId, now, r.value.session)
                && SharedWritten(old(Contents()), Contents(), k, StateOf(input.value.state), at)
                && r.value.appState == AppStateOf(Contents(), k.appName)
                && r.value.userState == UserStateOf(Contents(), UserKey(k.appName, k.userId))
    {
      hide Split, SessionIdFor, ApplyAll, IsNewRow, SharedWritten;
      if input.None? || input.value.appName == "" || input.value.userId == "" {
        return Err(InvalidArgument);
      }
      SessionIdMeaning(suppliedId, input.value.id, freshId);
      var id := SessionIdFor(suppliedId, input.value.id, freshId);
      ghost var op := CreateOp(input.value, id, now);
      var appDelta, userDelta, sessionState := SplitScopedState(StateOf(input.value.state));
      var stamp := Some(NewTimestamp(now));
      var session := input.value.(
        id := id, state := SomeState(sessionState),
        expiration := if input.value.expiration.Ttl? then ExpiryOfTtl(input.value, now) else input.value.expiration,
        createTime := stamp, updateTime := stamp);
      assert session == NewSession(input.value, id, now);
      var muts, appState, userState := ScopedStateMutations(KeyOf(session), appDelta, userDelta, at);
      muts := muts + [InsertSession(session)];
      ghost var before := Contents();
      assert Body(op, ReadsOf(before, Target(op)), at) == Ok(muts);
      var committed := Commit(muts);
      if !committed {
        return Err(AlreadyExists);
      }
      ExecuteMeaning(before, op, at);
      SharedAfter(before, op, at);
      OutcomeShared(before, op, at);
      NewSessionIs(input.value, id, now);
      return Ok(Created(session, appState, userState));
    }

    /** appendEvent. */
    method AppendEvent(key: SessionKey, input: Option<PbEvent>, freshId: string, now: Instant, at: Timestamp)
      returns (r: Result<PbEvent>)
      requires freshId != ""
      modifies this
      ensures
        if input.None? then r == Err(InvalidArgument) && Contents() == old(Contents())
        else
          var op := AppendOp(key, input.value, freshId, now);
          Ready(op) &&
          match Execute(old(Contents()), op, at)
          case Err(e) => r == Err(e) && Contents() == old(Contents())
          case Ok(db) => Contents() == db && r == Ok(StoredEvent(key, input.value, freshId, now))
      ensures r.Ok? ==>
                && IsStored(key, input.value, freshId, now, r.value)
                && EventKey(key, r.value.id) !in old(events)
                && events == old(events)[EventKey(key, r.value.id) := r.value]
                && SharedWritten(old(Contents()), Contents(), key, DeltaOf(input.value), at)
                && key in old(sessions)
                && (KeyOf(old(sessions)[key]) == key ==>
                      && key in sessions && sessions == old(sessions)[key := sessions[key]]
                      && IsAppendedTo(old(sessions)[key], r.value, DeltaOf(input.value), sessions[key]))
    {
      hide Split, TrimTemp, ApplyAll, IsStored, SharedWritten, IsAppendedTo, Outcome;
      if input.None? {
        return Err(InvalidArgument);
      }
      ghost var op := AppendOp(key, input.value, freshId, now);
      var event := input.value.(
        id := if input.value.id != "" then input.value.id else freshId,
        sessionId := key.sessionId, appName := key.appName, userId := key.userId);
      if event.timestamp.None? {
        event := event.(timestamp := Some(NewTimestamp(now)));
      }
      var delta := TrimTemp(DeltaOf(event));
      var appDelta, userDelta, sessionDelta := SplitScopedState(delta);
      if event.actions.Some? {
        event := event.(actions := Some(event.actions.value.(stateDelta := SomeState(delta))));
      }
      assert event == StoredEvent(key, input.value, freshId, now);
      if key !in sessions {
        return Err(NotFound);
      }
      var session := sessions[key];
      session := session.(state := SomeState(StateOf(session.state) + sessionDelta), updateTime := event.timestamp);
      TrimmedSession(key, input.value, freshId, now);
      assert session == Appended(sessions[key], event);
      var muts, _, _ := ScopedStateMutations(key, appDelta, userDelta, at);
      muts := muts + [PutSession(session), InsertEvent(event)];
      assert Body(op, ReadsOf(Contents(), key), at) == Ok(muts);
      ghost var before := Contents();
      var committed := Commit(muts);
      if !committed {
        return Err(AlreadyExists);
      }
      ExecuteMeaning(before, op, at);
      AppendSeen(before, op, at);
      return Ok(event);
    }

    /** deleteSession. */
    method DeleteSession(key: SessionKey)
      modifies this
      ensures Execute(old(Contents()), DeleteOp(key), Timestamp(0, 0)) == Ok(Contents())
    {
      hide ApplyAll;
      ghost var before := Contents();
      ExecuteMeaning(before, DeleteOp(key), Timestamp(0, 0));
      var committed := Commit([Mutation.DeleteSession(key), Mutation.DeleteEvents(key)]);
    }

    /** UpdateSession, when nothing runs between its read and its transaction. */
    method UpdateSession(request: Option<Session>, paths: seq<string>, now: Instant, at: Timestamp)
      returns (r: Result<Session>)
      modifies this
      ensures
        if request.None? || request.value.id == "" then r == Err(InvalidArgument) && Contents() == old(Contents())
        else
          var row := Row(old(sessions), KeyOf(request.value));
          if row.None? then r == Err(NotFound) && Contents() == old(Contents())
          else
            match DraftOf(paths, request.value, row.value, now)
            case Err(e) => r == Err(e) && Contents() == old(Contents())
            case Ok(d) =>
              r == Ok(d.next)
              && Execute(old(Contents()), UpdateOp(request.value, paths, now, row.value, 0), at) == Ok(Contents())
      ensures r.Ok? ==>
                var k := SessionKey(request.value.id, request.value.appName, request.value.userId);
                && k in old(sessions)
                && (KeyOf(old(sessions)[k]) == k ==>
                      && sessions == old(sessions)[k := r.value] && events == old(events)
                      && IsUpdated(paths, request.value, now, old(sessions)[k], r.value)
                      && SharedWritten(
                           old(Contents()), Contents(), k,
                           if paths == [] || "state" in paths then StateOf(request.value.state) else map[], at))
    {
      hide ApplyAll, DraftOf, IsUpdated, SharedWritten, Outcome;
      if request.None? || request.value.id == "" {
        return Err(InvalidArgument);
      }
      var key := KeyOf(request.value);
      if key !in sessions {
        return Err(NotFound);
      }
      var base := sessions[key];
      var draft := MaskedSession(paths, request.value, base, now);
      if draft.Err? {
        return Err(draft.status);
      }
      ghost var op, before := UpdateOp(request.value, paths, now, base, 0), Contents();
      DraftMeaning(paths, request.value, base, now);
      var d := draft.value;
      var muts, _, _ := ScopedStateMutations(KeyOf(d.next), d.appDelta, d.userDelta, at);
      muts := muts + [PutSession(d.next)];
      assert Body(op, ReadsOf(before, Target(op)), at) == Ok(muts);
      ExecuteMeaning(before, op, at);
      UpdateSeen(before, op, at);
      var committed := Commit(muts);
      return Ok(d.next);
    }

    /** readSessionByID: at most two of the rows with the id are fetched. */
    method ReadSessionById(id: string) returns (r: Result<SessionKey>)
      ensures r == Err(NotFound) <==> forall k | k in sessions :: k.sessionId != id
      ensures r == Err(FailedPrecondition) <==>
              exists k, l :: k in sessions && l in sessions && k != l && k.sessionId == l.sessionId == id
      ensures r.Ok? ==> r.value in sessions && r.value.sessionId == id
      ensures r.Err? ==> r.status == NotFound || r.status == FailedPrecondition
    {
      var matching := set k | k in sessions && k.sessionId == id;
      var pending := matching;
      var records: seq<SessionKey> := [];
      while |records| < 2 && pending != {}
        invariant |records| <= 2
        invariant forall k :: k in matching <==> k in records || k in pending
        invariant forall k | k in records :: k !in pending
        invariant |records| == 2 ==> records[0] != records[1]
        decreases pending
      {
        var k :| k in pending;
        records, pending := records + [k], pending - {k};
      }
      assert forall k | k in sessions && k.sessionId == id :: k in matching;
      if |records| == 0 {
        return Err(NotFound);
      }
      if |records| > 1 {
        assert records[0] in records && records[1] in records;
        assert records[0] in sessions && records[1] in sessions;
        return Err(FailedPrecondition);
      }
      assert records == [records[0]] && records[0] in records && records[0] in matching;
      assert forall k | k in sessions && k.sessionId == id :: k in records;
      return Ok(records[0]);
    }

    /** The gRPC AppendEvent: the session is found by id alone, then appended to by its key. */
    method AppendEventById(id: string, event: Option<PbEvent>, freshId: string, now: Instant, at: Timestamp)
      returns (r: Result<()>)
      requires freshId != ""
      modifies this
      ensures event.None? ==> r == Err(InvalidArgument)
      ensures r.Err? ==> Contents() == old(Contents())
      ensures event.Some? && (forall k | k in old(sessions) :: k.sessionId != id) ==> r == Err(NotFound)
      ensures event.Some?
              && (exists k, l :: k in old(sessions) && l in old(sessions) && k != l && k.sessionId == l.sessionId == id)
              ==> r == Err(FailedPrecondition)
      ensures forall k | event.Some? && k in old(sessions) && k.sessionId == id
                         && (forall l | l in old(sessions) && l.sessionId == id :: l == k) ::
                && Ready(AppendOp(k, event.value, freshId, now))
                && match Execute(old(Contents()), AppendOp(k, event.value, freshId, now), at)
                   case Err(e) => r == Err(e)
                   case Ok(db) => r == Ok(()) && Contents() == db
    {
      hide Execute;
      if event.None? {
        return Err(InvalidArgument);
      }
      var found := ReadSessionById(id);
      if found.Err? {
        return Err(found.status);
      }
      var stored := AppendEvent(found.value, event, freshId, now, at);
      if stored.Err? {
        return Err(stored.status);
      }
      return Ok(());
    }
  }

  lemma {:induction false} TrimmedSession(key: SessionKey, input: PbEvent, freshId: string, now: Instant)
    ensures Split(DeltaOf(StoredEvent(key, input, freshId, now))) == Split(TrimTemp(DeltaOf(input)))
  {
  }

  /** The shared states after a create are the ones before it overwritten by its deltas. */
  lemma {:induction false} SharedAfter(db: Database, op: Op, at: Timestamp)
    requires Ready(op) && Error(db, op).None?
    ensures var prior, later := ReadsOf(db, Target(op)), ReadsOf(Outcome(db, op, at), Target(op));
            && AppStruct(later) == AppStruct(prior) + AppDelta(op)
            && UserStruct(later) == UserStruct(prior) + UserDelta(op)
  {
    hide AppDelta, UserDelta, SessionsAfter, EventsAfter;
  }
}
