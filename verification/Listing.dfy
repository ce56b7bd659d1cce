/** The events of a session as a reader gets them: the rows of the table put in the order of the
    listing, and how that order relates to the order of the commits. */
module Listing {
  import opened Wrappers
  import opened Values
  import opened Timestamps
  import opened Messages
  import opened ScopedState
  import opened Tables
  import opened Transactions
  import opened History
  import opened EventWindow
  import opened Folds
  import Interleaving

  /** The timestamp column. A stored event always has a timestamp (see HistoryIsCoherent). */
  function ColumnOf(p: PbEvent): int {
    match p.timestamp case Some(ts) => Column(ts) case None => 0
  }

  function RowOf(p: PbEvent): RowKey {
    RowKey(ColumnOf(p), p.id)
  }

  /** The rows of a session's events. */
  ghost function EventRows(db: Database, k: SessionKey): set<RowKey> {
    set e | e in db.events && e.session == k :: RowKey(ColumnOf(db.events[e]), e.eventId)
  }

  lemma {:induction false} EventRowAt(db: Database, k: SessionKey, r: RowKey)
    ensures r in EventRows(db, k) <==>
            EventKey(k, r.id) in db.events && r.micros == ColumnOf(db.events[EventKey(k, r.id)])
  {
    if r in EventRows(db, k) {
      var e :| e in db.events && e.session == k && r == RowKey(ColumnOf(db.events[e]), e.eventId);
      assert e == EventKey(k, r.id);
    }
    if EventKey(k, r.id) in db.events && r.micros == ColumnOf(db.events[EventKey(k, r.id)]) {
      assert EventKey(k, r.id).session == k;
    }
  }

  /** The stored events behind listed rows. */
  ghost function EventsAt(db: Database, k: SessionKey, rows: seq<RowKey>): seq<PbEvent>
    requires forall r | r in rows :: EventKey(k, r.id) in db.events
  {
    seq(|rows|, i requires 0 <= i < |rows| => assert rows[i] in rows; db.events[EventKey(k, rows[i].id)])
  }

  /** What a reader gets: listSessionEvents on the tables as they are. */
  ghost function Listed(db: Database, k: SessionKey, after: Instant, numRecent: int): seq<PbEvent> {
    ListedRowsExist(db, k, after, numRecent);
    EventsAt(db, k, Window(EventRows(db, k), after, numRecent))
  }

  lemma {:induction false} ListedRowsExist(db: Database, k: SessionKey, after: Instant, numRecent: int)
    ensures forall r | r in Window(EventRows(db, k), after, numRecent) ::
              r in EventRows(db, k) && EventKey(k, r.id) in db.events
  {
    hide EventRows, Window, Ascending;
    var rows := EventRows(db, k);
    WindowIsSuffix(rows, after, numRecent);
    forall r | r in Window(rows, after, numRecent)
      ensures r in rows && EventKey(k, r.id) in db.events
    {
      assert r in Ascending(rows);
      EventRowAt(db, k, r);
    }
  }

  // Commit order and listed order

  /** The row of an event, by its id. */
  function RowById(db: Database, k: SessionKey, id: string): RowKey {
    RowKey(if EventKey(k, id) in db.events then ColumnOf(db.events[EventKey(k, id)]) else 0, id)
  }

  function RowsById(db: Database, k: SessionKey, ids: seq<string>): seq<RowKey> {
    seq(|ids|, i requires 0 <= i < |ids| => RowById(db, k, ids[i]))
  }

  function Ids(rows: seq<RowKey>): seq<string> {
    seq(|rows|, i requires 0 <= i < |rows| => rows[i].id)
  }

  /** The ids of a session's events as they are listed. */
  ghost function ListedIds(db: Database, k: SessionKey): seq<string> {
    Ids(Ascending(EventRows(db, k)))
  }

  /** Every commit added a row that belongs after all the earlier ones. */
  predicate InListedOrder(db: Database, k: SessionKey, ids: seq<string>) {
    forall i, j | 0 <= i < j < |ids| :: Less(RowById(db, k, ids[i]), RowById(db, k, ids[j]))
  }

  /** The rows of a session are those of the events appended to it, each once. */
  lemma {:induction false} RowsAreAppends(log: Log, k: SessionKey, r: RowKey)
    requires Valid(log)
    ensures r in RowsById(After(log), k, EventIds(log, k)) <==> r in EventRows(After(log), k)
  {
    hide Valid, After, EventIds, EventRows, Distinct;
    var db, ids := After(log), EventIds(log, k);
    EventRowsAreAppends(log, k);
    EventRowAt(db, k, r);
    if r in EventRows(db, k) {
      var i :| 0 <= i < |ids| && ids[i] == r.id;
      assert RowsById(db, k, ids)[i] == r;
    }
  }

  /** Events are listed in commit order exactly when every append came with a row that sorts
      after all the earlier ones. */
  lemma {:induction false} ListedInCommitOrder(log: Log, k: SessionKey)
    requires Valid(log)
    ensures ListedIds(After(log), k) == EventIds(log, k) <==> InListedOrder(After(log), k, EventIds(log, k))
  {
    hide Valid, After, EventIds, EventRows, Less, RowById;
    var db, ids := After(log), EventIds(log, k);
    var rows, byId, listed := EventRows(db, k), RowsById(db, k, ids), Ascending(EventRows(db, k));
    forall r
      ensures r in byId <==> r in rows
    {
      RowsAreAppends(log, k, r);
    }
    if InListedOrder(db, k, ids) {
      assert IsListing(rows, true, byId);
      ListingIsUnique(rows, true, byId, listed);
      assert Ids(byId) == ids by { IdsOfRows(db, k, ids); }
    }
    if Ids(listed) == ids {
      forall i | 0 <= i < |ids|
        ensures listed[i] == RowById(db, k, ids[i])
      {
        RowHasId(db, k, listed[i]);
        assert Ids(listed)[i] == ids[i];
      }
    }
  }

  lemma {:induction false} IdsOfRows(db: Database, k: SessionKey, ids: seq<string>)
    ensures Ids(RowsById(db, k, ids)) == ids
  {
  }

  lemma {:induction false} RowHasId(db: Database, k: SessionKey, r: RowKey)
    requires r in EventRows(db, k)
    ensures r == RowById(db, k, r.id)
  {
    EventRowAt(db, k, r);
  }

  /** Replaying a session's events in the order they are listed rebuilds its state, if the
      commits came in that order. */
  lemma {:induction false} ListedReplay(log: Log, created: nat, k: SessionKey)
    requires Valid(log) && created < |log| && AppendedSince(log, created, k)
    requires InListedOrder(After(log), k, EventIds(log, k))
    ensures k in After(log).sessions
    ensures StateOf(After(log).sessions[k].state) ==
            Replay(After(log), k, ListedIds(After(log), k), Split(Incoming(log[created].op)).session)
  {
    hide *;
    ListedInCommitOrder(log, k);
    SessionReplay(log, created, k);
  }

  /** Otherwise it need not: of two appends that set the same session key, the one listed last
      decides the replay, and the one committed last decides the state. */
  lemma {:induction false} LateCommitBreaksReplay(
      log: Log, created: nat, k: SessionKey, first: string, second: string, name: string)
    requires Valid(log) && created < |log| && AppendedSince(log, created, k)
    requires EventIds(log, k) == [first, second]
    requires Less(RowById(After(log), k, second), RowById(After(log), k, first))
    requires var d := Split(StoredDeltaAt(After(log), k, first)).session;
             var e := Split(StoredDeltaAt(After(log), k, second)).session;
             name in d && name in e && d[name] != e[name]
    ensures ListedIds(After(log), k) == [second, first]
    ensures k in After(log).sessions
    ensures StateOf(After(log).sessions[k].state) !=
            Replay(After(log), k, ListedIds(After(log), k), Split(Incoming(log[created].op)).session)
  {
    hide Valid, After, AppendedSince, EventIds, Split, Incoming, EventRows, Less, Replay, RowById, StoredDeltaAt,
         Ascending, IsListing;
    var db, initial := After(log), Split(Incoming(log[created].op)).session;
    var rows, byId := EventRows(db, k), RowsById(db, k, [second, first]);
    forall r
      ensures r in byId <==> r in rows
    {
      RowsAreAppends(log, k, r);
      assert RowsById(db, k, [first, second]) == [byId[1], byId[0]];
    }
    assert IsListing(rows, true, byId) by { TwoRows(rows, byId); }
    ListingIsUnique(rows, true, byId, Ascending(rows));
    IdsOfRows(db, k, [second, first]);
    SessionReplay(log, created, k);
    ReplayTwo(db, k, first, second, initial);
    ReplayTwo(db, k, second, first, initial);
  }

  lemma {:induction false} TwoRows(rows: set<RowKey>, s: seq<RowKey>)
    requires |s| == 2 && Less(s[0], s[1]) && forall r :: r in s <==> r in rows
    ensures IsListing(rows, true, s)
  {
    hide Less;
  }

  lemma {:induction false} ReplayTwo(db: Database, k: SessionKey, first: string, second: string, initial: Struct)
    ensures Replay(db, k, [first, second], initial) ==
            initial + Split(StoredDeltaAt(db, k, first)).session + Split(StoredDeltaAt(db, k, second)).session
  {
    hide Split, StoredDeltaAt;
    assert [first, second][..1] == [first] && [first][..0] == [];
    assert Replay(db, k, [first], initial) == initial + Split(StoredDeltaAt(db, k, first)).session;
  }

  // Any order of commits

  /** The session parts of stored events, in the given order. */
  function SessionDeltas(db: Database, k: SessionKey, ids: seq<string>): seq<Struct> {
    seq(|ids|, i requires 0 <= i < |ids| => Split(StoredDeltaAt(db, k, ids[i])).session)
  }

  lemma {:induction false} ReplayIsFold(db: Database, k: SessionKey, ids: seq<string>, initial: Struct)
    ensures Replay(db, k, ids, initial) == Fold(initial, SessionDeltas(db, k, ids))
  {
    hide Split, StoredDeltaAt;
    if ids == [] {
    } else {
      ReplayIsFold(db, k, ids[..|ids| - 1], initial);
      assert SessionDeltas(db, k, ids)[..|ids| - 1] == SessionDeltas(db, k, ids[..|ids| - 1]);
    }
  }

  /** The events that are listed are those that were appended. */
  lemma {:induction false} ListedAreAppended(log: Log, k: SessionKey, id: string)
    requires Valid(log)
    ensures id in ListedIds(After(log), k) <==> id in EventIds(log, k)
  {
    hide Valid, After, EventIds, EventRows, Ascending, Distinct;
    var db, rows := After(log), EventRows(After(log), k);
    var listed := Ascending(rows);
    EventRowsAreAppends(log, k);
    if id in ListedIds(db, k) {
      var i :| 0 <= i < |listed| && listed[i].id == id;
      assert listed[i] in rows;
      EventRowAt(db, k, listed[i]);
    }
    if id in EventIds(log, k) {
      var r := RowById(db, k, id);
      EventRowAt(db, k, r);
      assert r in listed;
      var i :| 0 <= i < |listed| && listed[i] == r;
      assert ListedIds(db, k)[i] == id;
    }
  }

  lemma {:induction false} SameDeltas(db: Database, k: SessionKey, a: seq<string>, b: seq<string>, d: Struct)
    requires forall id :: id in a ==> id in b
    ensures d in SessionDeltas(db, k, a) ==> d in SessionDeltas(db, k, b)
  {
    hide Split, StoredDeltaAt;
    if d in SessionDeltas(db, k, a) {
      var i :| 0 <= i < |a| && SessionDeltas(db, k, a)[i] == d;
      assert a[i] in a;
      var j :| 0 <= j < |b| && b[j] == a[i];
      assert SessionDeltas(db, k, b)[j] == d;
    }
  }

  /** Replaying a session's events in the order they are listed rebuilds its state exactly when,
      for every key, the last event to set it says the same in commit order and in listed order. */
  lemma {:induction false} ListedReplayExactly(log: Log, created: nat, k: SessionKey)
    requires Valid(log) && created < |log| && AppendedSince(log, created, k)
    ensures k in After(log).sessions
    ensures StateOf(After(log).sessions[k].state) ==
            Replay(After(log), k, ListedIds(After(log), k), Split(Incoming(log[created].op)).session)
            <==>
            forall name :: LastSet(SessionDeltas(After(log), k, EventIds(log, k)), name) ==
                           LastSet(SessionDeltas(After(log), k, ListedIds(After(log), k)), name)
  {
    hide *;
    var db, committed, listed := After(log), EventIds(log, k), ListedIds(After(log), k);
    var initial := Split(Incoming(log[created].op)).session;
    SessionReplay(log, created, k);
    ReplayIsFold(db, k, committed, initial);
    ReplayIsFold(db, k, listed, initial);
    forall id
      ensures id in listed <==> id in committed
    {
      ListedAreAppended(log, k, id);
    }
    forall d
      ensures d in SessionDeltas(db, k, committed) <==> d in SessionDeltas(db, k, listed)
    {
      SameDeltas(db, k, committed, listed, d);
      SameDeltas(db, k, listed, committed, d);
    }
    SameDeltasFold(initial, SessionDeltas(db, k, committed), SessionDeltas(db, k, listed));
  }

  // A run in which it fails

  function AppendSteps(append: Op, at: Timestamp): seq<Interleaving.Step> {
    [Interleaving.Start(0, append)]
    + ([Interleaving.ReadSession(0)] + [Interleaving.ReadApp(0), Interleaving.ReadUser(0), Interleaving.Commit(0, at)])
  }

  /** A session is created and two events are appended. */
  function LateCommitSteps(create: Op, first: Op, second: Op, at: Timestamp): seq<Interleaving.Step> {
    Interleaving.CreateSteps(create, at) + AppendSteps(first, at) + AppendSteps(second, at)
  }

  /** It happens: for every session and every two events that set one key of it to different
      values, the second with the earlier row, there is a run from empty tables that lists them
      against their commit order and replays to another state than the stored one. */
  lemma {:induction false} LateCommitIsReachable(
      create: Op, first: PbEvent, second: PbEvent, name: string, now: Instant, at: Timestamp)
    requires create.CreateOp? && Ready(create)
    requires first.id != "" && second.id != "" && first.timestamp.Some? && second.timestamp.Some?
    requires Less(RowOf(second), RowOf(first)) && first.id != second.id
    requires var d, e := Split(DeltaOf(first)).session, Split(DeltaOf(second)).session;
             name in d && name in e && d[name] != e[name]
    ensures var k := Target(create);
            var end := Interleaving.DoAll(Interleaving.INITIAL,
              LateCommitSteps(create, AppendOp(k, first, first.id, now), AppendOp(k, second, second.id, now), at));
            && end.Some? && k in end.value.db.sessions
            && ListedIds(end.value.db, k) == [second.id, first.id]
            && EventIds(end.value.log, k) == [first.id, second.id]
            && StateOf(end.value.db.sessions[k].state) !=
               Replay(end.value.db, k, ListedIds(end.value.db, k), Split(StateOf(create.input.state)).session)
  {
    hide Split, Ready, Valid, After, EventIds, Incoming, Less, ListedIds, Replay, StoredDeltaAt, StateOf, Execute,
         Error, Outcome, RowById, StoredEvent, Interleaving.DoAll, Interleaving.CreateSteps, AppendSteps,
         AppendedSince;
    var k := Target(create);
    var a, b := AppendOp(k, first, first.id, now), AppendOp(k, second, second.id, now);
    var c, d, e := Entry(create, at), Entry(a, at), Entry(b, at);
    ThreeCommits(create, a, b, at);
    var log := [c, d, e];
    assert Before(log) == [c, d] && Last(log) == e && Before([c, d]) == [c] && Last([c, d]) == d;
    assert Before([c]) == [] && Last([c]) == c;
    ValidPrefix(log, 2);
    assert log[..2] == [c, d];
    ValidPrefix(log, 1);
    assert log[..1] == [c];
    FreshSession([c]);
    AppendEffect([c, d]);
    AppendEffect(log);
    AppendedRow([c, d]);
    AppendedRow(log);
    ReadyId(a);
    ReadyId(b);
    assert EventIds(log, k) == [first.id, second.id];
    CreatedThenAppended(log, k);
    IncomingOf(create);
    LateCommitBreaksReplay(log, 0, k, first.id, second.id, name);
  }

  lemma {:induction false} ReadyId(op: Op)
    requires op.AppendOp? && op.event.id != ""
    ensures EventIdOf(op.event, op.freshId) == op.event.id && Incoming(op) == DeltaOf(op.event) && Target(op) == op.key
  {
  }

  lemma {:induction false} IncomingOf(op: Op)
    requires op.CreateOp?
    ensures Incoming(op) == StateOf(op.input.state)
  {
  }

  lemma {:induction false} CreatedThenAppended(log: Log, k: SessionKey)
    requires |log| == 3 && log[0].op.CreateOp? && Target(log[0].op) == k && log[1].op.AppendOp? && log[2].op.AppendOp?
    ensures AppendedSince(log, 0, k)
  {
  }

  /** The row of an event that has just been appended, and of those before it. */
  lemma {:induction false} AppendedRow(log: Log)
    requires Valid(log) && log != [] && Last(log).op.AppendOp?
    requires Last(log).op.event.id != "" && Last(log).op.event.timestamp.Some?
    ensures var op := Last(log).op;
            && RowById(After(log), op.key, op.event.id) == RowOf(op.event)
            && forall id | id != op.event.id ::
                 RowById(After(log), op.key, id) == RowById(After(Before(log)), op.key, id)
  {
    hide Valid, After, SessionsAfter, AppsAfter, UsersAfter, Error, TrimTemp;
    LastEntry(log);
  }

  /** Three transactions one after the other, from empty tables. */
  lemma {:induction false} ThreeCommits(create: Op, first: Op, second: Op, at: Timestamp)
    requires create.CreateOp? && Ready(create)
    requires first.AppendOp? && second.AppendOp? && first.key == Target(create) == second.key
    requires first.event.id != "" && second.event.id != "" && first.event.id != second.event.id
    ensures var end := Interleaving.DoAll(Interleaving.INITIAL, LateCommitSteps(create, first, second, at));
            var log := [Entry(create, at), Entry(first, at), Entry(second, at)];
            end.Some? && end.value.log == log && end.value.db == After(log) && Valid(log)
  {
    hide Ready, Valid, After, Error, Outcome, Interleaving.DoAll, Interleaving.Invariant, Interleaving.Do,
         Interleaving.Enabled, AppendSteps;
    var s0 := Interleaving.INITIAL;
    var begun := Interleaving.Begun(create);
    Interleaving.ReadAndCommit(begun, 0, at);
    Interleaving.DoAppend(s0, [Interleaving.Start(0, create)],
                          [] + [Interleaving.ReadApp(0), Interleaving.ReadUser(0), Interleaving.Commit(0, at)]);
    assert [] + [Interleaving.ReadApp(0), Interleaving.ReadUser(0), Interleaving.Commit(0, at)]
        == [Interleaving.ReadApp(0), Interleaving.ReadUser(0), Interleaving.Commit(0, at)];
    var s1 := Interleaving.DoAll(s0, Interleaving.CreateSteps(create, at)).value;
    NothingYet(create, first, at);
    AppendCommits(s1, first, at);
    var s2 := Interleaving.DoAll(s1, AppendSteps(first, at)).value;
    OnlyTheFirst(create, first, second, at);
    AppendCommits(s2, second, at);
    Interleaving.DoAppend(s0, Interleaving.CreateSteps(create, at), AppendSteps(first, at));
    Interleaving.DoAppend(s0, Interleaving.CreateSteps(create, at) + AppendSteps(first, at), AppendSteps(second, at));
    var end := Interleaving.DoAll(s0, LateCommitSteps(create, first, second, at)).value;
    assert end.log == [Entry(create, at), Entry(first, at), Entry(second, at)];
    Interleaving.InitialInvariant();
    Interleaving.DoAllKeepsInvariant(s0, LateCommitSteps(create, first, second, at));
    Interleaving.InvariantMeans(end);
  }

  lemma {:induction false} NothingYet(create: Op, first: Op, at: Timestamp)
    requires create.CreateOp? && Ready(create) && Error(EMPTY, create).None?
    requires first.AppendOp? && first.key == Target(create) && first.event.id != ""
    ensures Ready(first) && Error(Outcome(EMPTY, create, at), first).None?
  {
    hide Split, NewSession;
  }

  lemma {:induction false} OnlyTheFirst(create: Op, first: Op, second: Op, at: Timestamp)
    requires create.CreateOp? && Ready(create) && Error(EMPTY, create).None?
    requires first.AppendOp? && second.AppendOp? && first.key == Target(create) == second.key
    requires first.event.id != "" && second.event.id != "" && first.event.id != second.event.id
    requires Ready(first) && Error(Outcome(EMPTY, create, at), first).None?
    ensures Ready(second) && Error(Outcome(Outcome(EMPTY, create, at), first, at), second).None?
  {
    hide Split;
  }

  /** An append that can succeed, run from start to commit. */
  lemma {:induction false} AppendCommits(s: Interleaving.System, append: Op, at: Timestamp)
    requires append.AppendOp? && Ready(append) && Error(s.db, append).None? && s.calls == map[]
    ensures Interleaving.DoAll(s, AppendSteps(append, at)) ==
            Some(Interleaving.System(Outcome(s.db, append, at), map[], s.log + [Entry(append, at)]))
  {
    hide Ready, Error, Outcome;
    var start := Interleaving.Start(0, append);
    var begun := Interleaving.Do(s, start);
    Interleaving.DoFirst(s, [start]);
    assert [start][1..] == [];
    assert Interleaving.DoAll(begun, []) == Some(begun);
    Interleaving.ReadAndCommit(begun, 0, at);
    var shared := [Interleaving.ReadApp(0), Interleaving.ReadUser(0), Interleaving.Commit(0, at)];
    Interleaving.DoAppend(s, [start], [Interleaving.ReadSession(0)] + shared);
    assert begun.calls - {0} == map[];
  }

  // Listing after an append

  /** Its row sorts after every row the session has. */
  predicate Latest(db: Database, k: SessionKey, r: RowKey) {
    forall e | e in db.events && e.session == k :: Less(RowKey(ColumnOf(db.events[e]), e.eventId), r)
  }

  /** Timestamps that strictly increase in microseconds are enough. */
  lemma {:induction false} LaterIsLatest(db: Database, k: SessionKey, r: RowKey)
    requires forall e | e in db.events && e.session == k :: ColumnOf(db.events[e]) < r.micros
    ensures Latest(db, k, r)
  {
  }

  /** Tables that differ by one new event whose row sorts last: the listing grows at its end. */
  lemma {:induction false} ListedGrows(db: Database, next: Database, k: SessionKey, p: PbEvent)
    requires EventKeyOf(p).session == k && EventKeyOf(p) !in db.events
    requires forall id :: Row(next.events, EventKey(k, id)) ==
                          if id == p.id then Some(p) else Row(db.events, EventKey(k, id))
    requires Latest(db, k, RowOf(p))
    ensures Listed(next, k, ZERO_INSTANT, 0) == Listed(db, k, ZERO_INSTANT, 0) + [p]
  {
    hide Less, EventRows, Ascending, IsListing;
    var prior, later, r := EventRows(db, k), EventRows(next, k), RowOf(p);
    forall x
      ensures x in later <==> x in prior + {r}
      ensures x in prior ==> Less(x, r) && x.id != p.id
    {
      EventRowAt(db, k, x);
      EventRowAt(next, k, x);
      assert Row(next.events, EventKey(k, x.id)) == if x.id == p.id then Some(p) else Row(db.events, EventKey(k, x.id));
    }
    var s := Ascending(prior);
    ListingGrows(prior, s, r);
    assert later == prior + {r};
    ListingIsUnique(later, true, s + [r], Ascending(later));
    AllRows(prior);
    AllRows(later);
    ListedRowsExist(db, k, ZERO_INSTANT, 0);
    ListedRowsExist(next, k, ZERO_INSTANT, 0);
    forall i | 0 <= i < |s|
      ensures EventKey(k, s[i].id) in db.events && EventKey(k, s[i].id) in next.events
      ensures next.events[EventKey(k, s[i].id)] == db.events[EventKey(k, s[i].id)]
    {
      assert s[i] in s;
      var id := s[i].id;
      assert Row(next.events, EventKey(k, id)) == if id == p.id then Some(p) else Row(db.events, EventKey(k, id));
    }
    assert Row(next.events, EventKey(k, p.id)) == Some(p);
  }

  /** Tables that differ by one new event: its id goes somewhere into the listed ones, at the end
      exactly if its row sorts last. */
  lemma {:induction false} ListedIdsGrow(db: Database, next: Database, k: SessionKey, p: PbEvent) returns (i: nat)
    requires EventKeyOf(p).session == k && EventKeyOf(p) !in db.events
    requires forall id :: Row(next.events, EventKey(k, id)) ==
                          if id == p.id then Some(p) else Row(db.events, EventKey(k, id))
    ensures i <= |ListedIds(db, k)| && p.id !in ListedIds(db, k)
    ensures ListedIds(next, k) == ListedIds(db, k)[..i] + [p.id] + ListedIds(db, k)[i..]
    ensures i == |ListedIds(db, k)| <==> Latest(db, k, RowOf(p))
  {
    hide Less, EventRows, Ascending, IsListing;
    var prior, later, r := EventRows(db, k), EventRows(next, k), RowOf(p);
    forall x
      ensures x in later <==> x in prior + {r}
      ensures x in prior ==> x.id != p.id
    {
      EventRowAt(db, k, x);
      EventRowAt(next, k, x);
      assert Row(next.events, EventKey(k, x.id)) == if x.id == p.id then Some(p) else Row(db.events, EventKey(k, x.id));
    }
    assert later == prior + {r};
    i := InsertedRow(prior, r);
    LatestIsLast(db, k, r);
    if p.id in ListedIds(db, k) {
      var j :| 0 <= j < |ListedIds(db, k)| && ListedIds(db, k)[j] == p.id;
      ListedIdIsRow(prior, j);
      assert false;
    }
  }

  lemma {:induction false} ListedIdIsRow(rows: set<RowKey>, j: nat)
    requires j < |Ascending(rows)|
    ensures Ascending(rows)[j] in rows
  {
  }

  lemma {:induction false} LatestIsLast(db: Database, k: SessionKey, r: RowKey)
    ensures Latest(db, k, r) <==> forall x | x in EventRows(db, k) :: Less(x, r)
  {
    hide Less;
    if Latest(db, k, r) {
      forall x | x in EventRows(db, k)
        ensures Less(x, r)
      {
        EventRowAt(db, k, x);
        assert EventKey(k, x.id).session == k;
      }
    }
    if forall x | x in EventRows(db, k) :: Less(x, r) {
      forall e | e in db.events && e.session == k
        ensures Less(RowKey(ColumnOf(db.events[e]), e.eventId), r)
      {
        assert RowKey(ColumnOf(db.events[e]), e.eventId) in EventRows(db, k);
      }
    }
  }

  lemma {:induction false} ListedIdsFrame(db: Database, next: Database, k: SessionKey)
    requires forall id :: Row(next.events, EventKey(k, id)) == Row(db.events, EventKey(k, id))
    ensures ListedIds(next, k) == ListedIds(db, k)
  {
    hide EventRows;
    forall x
      ensures x in EventRows(db, k) <==> x in EventRows(next, k)
    {
      EventRowAt(db, k, x);
      EventRowAt(next, k, x);
      assert Row(next.events, EventKey(k, x.id)) == Row(db.events, EventKey(k, x.id));
    }
    assert EventRows(db, k) == EventRows(next, k);
  }

  lemma {:induction false} AllRows(rows: set<RowKey>)
    ensures Window(rows, ZERO_INSTANT, 0) == Ascending(rows)
  {
    hide Ascending;
    assert Filtered(rows, ZERO_INSTANT) == rows;
  }

  lemma {:induction false} ListingGrows(rows: set<RowKey>, s: seq<RowKey>, r: RowKey)
    requires IsListing(rows, true, s) && forall x | x in rows :: Less(x, r)
    ensures IsListing(rows + {r}, true, s + [r])
  {
    hide Less;
    assert forall i | 0 <= i < |s| :: s[i] in s;
  }

  /** Tables with the same events of a session list them alike. */
  lemma {:induction false} ListedFrame(db: Database, next: Database, k: SessionKey, after: Instant, numRecent: int)
    requires forall id :: Row(next.events, EventKey(k, id)) == Row(db.events, EventKey(k, id))
    ensures Listed(next, k, after, numRecent) == Listed(db, k, after, numRecent)
  {
    hide Window, EventRows;
    forall x
      ensures x in EventRows(db, k) <==> x in EventRows(next, k)
    {
      EventRowAt(db, k, x);
      EventRowAt(next, k, x);
      assert Row(next.events, EventKey(k, x.id)) == Row(db.events, EventKey(k, x.id));
    }
    assert EventRows(db, k) == EventRows(next, k);
    ListedRowsExist(db, k, after, numRecent);
    var rows := Window(EventRows(db, k), after, numRecent);
    forall i | 0 <= i < |rows|
      ensures EventKey(k, rows[i].id) in db.events
      ensures EventKey(k, rows[i].id) in next.events
      ensures next.events[EventKey(k, rows[i].id)] == db.events[EventKey(k, rows[i].id)]
    {
      assert rows[i] in rows;
      assert Row(next.events, EventKey(k, rows[i].id)) == Row(db.events, EventKey(k, rows[i].id));
    }
  }
}
