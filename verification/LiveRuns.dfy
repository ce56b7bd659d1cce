/** Whole runs of calls through a live session handle, against the store: when the handle still shows
    what a fresh read would give. */
module LiveRuns {
  import opened Wrappers
  import opened Values
  import opened Timestamps
  import opened Messages
  import opened Events
  import opened ScopedState
  import opened Tables
  import opened Transactions
  import opened History
  import opened EventWindow
  import opened Folds
  import opened Listing
  import opened LiveSession
  import Interleaving

  /** A handle and the history of its store. */
  datatype World = World(log: Log, view: View)

  /** What can happen next: a call through the handle; a call whose answer is lost, so that the
      handle does not hear whether its event was stored; or some other transaction committing. */
  datatype Act = Own(event: Event, draws: Draws) | Unheard(event: Event, draws: Draws) | Foreign(entry: Entry)

  function LogAfter(t: EventEnums, w: World, e: Event, d: Draws): Log {
    if Commits(t, After(w.log), w.view.key, e, d) then w.log + [Entry(AppendOf(t, w.view.key, e, d), d.at)] else w.log
  }

  function Next(t: EventEnums, w: World, act: Act): World {
    match act
    case Foreign(entry) => w.(log := w.log + [entry])
    case Own(e, d) => World(LogAfter(t, w, e, d), AppendOutcome(t, After(w.log), w.view, e, d).view)
    case Unheard(e, d) => w.(log := LogAfter(t, w, e, d))
  }

  /** A transaction that writes neither the session nor the shared rows it shows. */
  predicate Spares(op: Op, k: SessionKey) {
    && Target(op) != k
    && (Target(op).appName == k.appName ==> AppDelta(op) == map[])
    && (UserKeyOf(Target(op)) == UserKeyOf(k) ==> UserDelta(op) == map[])
  }

  /** The handle is the only writer of what it shows: others commit, but elsewhere. */
  predicate OnlyWriter(t: EventEnums, w: World, act: Act) {
    match act
    case Own(_, d) => d.Usable()
    case Unheard(_, d) => d.Usable()
    case Foreign(entry) => Valid(w.log + [entry]) && Spares(entry.op, w.view.key)
  }

  predicate OnlyWriterThroughout(t: EventEnums, w: World, acts: seq<Act>)
    decreases |acts|
  {
    acts == [] || (OnlyWriter(t, w, acts[0]) && OnlyWriterThroughout(t, Next(t, w, acts[0]), acts[1..]))
  }

  function Run(t: EventEnums, w: World, acts: seq<Act>): World
    decreases |acts|
  {
    if acts == [] then w else Run(t, Next(t, w, acts[0]), acts[1..])
  }

  predicate Sound(w: World) {
    Valid(w.log) && Agrees(After(w.log), w.view)
  }

  /** What holds of a handle whether or not it has heard of all its events. */
  predicate Tracks(w: World) {
    Valid(w.log) && w.view.key in After(w.log).sessions && KeepsStorable(w.view.state)
  }

  /** The event an act stores, if it does. */
  function StoredBy(t: EventEnums, w: World, act: Act): seq<Event> {
    if !act.Foreign? && Commits(t, After(w.log), w.view.key, act.event, act.draws)
    then [Assigned(act.event, act.draws)] else []
  }

  /** The event an act stores and the handle records. */
  function HeardBy(t: EventEnums, w: World, act: Act): seq<Event> {
    if act.Own? then StoredBy(t, w, act) else []
  }

  function StoredDuring(t: EventEnums, w: World, acts: seq<Act>): seq<Event>
    decreases |acts|
  {
    if acts == [] then []
    else StoredBy(t, w, acts[0]) + StoredDuring(t, Next(t, w, acts[0]), acts[1..])
  }

  function HeardDuring(t: EventEnums, w: World, acts: seq<Act>): seq<Event>
    decreases |acts|
  {
    if acts == [] then []
    else HeardBy(t, w, acts[0]) + HeardDuring(t, Next(t, w, acts[0]), acts[1..])
  }

  /** The act stores nothing the handle does not hear of. */
  predicate Heard(t: EventEnums, w: World, act: Act) {
    act.Unheard? ==> StoredBy(t, w, act) == []
  }

  predicate HeardThroughout(t: EventEnums, w: World, acts: seq<Act>)
    decreases |acts|
  {
    acts == [] || (Heard(t, w, acts[0]) && HeardThroughout(t, Next(t, w, acts[0]), acts[1..]))
  }

  lemma {:induction false} HeardIsStored(t: EventEnums, w: World, acts: seq<Act>)
    requires HeardThroughout(t, w, acts)
    ensures HeardDuring(t, w, acts) == StoredDuring(t, w, acts)
    decreases |acts|
  {
    hide Commits, Next, Assigned;
    if acts == [] {
    } else {
      HeardIsStored(t, Next(t, w, acts[0]), acts[1..]);
    }
  }

  // State over runs

  /** The deltas of events, as they read back. */
  function DeltasOf(es: seq<Event>): seq<State> {
    seq(|es|, i requires 0 <= i < |es| => ReadBackState(Entries(es[i].actions.stateDelta)))
  }

  /** The time of the last event, or the time before. */
  function TimeAfter(time: Instant, es: seq<Event>): Instant {
    if es == [] then time else es[|es| - 1].timestamp
  }

  /** The time and the state a fresh read gives. */
  function TimeOf(w: World): Instant
    requires Tracks(w)
  {
    TimeFromProto(After(w.log).sessions[w.view.key].updateTime)
  }

  function FreshOf(w: World): State
    requires Tracks(w)
  {
    FreshState(After(w.log), w.view.key)
  }

  /** What one more commit makes of a log. */
  lemma {:induction false} Extended(log: Log, e: Entry)
    requires Valid(log + [e])
    ensures Valid(log) && Ready(e.op) && Error(After(log), e.op).None? && Coherent(After(log))
    ensures After(log + [e]) == Outcome(After(log), e.op, e.at)
  {
    hide Valid, After, Coherent, Ready, Error, Outcome;
    assert Before(log + [e]) == log && Last(log + [e]) == e;
    LastEntry(log + [e]);
    HistoryIsCoherent(log);
  }

  /** What a call makes of a log. */
  lemma {:induction false} LogGrows(t: EventEnums, w: World, e: Event, d: Draws)
    requires Valid(w.log)
    ensures var longer, db, k := LogAfter(t, w, e, d), After(w.log), w.view.key;
            && Valid(longer) && Coherent(db)
            && if Commits(t, db, k, e, d) then
                 var op := AppendOf(t, k, e, d);
                 Ready(op) && Error(db, op).None? && After(longer) == Outcome(db, op, d.at)
               else longer == w.log
  {
    hide Valid, After, AppendOutcome, Execute, Ready, Outcome, Error, EventProto, Assigned, ReadsPast, Coherent;
    HistoryIsCoherent(w.log);
    CallMeaning(t, After(w.log), w.view, e, d);
    if Commits(t, After(w.log), w.view.key, e, d) {
      var op := AppendOf(t, w.view.key, e, d);
      ExecuteMeaning(After(w.log), op, d.at);
      Interleaving.CommitExtends(w.log, Entry(op, d.at));
    }
  }

  /** A commit elsewhere leaves everything a fresh read of the session shows. */
  lemma {:induction false} ForeignStep(t: EventEnums, db: Database, op: Op, at: Timestamp, k: SessionKey)
    requires Coherent(db) && Ready(op) && Error(db, op).None? && Spares(op, k) && k in db.sessions
    ensures var next := Outcome(db, op, at);
            && Row(next.sessions, k) == Row(db.sessions, k)
            && FreshState(next, k) == FreshState(db, k)
            && (forall id :: Row(next.events, EventKey(k, id)) == Row(db.events, EventKey(k, id)))
            && FreshEvents(t, next, k) == FreshEvents(t, db, k)
            && ListedIds(next, k) == ListedIds(db, k)
  {
    hide Ready, Error, Target, AppDelta, UserDelta, SessionsAfter, EventsAfter, AppsAfter, UsersAfter, AppStateOf,
         UserStateOf, Listed, EventBack, Merge, Coherent, ListedIds;
    var next := Outcome(db, op, at);
    assert forall m: Struct :: m + map[] == m;
    KeysAgree(db, Target(op));
    OnlyTargetRow(db, op, k);
    AppStep(db, op, at, k.appName);
    UserStep(db, op, at, UserKeyOf(k));
    OnlyTargetEvents(db, op, k);
    ListedFrame(db, next, k, ZERO_INSTANT, 0);
    ListedIdsFrame(db, next, k);
  }

  lemma {:induction false} KeysAgree(db: Database, k: SessionKey)
    requires Coherent(db)
    ensures k in db.sessions ==> KeyOf(db.sessions[k]) == k
  {
  }

  /** What the tables and the handle know after one act, of state and time. */
  predicate Moves(w: World, next: World, stored: seq<Event>, heard: seq<Event>)
    requires Tracks(w)
  {
    && Tracks(next) && next.view.key == w.view.key
    && TimeOf(next) == TimeAfter(TimeOf(w), stored)
    && FreshOf(next) == Fold(FreshOf(w), DeltasOf(stored))
    && next.view.updateTime == TimeAfter(w.view.updateTime, heard)
    && ReadBackState(next.view.state) == Fold(ReadBackState(w.view.state), DeltasOf(heard))
  }

  lemma {:induction false} StepMoves(t: EventEnums, w: World, act: Act)
    requires Tracks(w) && OnlyWriter(t, w, act)
    ensures Moves(w, Next(t, w, act), StoredBy(t, w, act), HeardBy(t, w, act))
  {
    hide Valid, After, Coherent, AppendOutcome, Ready, Error, Outcome, Spares, FreshState, ReadBackState,
         KeepsStorable, Commits, AppendOf, Fold, LogAfter, Assigned;
    var db, k := After(w.log), w.view.key;
    FoldOfNothing(FreshState(db, k));
    FoldOfNothing(ReadBackState(w.view.state));
    assert DeltasOf([]) == [];
    match act
    case Own(e, d) =>
      LogGrows(t, w, e, d);
      CallMeaning(t, db, w.view, e, d);
      if Commits(t, db, k, e, d) {
        CommittedState(t, db, k, e, d);
        ReadBackOfSum(w.view.state, Entries(Assigned(e, d).actions.stateDelta));
        OneDelta(FreshState(db, k), Assigned(e, d));
        OneDelta(ReadBackState(w.view.state), Assigned(e, d));
      }
    case Unheard(e, d) =>
      LogGrows(t, w, e, d);
      CallMeaning(t, db, w.view, e, d);
      if Commits(t, db, k, e, d) {
        CommittedState(t, db, k, e, d);
        OneDelta(FreshState(db, k), Assigned(e, d));
      }
    case Foreign(entry) =>
      Extended(w.log, entry);
      ForeignStep(t, db, entry.op, entry.at, k);
  }

  lemma {:induction false} OneDelta(m: State, e: Event)
    ensures Fold(m, DeltasOf([e])) == m + ReadBackState(Entries(e.actions.stateDelta))
  {
    hide ReadBackState;
    var deltas := DeltasOf([e]);
    assert deltas == [] + [ReadBackState(Entries(e.actions.stateDelta))];
    FoldOfNothing(m);
    FoldOfOneMore(m, [], ReadBackState(Entries(e.actions.stateDelta)));
  }

  lemma {:induction false} MovesTwice(
      a: World, b: World, c: World, s1: seq<Event>, h1: seq<Event>, s2: seq<Event>, h2: seq<Event>)
    requires Tracks(a) && Moves(a, b, s1, h1) && Moves(b, c, s2, h2)
    ensures Moves(a, c, s1 + s2, h1 + h2)
  {
    hide Tracks, FreshOf, TimeOf, ReadBackState, Fold;
    MovedKey(a, b, s1, h1);
    assert DeltasOf(s1 + s2) == DeltasOf(s1) + DeltasOf(s2);
    assert DeltasOf(h1 + h2) == DeltasOf(h1) + DeltasOf(h2);
    FoldOfBoth(FreshOf(a), DeltasOf(s1), DeltasOf(s2));
    FoldOfBoth(ReadBackState(a.view.state), DeltasOf(h1), DeltasOf(h2));
  }

  lemma {:induction false} MovedKey(a: World, b: World, stored: seq<Event>, heard: seq<Event>)
    requires Tracks(a) && Moves(a, b, stored, heard)
    ensures Tracks(b) && b.view.key == a.view.key
  {
  }

  lemma {:induction false} RunMoves(t: EventEnums, w: World, acts: seq<Act>)
    requires Tracks(w) && OnlyWriterThroughout(t, w, acts)
    ensures Moves(w, Run(t, w, acts), StoredDuring(t, w, acts), HeardDuring(t, w, acts))
    decreases |acts|
  {
    hide Tracks, Moves, OnlyWriter, Next, StoredBy, HeardBy;
    if acts == [] {
      NothingMoves(w);
    } else {
      var next := Next(t, w, acts[0]);
      StepMoves(t, w, acts[0]);
      MovedKey(w, next, StoredBy(t, w, acts[0]), HeardBy(t, w, acts[0]));
      RunMoves(t, next, acts[1..]);
      MovesTwice(w, next, Run(t, next, acts[1..]), StoredBy(t, w, acts[0]), HeardBy(t, w, acts[0]),
                 StoredDuring(t, next, acts[1..]), HeardDuring(t, next, acts[1..]));
    }
  }

  lemma {:induction false} NothingMoves(w: World)
    requires Tracks(w)
    ensures Moves(w, w, [], [])
  {
    hide Tracks, FreshOf, TimeOf, ReadBackState, Fold;
    assert DeltasOf([]) == [];
    FoldOfNothing(FreshOf(w));
    FoldOfNothing(ReadBackState(w.view.state));
  }

  /** The live session against the store, over any run of calls through a handle that is the only
      writer of what it shows, partial and failing calls and lost answers included. At the end the
      handle's update time and state are those of a fresh Get exactly when the last stored event
      has the time of the last one it heard of, and every key was last set by them all as it was
      last set by those it heard of. */
  lemma {:induction false} LiveSessionAgreesExactly(t: EventEnums, w: World, acts: seq<Act>)
    requires Sound(w) && OnlyWriterThroughout(t, w, acts)
    ensures var end, stored, heard := Run(t, w, acts), StoredDuring(t, w, acts), HeardDuring(t, w, acts);
            var time, state := w.view.updateTime, ReadBackState(w.view.state);
            && end.view.key == w.view.key
            && (Sound(end) <==>
                  && TimeAfter(time, stored) == TimeAfter(time, heard)
                  && forall name :: Settled(state, DeltasOf(stored), name) == Settled(state, DeltasOf(heard), name))
  {
    hide OnlyWriterThroughout, Run, StoredDuring, HeardDuring, Fold, Settled, ReadBackState, FreshState,
         KeepsStorable, Valid, After, DeltasOf, TimeAfter;
    RunMoves(t, w, acts);
    SameFold(ReadBackState(w.view.state), DeltasOf(StoredDuring(t, w, acts)), DeltasOf(HeardDuring(t, w, acts)));
  }

  /** In particular they are when every answer that told of a stored event arrived. */
  lemma {:induction false} LiveSessionAgrees(t: EventEnums, w: World, acts: seq<Act>)
    requires Sound(w) && OnlyWriterThroughout(t, w, acts) && HeardThroughout(t, w, acts)
    ensures Sound(Run(t, w, acts)) && Run(t, w, acts).view.key == w.view.key
  {
    hide Sound, OnlyWriterThroughout, HeardThroughout, Run, StoredDuring, HeardDuring, Settled, DeltasOf, TimeAfter;
    LiveSessionAgreesExactly(t, w, acts);
    HeardIsStored(t, w, acts);
  }

  // Event lists

  /** What an event reads back as. */
  function RoundTrip(t: EventEnums, k: SessionKey, e: Event): Event {
    match EventProto(t, k, e) case Ok(p) => EventBack(t, p) case Err(_) => e
  }

  function RoundTrips(t: EventEnums, k: SessionKey, es: seq<Event>): seq<Event> {
    seq(|es|, i requires 0 <= i < |es| => RoundTrip(t, k, es[i]))
  }

  /** The row a stored event takes: by microseconds, then by id. */
  function RowOfEvent(e: Event): RowKey {
    RowKey(TruncateMicros(e.timestamp), e.id)
  }

  /** What the act stores sorts after every event the session has. */
  predicate ComesLast(t: EventEnums, w: World, act: Act) {
    forall e | e in StoredBy(t, w, act) :: Latest(After(w.log), w.view.key, RowOfEvent(e))
  }

  predicate ComesLastThroughout(t: EventEnums, w: World, acts: seq<Act>)
    decreases |acts|
  {
    acts == [] || (ComesLast(t, w, acts[0]) && ComesLastThroughout(t, Next(t, w, acts[0]), acts[1..]))
  }

  lemma {:induction false} StepKeepsEvents(t: EventEnums, w: World, act: Act)
    requires Tracks(w) && OnlyWriter(t, w, act) && ComesLast(t, w, act)
    ensures var next, k := Next(t, w, act), w.view.key;
            && next.view.events == w.view.events + HeardBy(t, w, act)
            && FreshEvents(t, After(next.log), k) ==
               FreshEvents(t, After(w.log), k) + RoundTrips(t, k, StoredBy(t, w, act))
  {
    hide Valid, After, Coherent, Ready, Error, Outcome, Spares, Commits, FreshEvents, RoundTrips, Latest, LogAfter,
         Assigned, AppendOf, FreshState, AppDelta, UserDelta, Target, KeepsStorable, AppendOutcome, ListedIds;
    var db, k := After(w.log), w.view.key;
    NoRoundTrips(t, k);
    if act.Foreign? {
      Extended(w.log, act.entry);
      ForeignStep(t, db, act.entry.op, act.entry.at, k);
    } else {
      LogGrows(t, w, act.event, act.draws);
      CallMeaning(t, db, w.view, act.event, act.draws);
      if Commits(t, db, k, act.event, act.draws) {
        assert Assigned(act.event, act.draws) in StoredBy(t, w, act);
        AppendListed(t, w, act.event, act.draws);
      }
    }
  }

  lemma {:induction false} NoRoundTrips(t: EventEnums, k: SessionKey)
    ensures RoundTrips(t, k, []) == []
  {
  }

  /** The event row a call stores. */
  lemma {:induction false} AppendedRowOf(t: EventEnums, db: Database, k: SessionKey, e: Event, d: Draws)
    requires d.Usable() && Commits(t, db, k, e, d)
    requires Ready(AppendOf(t, k, e, d)) && Error(db, AppendOf(t, k, e, d)).None?
    ensures var next, event := Outcome(db, AppendOf(t, k, e, d), d.at), Assigned(e, d);
            var p := EventProto(t, k, event).value;
            && RowOf(p) == RowOfEvent(event)
            && EventKeyOf(p).session == k && EventKeyOf(p) !in db.events
            && forall id :: Row(next.events, EventKey(k, id)) ==
                            if id == p.id then Some(p) else Row(db.events, EventKey(k, id))
  {
    hide EventProto, Ready, Error, StoredEvent, Outcome, EventBack, Execute;
    var event, op := Assigned(e, d), AppendOf(t, k, e, d);
    var p, next := EventProto(t, k, event).value, Outcome(db, op, d.at);
    StoredIsConverted(t, k, event, d.freshId, d.now);
    ConvertedFields(t, k, event);
    forall id
      ensures Row(next.events, EventKey(k, id)) == if id == p.id then Some(p) else Row(db.events, EventKey(k, id))
    {
      AppendedEvents(db, op, d.at, id);
    }
    AppendedEvents(db, op, d.at, p.id);
    ColumnFloors(p.timestamp.value);
  }

  lemma {:induction false} AppendListed(t: EventEnums, w: World, e: Event, d: Draws)
    requires d.Usable() && Commits(t, After(w.log), w.view.key, e, d)
    requires Ready(AppendOf(t, w.view.key, e, d)) && Error(After(w.log), AppendOf(t, w.view.key, e, d)).None?
    requires Latest(After(w.log), w.view.key, RowOfEvent(Assigned(e, d)))
    ensures var k, db := w.view.key, After(w.log);
            FreshEvents(t, Outcome(db, AppendOf(t, k, e, d), d.at), k) ==
            FreshEvents(t, db, k) + RoundTrips(t, k, [Assigned(e, d)])
  {
    hide EventProto, Ready, Error, After, StoredEvent, Outcome, Latest, Listed, EventBack, Execute, Assigned;
    var k, db, event, op := w.view.key, After(w.log), Assigned(e, d), AppendOf(t, w.view.key, e, d);
    var p, next := EventProto(t, k, event).value, Outcome(db, op, d.at);
    AppendedRowOf(t, db, k, e, d);
    ListedGrows(db, next, k, p);
    EventsBackGrows(t, Listed(db, k, ZERO_INSTANT, 0), p);
    assert RoundTrips(t, k, [event]) == [EventBack(t, p)];
  }

  lemma {:induction false} StepTracks(t: EventEnums, w: World, act: Act)
    requires Tracks(w) && OnlyWriter(t, w, act)
    ensures Tracks(Next(t, w, act)) && Next(t, w, act).view.key == w.view.key
  {
    hide Tracks, OnlyWriter, Next, StoredBy, HeardBy, Moves;
    StepMoves(t, w, act);
    MovedKey(w, Next(t, w, act), StoredBy(t, w, act), HeardBy(t, w, act));
  }

  /** The event lists, when each stored event sorts after the earlier ones: the handle has grown
      by the events it heard of, and the list a fresh Get returns by what all the stored ones read
      back as. */
  lemma {:induction false} LiveEventsAgree(t: EventEnums, w: World, acts: seq<Act>)
    requires Tracks(w) && OnlyWriterThroughout(t, w, acts) && ComesLastThroughout(t, w, acts)
    ensures var end, k := Run(t, w, acts), w.view.key;
            && end.view.events == w.view.events + HeardDuring(t, w, acts)
            && FreshEvents(t, After(end.log), k) ==
               FreshEvents(t, After(w.log), k) + RoundTrips(t, k, StoredDuring(t, w, acts))
    decreases |acts|
  {
    hide Tracks, OnlyWriter, Next, After, FreshEvents, RoundTrips, StoredBy, HeardBy, ComesLast;
    if acts == [] {
      NoRoundTrips(t, w.view.key);
    } else {
      var act, k := acts[0], w.view.key;
      StepTracks(t, w, act);
      StepKeepsEvents(t, w, act);
      LiveEventsAgree(t, Next(t, w, act), acts[1..]);
      RoundTripsOfBoth(t, k, StoredBy(t, w, act), StoredDuring(t, Next(t, w, act), acts[1..]));
    }
  }

  lemma {:induction false} RoundTripsOfBoth(t: EventEnums, k: SessionKey, a: seq<Event>, b: seq<Event>)
    ensures RoundTrips(t, k, a + b) == RoundTrips(t, k, a) + RoundTrips(t, k, b)
  {
    hide RoundTrip;
  }

  // Ids, in any order

  function IdsOf(es: seq<Event>): seq<string> {
    seq(|es|, i requires 0 <= i < |es| => es[i].id)
  }

  /** The ids a fresh Get lists. */
  lemma {:induction false} FreshIds(t: EventEnums, db: Database, k: SessionKey)
    requires Coherent(db)
    ensures IdsOf(FreshEvents(t, db, k)) == ListedIds(db, k)
  {
    hide Window, Ascending, EventRows, CoherentSessions;
    AllRows(EventRows(db, k));
    ListedRowsExist(db, k, ZERO_INSTANT, 0);
    var rows := Ascending(EventRows(db, k));
    forall i | 0 <= i < |rows|
      ensures IdsOf(FreshEvents(t, db, k))[i] == rows[i].id
    {
      assert rows[i] in rows;
      assert CoherentEvent(EventKey(k, rows[i].id), db.events[EventKey(k, rows[i].id)]);
    }
  }

  /** The handle's ids are the listed ones. */
  ghost predicate SameIds(w: World) {
    IdsOf(w.view.events) == ListedIds(After(w.log), w.view.key)
  }

  ghost predicate NoMoreIds(w: World) {
    |w.view.events| <= |ListedIds(After(w.log), w.view.key)|
  }

  /** After one act the two id lists are the same exactly when they were before, and whatever it
      stored was heard of and came last. */
  lemma {:induction false} StepIds(t: EventEnums, w: World, act: Act)
    requires Tracks(w) && OnlyWriter(t, w, act) && NoMoreIds(w)
    ensures NoMoreIds(Next(t, w, act))
    ensures SameIds(Next(t, w, act)) <==> SameIds(w) && Heard(t, w, act) && ComesLast(t, w, act)
  {
    hide Valid, After, Coherent, Ready, Error, Outcome, Spares, Commits, FreshEvents, Latest, LogAfter, Assigned,
         AppendOf, FreshState, AppDelta, UserDelta, Target, KeepsStorable, AppendOutcome, ListedIds, IdsOf;
    var db, k := After(w.log), w.view.key;
    NumberOfIds(w.view.events);
    if act.Foreign? {
      Extended(w.log, act.entry);
      ForeignStep(t, db, act.entry.op, act.entry.at, k);
    } else {
      LogGrows(t, w, act.event, act.draws);
      CallMeaning(t, db, w.view, act.event, act.draws);
      if Commits(t, db, k, act.event, act.draws) {
        StoredIds(t, w, act);
      }
    }
  }

  lemma {:induction false} NumberOfIds(es: seq<Event>)
    ensures |IdsOf(es)| == |es|
  {
  }

  lemma {:induction false} StoredIds(t: EventEnums, w: World, act: Act)
    requires Valid(w.log) && !act.Foreign? && act.draws.Usable() && NoMoreIds(w)
    requires Commits(t, After(w.log), w.view.key, act.event, act.draws)
    ensures NoMoreIds(Next(t, w, act))
    ensures SameIds(Next(t, w, act)) <==> SameIds(w) && Heard(t, w, act) && ComesLast(t, w, act)
  {
    hide Valid, After, Coherent, Ready, Error, Outcome, Commits, Latest, LogAfter, Assigned, EventProto,
         AppendOutcome, ListedIds;
    var db, k, e, d := After(w.log), w.view.key, act.event, act.draws;
    var event, next := Assigned(e, d), Next(t, w, act);
    LogGrows(t, w, e, d);
    CallMeaning(t, db, w.view, e, d);
    CommitConverts(t, db, k, e, d);
    AppendedRowOf(t, db, k, e, d);
    ConvertedFields(t, k, event);
    var i := ListedIdsGrow(db, After(next.log), k, EventProto(t, k, event).value);
    var before, after := ListedIds(db, k), ListedIds(After(next.log), k);
    assert ComesLast(t, w, act) <==> i == |before|;
    if act.Own? {
      assert IdsOf(next.view.events) == IdsOf(w.view.events) + [event.id];
      InsertedAtEnd(IdsOf(w.view.events), before, event.id, i);
    }
  }

  lemma {:induction false} CommitConverts(t: EventEnums, db: Database, k: SessionKey, e: Event, d: Draws)
    requires Commits(t, db, k, e, d)
    ensures EventProto(t, k, Assigned(e, d)).Ok?
  {
  }

  lemma {:induction false} InsertedAtEnd(a: seq<string>, b: seq<string>, x: string, i: nat)
    requires i <= |b| && x !in b
    ensures a + [x] == b[..i] + [x] + b[i..] <==> a == b && i == |b|
  {
    var left, right := a + [x], b[..i] + [x] + b[i..];
    assert left[|left| - 1] == x;
    assert i < |b| ==> right[|right| - 1] == b[|b| - 1] && b[|b| - 1] in b;
    if left == right {
      if i == |b| {
        assert right == b + [x];
        assert left[..|left| - 1] == a && right[..|right| - 1] == b;
      }
    } else if i == |b| {
      assert right == b + [x];
    }
  }

  /** The order of the two lists, over any run: they hold the same ids in the same order at the
      end exactly when they did at the start, every stored event was heard of, and each came after
      all earlier ones. */
  lemma {:induction false} LiveIdsAgree(t: EventEnums, w: World, acts: seq<Act>)
    requires Tracks(w) && OnlyWriterThroughout(t, w, acts) && NoMoreIds(w)
    ensures SameIds(Run(t, w, acts)) <==> SameIds(w) && HeardThroughout(t, w, acts) && ComesLastThroughout(t, w, acts)
    decreases |acts|
  {
    hide Tracks, OnlyWriter, Next, SameIds, NoMoreIds, Heard, ComesLast;
    if acts == [] {
    } else {
      StepTracks(t, w, acts[0]);
      StepIds(t, w, acts[0]);
      LiveIdsAgree(t, Next(t, w, acts[0]), acts[1..]);
    }
  }

  /** So a handle that began with the whole list ends with exactly the list a fresh Get returns if
      and only if it heard of every event it stored, each of them came last, and all of them are
      canonical. */
  lemma {:induction false} LiveEventsAreFresh(t: EventEnums, w: World, acts: seq<Act>)
    requires t.Valid() && Tracks(w) && OnlyWriterThroughout(t, w, acts)
    requires w.view.events == FreshEvents(t, After(w.log), w.view.key)
    ensures Run(t, w, acts).view.events == FreshEvents(t, After(Run(t, w, acts).log), w.view.key) <==>
            && HeardThroughout(t, w, acts) && ComesLastThroughout(t, w, acts)
            && forall e | e in StoredDuring(t, w, acts) :: CanonicalEvent(t, e)
  {
    hide OnlyWriterThroughout, ComesLastThroughout, HeardThroughout, Run, After, FreshEvents, CanonicalEvent,
         EventProto, EventBack, StoredDuring, HeardDuring, ListedIds, Valid, Coherent, KeepsStorable, IdsOf;
    var k, end := w.view.key, Run(t, w, acts);
    RunMoves(t, w, acts);
    MovedKey(w, end, StoredDuring(t, w, acts), HeardDuring(t, w, acts));
    HistoryIsCoherent(w.log);
    HistoryIsCoherent(end.log);
    FreshIds(t, After(w.log), k);
    FreshIds(t, After(end.log), k);
    NumberOfIds(w.view.events);
    LiveIdsAgree(t, w, acts);
    if HeardThroughout(t, w, acts) && ComesLastThroughout(t, w, acts) {
      LiveEventsAgree(t, w, acts);
      HeardIsStored(t, w, acts);
      StoredConverts(t, w, acts);
      SameWhenCanonical(t, k, w.view.events, StoredDuring(t, w, acts));
    }
  }

  lemma {:induction false} SameWhenCanonical(t: EventEnums, k: SessionKey, before: seq<Event>, added: seq<Event>)
    requires t.Valid() && forall e | e in added :: EventProto(t, k, e).Ok?
    ensures before + added == before + RoundTrips(t, k, added) <==> forall e | e in added :: CanonicalEvent(t, e)
  {
    hide CanonicalEvent, EventProto, EventBack;
    var back := RoundTrips(t, k, added);
    assert (before + added)[|before|..] == added && (before + back)[|before|..] == back;
    forall i | 0 <= i < |added|
      ensures back[i] == added[i] <==> CanonicalEvent(t, added[i])
    {
      assert added[i] in added;
      EventRoundTrip(t, k, added[i]);
    }
    if added == back {
      forall e | e in added
        ensures CanonicalEvent(t, e)
      {
        var i :| 0 <= i < |added| && added[i] == e;
        assert back[i] == added[i];
      }
    } else {
      var i :| 0 <= i < |added| && added[i] != back[i];
      assert added[i] in added;
    }
  }

  lemma {:induction false} StoredConverts(t: EventEnums, w: World, acts: seq<Act>)
    requires Tracks(w) && OnlyWriterThroughout(t, w, acts)
    ensures forall e | e in StoredDuring(t, w, acts) :: EventProto(t, w.view.key, e).Ok?
    decreases |acts|
  {
    hide Tracks, OnlyWriter, Next, After, EventProto, Execute, Assigned;
    if acts == [] {
    } else {
      StepTracks(t, w, acts[0]);
      StoredConverts(t, Next(t, w, acts[0]), acts[1..]);
    }
  }

  /** A run that starts with a full Get. */
  ghost function FromGet(t: EventEnums, log: Log, k: SessionKey): World
    requires k in After(log).sessions
  {
    World(log, FreshGet(t, After(log), k, ZERO_INSTANT, 0).value)
  }

  /** Altogether: a handle from a full Get that is the only writer ends as what a fresh Get
      returns, but for "temp:" keys and for values that read back in another form, if and only if
      it heard of every event it stored, each of them came last, and all of them are canonical. */
  lemma {:induction false} HandleRefinesStore(t: EventEnums, log: Log, k: SessionKey, acts: seq<Act>)
    requires t.Valid() && Valid(log) && k in After(log).sessions
    requires OnlyWriterThroughout(t, FromGet(t, log, k), acts)
    ensures var w := FromGet(t, log, k);
            var end := Run(t, w, acts);
            FreshGet(t, After(end.log), k, ZERO_INSTANT, 0) ==
              Ok(end.view.(state := ReadBackState(end.view.state))) <==>
            && HeardThroughout(t, w, acts) && ComesLastThroughout(t, w, acts)
            && forall e | e in StoredDuring(t, w, acts) :: CanonicalEvent(t, e)
  {
    hide OnlyWriterThroughout, ComesLastThroughout, HeardThroughout, Run, After, CanonicalEvent, EventProto,
         EventBack, StoredDuring, HeardDuring, Coherent, Valid, FreshState, ReadBackState, Listed, KeepsStorable;
    var w := FromGet(t, log, k);
    HistoryIsCoherent(log);
    FreshGetAgrees(t, After(log), k, ZERO_INSTANT, 0);
    var end := Run(t, w, acts);
    RunMoves(t, w, acts);
    MovedKey(w, end, StoredDuring(t, w, acts), HeardDuring(t, w, acts));
    LiveEventsAreFresh(t, w, acts);
    HistoryIsCoherent(end.log);
    KeysAgree(After(end.log), k);
    FreshGetShows(t, After(end.log), k);
    if HeardThroughout(t, w, acts) {
      LiveSessionAgrees(t, w, acts);
    }
  }

  lemma {:induction false} FreshGetShows(t: EventEnums, db: Database, k: SessionKey)
    requires k in db.sessions
    ensures FreshGet(t, db, k, ZERO_INSTANT, 0).value.state == FreshState(db, k)
  {
  }

  /** What the act stores is later, by whole microseconds, than every event the session has. */
  predicate IsLater(t: EventEnums, w: World, act: Act) {
    forall e | e in StoredBy(t, w, act) ::
      forall x | x in After(w.log).events && x.session == w.view.key ::
        ColumnOf(After(w.log).events[x]) < TruncateMicros(e.timestamp)
  }

  predicate LaterThroughout(t: EventEnums, w: World, acts: seq<Act>)
    decreases |acts|
  {
    acts == [] || (IsLater(t, w, acts[0]) && LaterThroughout(t, Next(t, w, acts[0]), acts[1..]))
  }

  lemma {:induction false} LaterComesLast(t: EventEnums, w: World, acts: seq<Act>)
    requires LaterThroughout(t, w, acts)
    ensures ComesLastThroughout(t, w, acts)
    decreases |acts|
  {
    hide After, StoredBy, Next, Latest;
    if acts == [] {
    } else {
      var act := acts[0];
      forall e | e in StoredBy(t, w, act)
        ensures Latest(After(w.log), w.view.key, RowOfEvent(e))
      {
        LaterIsLatest(After(w.log), w.view.key, RowOfEvent(e));
      }
      LaterComesLast(t, Next(t, w, act), acts[1..]);
    }
  }

  /** With timestamps that strictly increase in microseconds, hearing of every canonical event is
      all it takes. */
  lemma {:induction false} IncreasingTimesRefine(t: EventEnums, log: Log, k: SessionKey, acts: seq<Act>)
    requires t.Valid() && Valid(log) && k in After(log).sessions
    requires OnlyWriterThroughout(t, FromGet(t, log, k), acts) && LaterThroughout(t, FromGet(t, log, k), acts)
    ensures var w := FromGet(t, log, k);
            var end := Run(t, w, acts);
            FreshGet(t, After(end.log), k, ZERO_INSTANT, 0) ==
              Ok(end.view.(state := ReadBackState(end.view.state))) <==>
            HeardThroughout(t, w, acts) && forall e | e in StoredDuring(t, w, acts) :: CanonicalEvent(t, e)
  {
    hide *;
    LaterComesLast(t, FromGet(t, log, k), acts);
    HandleRefinesStore(t, log, k, acts);
  }
}
