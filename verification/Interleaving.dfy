/** The store under concurrency: any number of calls in flight, each reading rows one at a time,
    retrying, giving up, or committing if the rows it read have not changed since. Every run is
    shown to be one of the serial histories. */
module Interleaving {
  import opened Wrappers
  import opened Timestamps
  import opened Messages
  import opened ScopedState
  import opened Tables
  import opened UpdateMask
  import opened Transactions
  import opened History

  datatype Seen<T> = Unread | Read(row: Option<T>)

  /** What the current attempt of a call has read so far. */
  datatype Attempt = Attempt(session: Seen<Session>, app: Seen<AppState>, user: Seen<UserState>)

  const FRESH_ATTEMPT := Attempt(Unread, Unread, Unread)

  datatype Call = Call(op: Op, attempt: Attempt)

  /** The tables, the calls in flight, and the commits so far. */
  datatype System = System(db: Database, calls: map<nat, Call>, log: Log)

  const INITIAL := System(EMPTY, map[], [])

  datatype Step =
    | Start(p: nat, op: Op)
    | StartUpdate(p: nat, request: Session, paths: seq<string>, now: Instant)
    | ReadSession(p: nat)
    | ReadApp(p: nat)
    | ReadUser(p: nat)
    | Retry(p: nat)
    | Commit(p: nat, at: Timestamp)
    | Abandon(p: nat)

  /** The update a request turns into when it reads the session row now. */
  function UpdateCall(s: System, request: Session, paths: seq<string>, now: Instant, base: Session): Op {
    UpdateOp(request, paths, now, base, |s.log|)
  }

  function RequestRow(s: System, request: Session): Option<Session> {
    Row(s.db.sessions, SessionKey(request.id, request.appName, request.userId))
  }

  /** The rows an operation's transaction has to read before it can commit. */
  predicate HasRead(c: Call) {
    && (c.op.AppendOp? ==> c.attempt.session.Read?)
    && (!c.op.DeleteOp? ==> c.attempt.app.Read? && c.attempt.user.Read?)
  }

  /** A row that was read still has the content it had. */
  predicate Current<T(==)>(seen: Seen<T>, row: Option<T>) {
    seen.Read? ==> seen.row == row
  }

  predicate StillValid(db: Database, c: Call) {
    var now := ReadsOf(db, Target(c.op));
    && Current(c.attempt.session, now.session)
    && Current(c.attempt.app, now.app)
    && Current(c.attempt.user, now.user)
  }

  predicate Enabled(s: System, step: Step) {
    match step
    case Start(p, op) => p !in s.calls && Ready(op) && !op.UpdateOp?
    case StartUpdate(p, request, paths, now) =>
      && p !in s.calls && RequestRow(s, request).Some?
      && Ready(UpdateCall(s, request, paths, now, RequestRow(s, request).value))
    case ReadSession(p) => p in s.calls && s.calls[p].op.AppendOp?
    case ReadApp(p) => p in s.calls && !s.calls[p].op.DeleteOp?
    case ReadUser(p) => p in s.calls && !s.calls[p].op.DeleteOp?
    case Retry(p) => p in s.calls
    case Commit(p, _) => p in s.calls && Ready(s.calls[p].op) && HasRead(s.calls[p]) && StillValid(s.db, s.calls[p])
    case Abandon(p) => p in s.calls
  }

  /** The rows a finished attempt has to go by. */
  function AttemptReads(a: Attempt): Reads {
    Reads(if a.session.Read? then a.session.row else None,
          if a.app.Read? then a.app.row else None,
          if a.user.Read? then a.user.row else None)
  }

  function WithAttempt(s: System, p: nat, a: Attempt): System
    requires p in s.calls
  {
    s.(calls := s.calls[p := s.calls[p].(attempt := a)])
  }

  function Do(s: System, step: Step): System
    requires Enabled(s, step)
  {
    match step
    case Start(p, op) => s.(calls := s.calls[p := Call(op, FRESH_ATTEMPT)])
    case StartUpdate(p, request, paths, now) =>
      s.(calls := s.calls[p := Call(UpdateCall(s, request, paths, now, RequestRow(s, request).value), FRESH_ATTEMPT)])
    case ReadSession(p) =>
      WithAttempt(s, p, s.calls[p].attempt.(session := Read(ReadsOf(s.db, Target(s.calls[p].op)).session)))
    case ReadApp(p) =>
      WithAttempt(s, p, s.calls[p].attempt.(app := Read(ReadsOf(s.db, Target(s.calls[p].op)).app)))
    case ReadUser(p) =>
      WithAttempt(s, p, s.calls[p].attempt.(user := Read(ReadsOf(s.db, Target(s.calls[p].op)).user)))
    case Retry(p) => WithAttempt(s, p, FRESH_ATTEMPT)
    case Commit(p, at) =>
      // The body ran on what was read; its mutations meet the tables as they are now.
      var op, done := s.calls[p].op, s.(calls := s.calls - {p});
      (match Body(op, AttemptReads(s.calls[p].attempt), at)
       case Err(_) => done
       case Ok(muts) =>
         match ApplyAll(s.db, muts)
         case None => done
         case Some(db) => done.(db := db, log := s.log + [Entry(op, at)]))
    case Abandon(p) => s.(calls := s.calls - {p})
  }

  // Refinement

  /** The body of a transaction only looks at rows it has read, so validated reads make it run
      as if it had read everything at the commit. */
  lemma {:induction false} BodyOfValidReads(db: Database, c: Call, at: Timestamp)
    requires Ready(c.op) && HasRead(c) && StillValid(db, c)
    ensures Body(c.op, AttemptReads(c.attempt), at) == Body(c.op, ReadsOf(db, Target(c.op)), at)
  {
    hide Split, DraftOf, Ready;
    if c.op.UpdateOp? {
      DraftKeepsKey(c.op);
    }
  }

  lemma {:induction false} DraftKeepsKey(op: Op)
    requires op.UpdateOp? && Ready(op)
    ensures KeyOf(DraftOf(op.paths, op.request, op.base, op.now).value.next) == Target(op)
  {
    DraftMeaning(op.paths, op.request, op.base, op.now);
  }

  /** Each step is either invisible in the tables or one whole transaction run alone on them. */
  lemma {:induction false} StepIsAtomic(s: System, step: Step)
    requires Enabled(s, step)
    ensures var next := Do(s, step);
            || (next.db == s.db && next.log == s.log)
            || (step.Commit? && step.p in s.calls
                && Execute(s.db, s.calls[step.p].op, step.at) == Ok(next.db)
                && next.log == s.log + [Entry(s.calls[step.p].op, step.at)])
  {
    hide Body, ApplyAll, Ready, Target, HasRead, StillValid;
    if step.Commit? {
      BodyOfValidReads(s.db, s.calls[step.p], step.at);
    }
  }

  /** A commit whose transaction cannot succeed leaves no trace. */
  lemma {:induction false} FailedCommitChangesNothing(s: System, step: Step)
    requires step.Commit? && Enabled(s, step)
    requires Error(s.db, s.calls[step.p].op).Some?
    ensures Do(s, step) == s.(calls := s.calls - {step.p})
  {
    hide Body, ApplyAll, Ready, Target, HasRead, StillValid, Error;
    BodyOfValidReads(s.db, s.calls[step.p], step.at);
    ExecuteMeaning(s.db, s.calls[step.p].op, step.at);
  }

  /** The tables are the outcome of the log, and every update in flight holds a row that some
      prefix of the log explains. */
  ghost predicate Invariant(s: System) {
    && Valid(s.log)
    && s.db == After(s.log)
    && (forall p | p in s.calls :: Ready(s.calls[p].op))
    && (forall p | p in s.calls && s.calls[p].op.UpdateOp? :: ReadsPast(s.log, s.calls[p].op))
  }

  lemma {:induction false} InitialInvariant()
    ensures Invariant(INITIAL)
  {
  }

  lemma {:induction false} StepKeepsInvariant(s: System, step: Step)
    requires Invariant(s) && Enabled(s, step)
    ensures Invariant(Do(s, step))
  {
    hide Execute, Ready, After, Body, ApplyAll, ReadsPast, Target, StillValid, HasRead, Valid;
    var next := Do(s, step);
    StepIsAtomic(s, step);
    if next.log != s.log {
      CommitExtends(s.log, Entry(s.calls[step.p].op, step.at));
    }
    if step.StartUpdate? {
      FreshReadIsPast(s.log, next.calls[step.p].op);
    }
    forall p | p in next.calls && next.calls[p].op.UpdateOp?
      ensures ReadsPast(next.log, next.calls[p].op)
    {
      if p in s.calls {
        PastStaysPast(s.log, next.log, next.calls[p].op);
      }
    }
  }

  lemma {:induction false} CommitExtends(log: Log, e: Entry)
    requires Valid(log) && Ready(e.op) && Execute(After(log), e.op, e.at).Ok?
    requires e.op.UpdateOp? ==> ReadsPast(log, e.op)
    ensures Valid(log + [e]) && After(log + [e]) == Execute(After(log), e.op, e.at).value
  {
    hide Execute, Ready, ReadsPast;
    assert Before(log + [e]) == log && Last(log + [e]) == e;
  }

  lemma {:induction false} FreshReadIsPast(log: Log, op: Op)
    requires op.UpdateOp? && op.readAt == |log|
    requires Row(After(log).sessions, RequestKey(op)) == Some(op.base)
    ensures ReadsPast(log, op)
  {
    assert log[..op.readAt] == log;
  }

  lemma {:induction false} PastStaysPast(log: Log, longer: Log, op: Op)
    requires op.UpdateOp? && ReadsPast(log, op) && log <= longer
    ensures ReadsPast(longer, op)
  {
    assert longer[..op.readAt] == log[..op.readAt];
  }

  // Runs

  /** A run: the steps taken, one after the other, from empty tables and no calls. */
  ghost predicate IsRun(states: seq<System>, steps: seq<Step>) {
    && |states| == |steps| + 1
    && states[0] == INITIAL
    && forall i | 0 <= i < |steps| :: Enabled(states[i], steps[i]) && states[i + 1] == Do(states[i], steps[i])
  }

  /** Serializability: at every point of every run, the tables are those of the committed
      transactions run one by one in commit order, all of them successfully. */
  lemma {:induction false} RunsAreSerial(states: seq<System>, steps: seq<Step>, n: nat)
    requires IsRun(states, steps) && n < |states|
    ensures Valid(states[n].log) && states[n].db == After(states[n].log)
    ensures Invariant(states[n])
  {
    hide Enabled, Do, Invariant;
    if n == 0 {
      InitialInvariant();
    } else {
      RunsAreSerial(states, steps, n - 1);
      StepKeepsInvariant(states[n - 1], steps[n - 1]);
    }
    assert Valid(states[n].log) && states[n].db == After(states[n].log) by {
      InvariantMeans(states[n]);
    }
  }

  lemma {:induction false} InvariantMeans(s: System)
    requires Invariant(s)
    ensures Valid(s.log) && s.db == After(s.log)
  {
  }

  /** What that gives for the tables of any run: the invariant of the rows, and no shared delta
      lost whatever the interleaving. */
  lemma {:induction false} RunTables(states: seq<System>, steps: seq<Step>, n: nat, app: string, u: UserKey)
    requires IsRun(states, steps) && n < |states|
    ensures Coherent(states[n].db)
    ensures AppStateOf(states[n].db, app) == AppFold(states[n].log, app)
    ensures UserStateOf(states[n].db, u) == UserFold(states[n].log, u)
  {
    hide IsRun, Invariant, Coherent;
    RunsAreSerial(states, steps, n);
    HistoryIsCoherent(states[n].log);
    SharedRowsAreFolds(states[n].log, app, u);
  }

  // The race of an update with an append, as a run

  /** The nine steps: the update reads its row, the append runs to its commit, and only then
      does the update read the shared rows and commit. */
  function RaceSteps(update: Step, append: Op, at: Timestamp): seq<Step>
    requires update.StartUpdate?
  {
    var p, q := update.p, update.p + 1;
    [update, Start(q, append), ReadSession(q), ReadApp(q), ReadUser(q), Commit(q, at),
     ReadApp(p), ReadUser(p), Commit(p, at)]
  }

  /** Carries out steps that are enabled one after the other. */
  function DoAll(s: System, steps: seq<Step>): Option<System>
    decreases |steps|
  {
    if steps == [] then Some(s)
    else if Enabled(s, steps[0]) then DoAll(Do(s, steps[0]), steps[1..])
    else None
  }

  lemma {:induction false} DoFirst(s: System, steps: seq<Step>)
    requires steps != [] && Enabled(s, steps[0])
    ensures DoAll(s, steps) == DoAll(Do(s, steps[0]), steps[1..])
  {
    hide Enabled, Do;
  }

  /** A commit whose transaction can succeed does. */
  lemma {:induction false} CommitSucceeds(s: System, p: nat, at: Timestamp)
    requires Enabled(s, Commit(p, at)) && Error(s.db, s.calls[p].op).None?
    ensures Do(s, Commit(p, at)) ==
            System(Outcome(s.db, s.calls[p].op, at), s.calls - {p}, s.log + [Entry(s.calls[p].op, at)])
  {
    hide Body, ApplyAll, Ready, Target, HasRead, StillValid, Error, Outcome;
    BodyOfValidReads(s.db, s.calls[p], at);
    ExecuteMeaning(s.db, s.calls[p].op, at);
  }

  /** From a call that has just started, reading every row leads to an enabled commit. */
  lemma {:induction false} ReadAndCommit(s: System, p: nat, at: Timestamp)
    requires p in s.calls && s.calls[p] == Call(s.calls[p].op, FRESH_ATTEMPT)
    requires !s.calls[p].op.DeleteOp? && Ready(s.calls[p].op) && Error(s.db, s.calls[p].op).None?
    ensures var op := s.calls[p].op;
            var steps := (if op.AppendOp? then [ReadSession(p)] else []) + [ReadApp(p), ReadUser(p), Commit(p, at)];
            DoAll(s, steps) == Some(System(Outcome(s.db, op, at), s.calls - {p}, s.log + [Entry(op, at)]))
  {
    hide Ready, Error, Outcome, Target, ReadsOf;
    var op := s.calls[p].op;
    var now := ReadsOf(s.db, Target(op));
    var tail := [ReadApp(p), ReadUser(p), Commit(p, at)];
    var first := if op.AppendOp? then Do(s, ReadSession(p)) else s;
    if op.AppendOp? {
      var steps := [ReadSession(p)] + tail;
      assert steps[1..] == tail;
      DoFirst(s, steps);
    } else {
      assert [] + tail == tail;
    }
    DoFirst(first, tail);
    var second := Do(first, ReadApp(p));
    assert tail[1..] == [ReadUser(p), Commit(p, at)];
    DoFirst(second, tail[1..]);
    var third := Do(second, ReadUser(p));
    assert tail[1..][1..] == [Commit(p, at)];
    assert third.calls[p].op == op && third.db == s.db && third.log == s.log;
    assert HasRead(third.calls[p]) && StillValid(third.db, third.calls[p]);
    DoFirst(third, [Commit(p, at)]);
    CommitSucceeds(third, p, at);
    assert third.calls - {p} == s.calls - {p};
    assert DoAll(Do(third, Commit(p, at)), []) == Some(Do(third, Commit(p, at)));
  }

  lemma {:induction false} DoAppend(s: System, first: seq<Step>, second: seq<Step>)
    requires DoAll(s, first).Some?
    ensures DoAll(s, first + second) == DoAll(DoAll(s, first).value, second)
    decreases |first|
  {
    hide Enabled, Do;
    if first == [] {
      assert first + second == second;
    } else {
      assert (first + second)[1..] == first[1..] + second;
      DoAppend(Do(s, first[0]), first[1..], second);
    }
  }

  /** The op of an update that reads its row now. */
  function UpdateOf(s: System, update: Step): Op
    requires update.StartUpdate? && Enabled(s, update)
  {
    UpdateCall(s, update.request, update.paths, update.now, RequestRow(s, update.request).value)
  }

  /** The nine steps are enabled in turn, and end with both transactions committed, the append
      first. */
  lemma {:induction false} RaceRuns(s: System, update: Step, append: Op, at: Timestamp)
    requires update.StartUpdate? && Enabled(s, update)
    requires append.AppendOp? && Ready(append) && Error(s.db, append).None? && update.p + 1 !in s.calls
    ensures var op, mid := UpdateOf(s, update), Outcome(s.db, append, at);
            && Ready(op) && Error(mid, op).None?
            && DoAll(s, RaceSteps(update, append, at)) ==
               Some(System(Outcome(mid, op, at), s.calls, s.log + [Entry(append, at), Entry(op, at)]))
  {
    hide Ready, Error, Outcome, Target, ReadsOf, DoAll, Body, ApplyAll, StillValid, HasRead;
    var p, q, op := update.p, update.p + 1, UpdateOf(s, update);
    var s2 := Do(Do(s, update), Start(q, append));
    var start, run, finish := [update, Start(q, append)],
                              [ReadSession(q)] + [ReadApp(q), ReadUser(q), Commit(q, at)],
                              [] + [ReadApp(p), ReadUser(p), Commit(p, at)];
    StartBoth(s, update, Start(q, append));
    ReadAndCommit(s2, q, at);
    var mid := System(Outcome(s.db, append, at), s2.calls - {q}, s.log + [Entry(append, at)]);
    UpdateCannotFail(mid.db, op);
    ReadAndCommit(mid, p, at);
    DoAppend(s, start, run);
    DoAppend(s, start + run, finish);
    assert RaceSteps(update, append, at) == start + run + finish;
    assert mid.calls - {p} == s.calls;
    assert mid.log + [Entry(op, at)] == s.log + [Entry(append, at), Entry(op, at)];
  }

  /** From any reachable state with a session in it: an update reads the session row, an append
      to the session starts and commits, and the update then commits without retrying. All nine
      steps are enabled in turn. At the end the session is back in the state the update read,
      while the event and what it brought to the shared rows are stored. */
  lemma {:induction false} LostDeltaRun(s: System, update: Step, append: Op, at: Timestamp)
    requires Invariant(s) && update.StartUpdate? && Enabled(s, update)
    requires "state" !in PathsOf(update.paths)
    requires append.AppendOp? && Ready(append) && Error(s.db, append).None? && update.p + 1 !in s.calls
    requires append.key == SessionKey(update.request.id, update.request.appName, update.request.userId)
    ensures var end := DoAll(s, RaceSteps(update, append, at));
            var k, u := append.key, UserKey(append.key.appName, append.key.userId);
            var delta := Split(Incoming(append));
            && end.Some? && k in s.db.sessions && k in end.value.db.sessions
            && StateOf(end.value.db.sessions[k].state) == StateOf(s.db.sessions[k].state)
            && EventKey(k, EventIdOf(append.event, append.freshId)) in end.value.db.events
            && Split(StoredDeltaAt(end.value.db, k, EventIdOf(append.event, append.freshId))) == delta
            && AppStateOf(end.value.db, k.appName) == AppStateOf(s.db, k.appName) + delta.app
            && UserStateOf(end.value.db, u) == UserStateOf(s.db, u) + delta.user
  {
    hide Ready, Error, Outcome, Split, Target, ReadsOf, After, Valid, ReadsPast, StateOf, Incoming, EventIdOf,
         Execute, Coherent, PathsOf, StoredDeltaAt, AppStateOf, UserStateOf, DoAll, RaceSteps;
    var op := UpdateOf(s, update);
    RaceRuns(s, update, append, at);
    var mid, end := Outcome(s.db, append, at), DoAll(s, RaceSteps(update, append, at)).value;
    var first, second := Entry(append, at), Entry(op, at);
    ExecuteMeaning(s.db, append, at);
    ExecuteMeaning(mid, op, at);
    CommitExtends(s.log, first);
    FreshReadIsPast(s.log, op);
    PastStaysPast(s.log, s.log + [first], op);
    CommitExtends(s.log + [first], second);
    assert end.log == s.log + [first] + [second];
    StaleUpdateLosesDelta(s.log, first, second);
  }

  /** The steps by which a session is created. */
  function CreateSteps(create: Op, at: Timestamp): seq<Step> {
    [Start(0, create)] + [ReadApp(0), ReadUser(0), Commit(0, at)]
  }

  /** So it happens: for every session, every event and every supported mask without state there
      is a run from empty tables that ends with the event stored and with the state the session
      was created with. */
  lemma {:induction false} LostDeltaIsReachable(
      create: Op, event: PbEvent, request: Session, paths: seq<string>, now: Instant, at: Timestamp)
    requires create.CreateOp? && Ready(create) && event.id != ""
    requires KeyOf(request) == Target(create)
    requires "state" !in PathsOf(paths) && forall i | 0 <= i < |PathsOf(paths)| :: Supported(PathsOf(paths)[i])
    ensures var k := Target(create);
            var update, append := StartUpdate(0, request, paths, now), AppendOp(k, event, event.id, now);
            var end := DoAll(INITIAL, CreateSteps(create, at) + RaceSteps(update, append, at));
            && end.Some? && k in end.value.db.sessions
            && StateOf(end.value.db.sessions[k].state) == Split(StateOf(create.input.state)).session
            && EventKey(k, event.id) in end.value.db.events
            && Split(StoredDeltaAt(end.value.db, k, event.id)) == Split(DeltaOf(event))
  {
    hide Split, DoAll, RaceSteps, StoredDeltaAt, Invariant, DraftOf, PathsOf, NewSession, AppsAfter, UsersAfter, Do,
         Enabled;
    var k := Target(create);
    var update, append := StartUpdate(0, request, paths, now), AppendOp(k, event, event.id, now);
    var begun := Begun(create);
    ReadAndCommit(begun, 0, at);
    DoAppend(INITIAL, [Start(0, create)], [] + [ReadApp(0), ReadUser(0), Commit(0, at)]);
    assert [] + [ReadApp(0), ReadUser(0), Commit(0, at)] == [ReadApp(0), ReadUser(0), Commit(0, at)];
    var s := DoAll(INITIAL, CreateSteps(create, at)).value;
    InitialInvariant();
    DoAllKeepsInvariant(INITIAL, CreateSteps(create, at));
    UpdateCanStart(s, update);
    LostDeltaRun(s, update, append, at);
    DoAppend(INITIAL, CreateSteps(create, at), RaceSteps(update, append, at));
    CreatedState(create);
  }

  /** A create that has just started on empty tables. */
  function Begun(create: Op): (s: System)
    requires create.CreateOp? && Ready(create)
    ensures DoAll(INITIAL, [Start(0, create)]) == Some(s)
    ensures s == System(EMPTY, map[0 := Call(create, FRESH_ATTEMPT)], []) && Error(EMPTY, create).None?
  {
    DoFirst(INITIAL, [Start(0, create)]);
    Do(INITIAL, Start(0, create))
  }

  // The race of an update with a delete, as a run

  /** The update reads its row, the delete runs to its commit, and the update then reads the shared
      rows and commits. */
  function RevivalSteps(update: Step, at: Timestamp): seq<Step>
    requires update.StartUpdate?
  {
    DeletionSteps(update, at) + ([] + [ReadApp(update.p), ReadUser(update.p), Commit(update.p, at)])
  }

  function DeletionSteps(update: Step, at: Timestamp): seq<Step>
    requires update.StartUpdate?
  {
    [update, Start(update.p + 1, DeleteOp(KeyOf(update.request))), Commit(update.p + 1, at)]
  }

  /** Both halves of the race are enabled, and commit one transaction each. */
  lemma {:induction false} RevivalRuns(s: System, update: Step, at: Timestamp)
    requires update.StartUpdate? && Enabled(s, update) && update.p + 1 !in s.calls
    ensures var op, delete := UpdateOf(s, update), DeleteOp(KeyOf(update.request));
            var mid := Outcome(s.db, delete, at);
            && Ready(op) && Ready(delete) && Error(s.db, delete).None? && Error(mid, op).None?
            && DoAll(s, DeletionSteps(update, at)).Some?
            && DoAll(s, DeletionSteps(update, at)).value.db == mid
            && DoAll(s, RevivalSteps(update, at)) ==
               Some(System(Outcome(mid, op, at), s.calls, s.log + [Entry(delete, at), Entry(op, at)]))
  {
    hide Outcome, Target, ReadsOf, Body, ApplyAll, DraftOf;
    var p, q, op, delete := update.p, update.p + 1, UpdateOf(s, update), DeleteOp(KeyOf(update.request));
    var s1 := Do(s, update);
    var s2 := Do(s1, Start(q, delete));
    StartBoth(s, update, Start(q, delete));
    assert DeletionSteps(update, at) == [update, Start(q, delete)] + [Commit(q, at)];
    DoAppend(s, [update, Start(q, delete)], [Commit(q, at)]);
    CommitSucceeds(s2, q, at);
    DoFirst(s2, [Commit(q, at)]);
    var mid := System(Outcome(s.db, delete, at), s2.calls - {q}, s.log + [Entry(delete, at)]);
    assert DoAll(mid, []) == Some(mid);
    UpdateCannotFail(mid.db, op);
    ReadAndCommit(mid, p, at);
    DoAppend(s, DeletionSteps(update, at), [] + [ReadApp(p), ReadUser(p), Commit(p, at)]);
    assert mid.calls - {p} == s.calls;
    assert mid.log + [Entry(op, at)] == s.log + [Entry(delete, at), Entry(op, at)];
  }

  /** So it happens: for every session and every supported mask there is a run from empty tables
      in which a delete has committed and the session is there at the end all the same. */
  lemma {:induction false} RevivalIsReachable(
      create: Op, request: Session, paths: seq<string>, now: Instant, at: Timestamp)
    requires create.CreateOp? && Ready(create) && KeyOf(request) == Target(create)
    requires forall i | 0 <= i < |PathsOf(paths)| :: Supported(PathsOf(paths)[i])
    ensures var k, update := Target(create), StartUpdate(0, request, paths, now);
            var deleted := DoAll(INITIAL, CreateSteps(create, at) + DeletionSteps(update, at));
            var end := DoAll(INITIAL, CreateSteps(create, at) + RevivalSteps(update, at));
            && deleted.Some? && k !in deleted.value.db.sessions
            && end.Some? && k in end.value.db.sessions
            && end.value.db.sessions[k].createTime == Some(NewTimestamp(create.now))
  {
    hide Split, DoAll, RevivalSteps, DeletionSteps, DraftOf, PathsOf, AppsAfter, UsersAfter, Do, Enabled;
    var k, update := Target(create), StartUpdate(0, request, paths, now);
    var begun := Begun(create);
    ReadAndCommit(begun, 0, at);
    DoAppend(INITIAL, [Start(0, create)], [] + [ReadApp(0), ReadUser(0), Commit(0, at)]);
    assert [] + [ReadApp(0), ReadUser(0), Commit(0, at)] == [ReadApp(0), ReadUser(0), Commit(0, at)];
    var s := DoAll(INITIAL, CreateSteps(create, at)).value;
    UpdateCanStart(s, update);
    RevivalRuns(s, update, at);
    DoAppend(INITIAL, CreateSteps(create, at), DeletionSteps(update, at));
    DoAppend(INITIAL, CreateSteps(create, at), RevivalSteps(update, at));
    var op := UpdateOf(s, update);
    DraftMeaning(op.paths, op.request, op.base, op.now);
  }

  lemma {:induction false} UpdateCanStart(s: System, update: Step)
    requires update.StartUpdate? && update.p !in s.calls && RequestRow(s, update.request).Some?
    requires forall i | 0 <= i < |PathsOf(update.paths)| :: Supported(PathsOf(update.paths)[i])
    ensures Enabled(s, update)
  {
    hide Split, PathsOf;
    MaskMeaning(PathsOf(update.paths), update.request, RequestRow(s, update.request).value, update.now);
  }

  lemma {:induction false} CreatedState(create: Op)
    requires create.CreateOp?
    ensures StateOf(NewSession(create.input, create.id, create.now).state) == Split(StateOf(create.input.state)).session
  {
    hide Split;
  }

  lemma {:induction false} DoAllKeepsInvariant(s: System, steps: seq<Step>)
    requires Invariant(s) && DoAll(s, steps).Some?
    ensures Invariant(DoAll(s, steps).value)
    decreases |steps|
  {
    hide Invariant, Enabled, Do;
    if steps == [] {
    } else {
      StepKeepsInvariant(s, steps[0]);
      DoAllKeepsInvariant(Do(s, steps[0]), steps[1..]);
    }
  }

  lemma {:induction false} UpdateCannotFail(db: Database, op: Op)
    requires op.UpdateOp?
    ensures Error(db, op).None?
  {
  }

  lemma {:induction false} StartBoth(s: System, a: Step, b: Step)
    requires Enabled(s, a) && Enabled(Do(s, a), b)
    ensures DoAll(s, [a, b]) == Some(Do(Do(s, a), b))
  {
    hide Enabled, Do;
    assert [a, b][1..] == [b] && [b][1..] == [];
    DoFirst(s, [a, b]);
    DoFirst(Do(s, a), [b]);
  }
}
