/** The update mask of UpdateSession: a left fold of the requested paths over the session read. */
module UpdateMask {
  import opened Wrappers
  import opened Values
  import opened Timestamps
  import opened ScopedState
  import opened Tables

  /** What the loop has built so far. */
  datatype Draft = Draft(next: Session, appDelta: Struct, userDelta: Struct)

  const DEFAULT_PATHS := ["display_name", "state", "expire_time", "ttl"]

  function PathsOf(paths: seq<string>): seq<string> {
    if paths == [] then DEFAULT_PATHS else paths
  }

  predicate Supported(path: string) {
    path == "display_name" || path == "state" || path == "expire_time" || path == "ttl"
  }

  function ExpireTimeOf(request: Session): Expiration {
    if request.expiration.ExpireTime? then request.expiration else NoExpiration
  }

  /** A ttl becomes an instant, counted from now. */
  function ExpiryOfTtl(request: Session, now: Instant): Expiration {
    if request.expiration.Ttl? && request.expiration.ttl.Some?
    then ExpireTime(NewTimestamp(now + request.expiration.ttl.value))
    else NoExpiration
  }

  function ApplyPath(d: Draft, path: string, request: Session, now: Instant): Result<Draft> {
    if path == "display_name" then
      Ok(d.(next := d.next.(displayName := request.displayName)))
    else if path == "state" then
      var parts := Split(StateOf(request.state));
      Ok(Draft(d.next.(state := SomeState(parts.session)), parts.app, parts.user))
    else if path == "expire_time" then
      Ok(d.(next := d.next.(expiration := ExpireTimeOf(request))))
    else if path == "ttl" then
      Ok(d.(next := d.next.(expiration := ExpiryOfTtl(request, now))))
    else
      Err(InvalidArgument)
  }

  function ApplyPaths(paths: seq<string>, request: Session, base: Session, now: Instant): Result<Draft> {
    if paths == [] then
      Ok(Draft(base, map[], map[]))
    else
      var d :- ApplyPaths(paths[..|paths| - 1], request, base, now);
      ApplyPath(d, paths[|paths| - 1], request, now)
  }

  /** The draft an update writes: the masked session, stamped with the update time. */
  function DraftOf(paths: seq<string>, request: Session, base: Session, now: Instant): Result<Draft> {
    var d :- ApplyPaths(PathsOf(paths), request, base, now);
    Ok(d.(next := d.next.(updateTime := Some(NewTimestamp(now)))))
  }

  // What a caller sees of it

  predicate IsExpiryPath(path: string) {
    path == "expire_time" || path == "ttl"
  }

  /** The expiration a path takes from a request: its instant, or its ttl counted from now, or
      none. */
  ghost predicate ExpiresAsAsked(path: string, request: Session, now: Instant, expiration: Expiration) {
    match request.expiration
    case ExpireTime(at) => expiration == if path == "expire_time" then ExpireTime(at) else NoExpiration
    case Ttl(Some(ttl)) =>
      if path == "ttl" then expiration.ExpireTime? && AsTime(expiration.at) == now + ttl else expiration == NoExpiration
    case _ => expiration == NoExpiration
  }

  /** A row after an update, read off the request and the mask. Without a mask all four fields are
      updated. */
  ghost predicate IsUpdated(paths: seq<string>, request: Session, now: Instant, base: Session, next: Session) {
    var all := if paths == [] then ["display_name", "state", "expire_time", "ttl"] else paths;
    && next.id == base.id && next.appName == base.appName && next.userId == base.userId
    && next.createTime == base.createTime
    && next.updateTime.Some? && AsTime(next.updateTime.value) == now
    && next.displayName == (if "display_name" in all then request.displayName else base.displayName)
    && (if "state" in all then IsSessionPart(StateOf(request.state), StateOf(next.state)) else next.state == base.state)
    && ExpiryIsUpdated(all, request, now, base, next)
  }

  lemma {:induction false} DraftIsUpdated(paths: seq<string>, request: Session, base: Session, now: Instant)
    requires DraftOf(paths, request, base, now).Ok?
    ensures IsUpdated(paths, request, now, base, DraftOf(paths, request, base, now).value.next)
  {
    hide Split, ApplyPaths, IsExpiryPath, LastExpiryPath, ExpiresAsAsked, IsSessionPart, ExpiryOfTtl, ExpireTimeOf,
         ExpiryIsUpdated, StateOf, SomeState;
    var all, parts := PathsOf(paths), Split(StateOf(request.state));
    MaskMeaning(all, request, base, now);
    InstantRoundTrip(now);
    SessionPartOf(StateOf(request.state));
    assert StateOf(SomeState(parts.session)) == parts.session by { SomeStateIs(parts.session); }
    ExpiryFollows(all, request, base, now);
  }

  lemma {:induction false} SomeStateIs(s: Struct)
    ensures StateOf(SomeState(s)) == s
  {
  }

  /** What the last expiration path of a list decides. */
  ghost predicate ExpiryIsUpdated(all: seq<string>, request: Session, now: Instant, base: Session, next: Session) {
    && (forall i | 0 <= i < |all| && IsExpiryPath(all[i]) && (forall j | i < j < |all| :: !IsExpiryPath(all[j])) ::
          ExpiresAsAsked(all[i], request, now, next.expiration))
    && ((forall i | 0 <= i < |all| :: !IsExpiryPath(all[i])) ==> next.expiration == base.expiration)
  }

  lemma {:induction false} ExpiryFollows(all: seq<string>, request: Session, base: Session, now: Instant)
    requires ApplyPaths(all, request, base, now).Ok?
    ensures var next := ApplyPaths(all, request, base, now).value.next;
            forall t :: ExpiryIsUpdated(all, request, now, base, next.(updateTime := t))
  {
    hide Split, ApplyPaths, IsExpiryPath, LastExpiryPath, ExpiresAsAsked, ExpiryOfTtl, ExpireTimeOf, StateOf, SomeState;
    MaskMeaning(all, request, base, now);
    var expiration := ApplyPaths(all, request, base, now).value.next.expiration;
    forall i | 0 <= i < |all| && IsExpiryPath(all[i]) && (forall j | i < j < |all| :: !IsExpiryPath(all[j]))
      ensures ExpiresAsAsked(all[i], request, now, expiration)
    {
      LastExpiryIs(all, i);
      ExpiryIsAsAsked(all[i], request, now);
    }
    if forall i | 0 <= i < |all| :: !IsExpiryPath(all[i]) {
      NoExpiryPath(all);
    }
  }

  lemma {:induction false} SessionPartOf(incoming: Struct)
    ensures IsSessionPart(incoming, Split(incoming).session)
  {
    hide Split;
    forall k: string
      ensures Row(Split(incoming).session, k) ==
              if "app:" <= k || "user:" <= k || "temp:" <= k then None else Row(incoming, k)
    {
      SplitAt(incoming, k);
    }
  }

  lemma {:induction false} LastExpiryIs(paths: seq<string>, i: nat)
    requires i < |paths| && IsExpiryPath(paths[i]) && forall j | i < j < |paths| :: !IsExpiryPath(paths[j])
    ensures LastExpiryPath(paths) == Some(paths[i])
  {
    if i == |paths| - 1 {
    } else {
      LastExpiryIs(paths[..|paths| - 1], i);
    }
  }

  lemma {:induction false} NoExpiryPath(paths: seq<string>)
    requires forall i | 0 <= i < |paths| :: !IsExpiryPath(paths[i])
    ensures LastExpiryPath(paths) == None
  {
    if paths == [] {
    } else {
      NoExpiryPath(paths[..|paths| - 1]);
    }
  }

  lemma {:induction false} ExpiryIsAsAsked(path: string, request: Session, now: Instant)
    requires IsExpiryPath(path)
    ensures ExpiresAsAsked(path, request, now,
                           if path == "ttl" then ExpiryOfTtl(request, now) else ExpireTimeOf(request))
  {
  }

  method MaskedSession(paths: seq<string>, request: Session, base: Session, now: Instant) returns (r: Result<Draft>)
    ensures r == DraftOf(paths, request, base, now)
    ensures r.Ok? ==> IsUpdated(paths, request, now, base, r.value.next)
    ensures r.Ok? <==> forall p | p in paths :: p in ["display_name", "state", "expire_time", "ttl"]
    ensures r.Err? ==> r == Err(InvalidArgument)
  {
    hide IsUpdated;
    assert forall p :: Supported(p) <==> p in ["display_name", "state", "expire_time", "ttl"];
    MaskMeaning(PathsOf(paths), request, base, now);
    ErrorsAreInvalidArgument(PathsOf(paths), request, base, now);
    if DraftOf(paths, request, base, now).Ok? {
      DraftIsUpdated(paths, request, base, now);
    }
    var all := PathsOf(paths);
    var next, appDelta: Struct, userDelta: Struct := base, map[], map[];
    for i := 0 to |all|
      invariant ApplyPaths(all[..i], request, base, now) == Ok(Draft(next, appDelta, userDelta))
    {
      assert all[..i + 1][..i] == all[..i];
      if all[i] == "display_name" {
        next := next.(displayName := request.displayName);
      } else if all[i] == "state" {
        var sessionState;
        appDelta, userDelta, sessionState := SplitScopedState(StateOf(request.state));
        next := next.(state := SomeState(sessionState));
      } else if all[i] == "expire_time" {
        next := next.(expiration := ExpireTimeOf(request));
      } else if all[i] == "ttl" {
        next := next.(expiration := ExpiryOfTtl(request, now));
      } else {
        UnsupportedPathFails(all, i, request, base, now);
        return Err(InvalidArgument);
      }
    }
    assert all[..|all|] == all;
    return Ok(Draft(next.(updateTime := Some(NewTimestamp(now))), appDelta, userDelta));
  }

  lemma {:induction false} UnsupportedPathFails(
      paths: seq<string>, i: nat, request: Session, base: Session, now: Instant)
    requires i < |paths| && !Supported(paths[i])
    ensures ApplyPaths(paths, request, base, now) == Err(InvalidArgument)
  {
    if i < |paths| - 1 {
      UnsupportedPathFails(paths[..|paths| - 1], i, request, base, now);
    } else {
      ErrorsAreInvalidArgument(paths[..i], request, base, now);
    }
  }

  lemma {:induction false} ErrorsAreInvalidArgument(paths: seq<string>, request: Session, base: Session, now: Instant)
    ensures ApplyPaths(paths, request, base, now).Err? ==> ApplyPaths(paths, request, base, now) == Err(InvalidArgument)
  {
    if paths == [] {
    } else {
      ErrorsAreInvalidArgument(paths[..|paths| - 1], request, base, now);
    }
  }

  /** The last path of the list that touches the expiration, if any. */
  function LastExpiryPath(paths: seq<string>): Option<string> {
    if paths == [] then None
    else
      var last := paths[|paths| - 1];
      if last == "expire_time" || last == "ttl" then Some(last) else LastExpiryPath(paths[..|paths| - 1])
  }

  /** The fold in closed form. It succeeds exactly when every path is supported; a field is
      taken from the request exactly when its path is listed; and of the two expiration paths
      only the last one listed counts. */
  lemma {:induction false} MaskMeaning(paths: seq<string>, request: Session, base: Session, now: Instant)
    ensures var r := ApplyPaths(paths, request, base, now);
            && (r.Ok? <==> forall i | 0 <= i < |paths| :: Supported(paths[i]))
            && (r.Ok? ==>
                  var parts := Split(StateOf(request.state));
                  r.value == Draft(
                    base.(displayName := if "display_name" in paths then request.displayName else base.displayName,
                          state := if "state" in paths then SomeState(parts.session) else base.state,
                          expiration :=
                            match LastExpiryPath(paths)
                            case None => base.expiration
                            case Some(p) => if p == "ttl" then ExpiryOfTtl(request, now) else ExpireTimeOf(request)),
                    if "state" in paths then parts.app else map[],
                    if "state" in paths then parts.user else map[]))
  {
    hide Split;
    if paths == [] {
    } else {
      var init, last := paths[..|paths| - 1], paths[|paths| - 1];
      MaskMeaning(init, request, base, now);
      assert paths == init + [last];
      assert forall p: string :: p in paths <==> p in init || p == last;
      if ApplyPaths(paths, request, base, now).Ok? {
        forall i | 0 <= i < |paths|
          ensures Supported(paths[i])
        {
          assert i < |init| ==> paths[i] == init[i];
        }
      } else if ApplyPaths(init, request, base, now).Err? {
        var i :| 0 <= i < |init| && !Supported(init[i]);
        assert !Supported(paths[i]);
      } else {
        assert !Supported(paths[|paths| - 1]);
      }
    }
  }

  /** Under the default mask the ttl alone decides: a request that carries only an expire_time
      leaves the session without expiration. */
  lemma {:induction false} DefaultMaskDropsExpireTime(request: Session, base: Session, now: Instant)
    ensures var r := DraftOf([], request, base, now);
            && r.Ok?
            && (r.value.next.expiration != NoExpiration <==> request.expiration.Ttl? && request.expiration.ttl.Some?)
            && (request.expiration.ExpireTime? ==> r.value.next.expiration == NoExpiration)
  {
    MaskMeaning(DEFAULT_PATHS, request, base, now);
    assert LastExpiryPath(DEFAULT_PATHS) == Some("ttl");
  }

  /** The ids and creation time of a session are out of an update's reach. */
  lemma {:induction false} MaskKeepsIdentity(paths: seq<string>, request: Session, base: Session, now: Instant)
    requires DraftOf(paths, request, base, now).Ok?
    ensures var next := DraftOf(paths, request, base, now).value.next;
            KeyOf(next) == KeyOf(base) && next.createTime == base.createTime
  {
    MaskMeaning(PathsOf(paths), request, base, now);
  }
}
