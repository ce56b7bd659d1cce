/** Scoped state: one flat map of "app:", "user:", "temp:" and plain keys against the three
    maps it is stored as. */
module ScopedState {
  import opened Wrappers
  import opened Values

  const APP := "app:"
  const USER := "user:"
  const TEMP := "temp:"

  predicate IsTemp(key: string) {
    TEMP <= key
  }

  /** A key that belongs to the session itself. */
  predicate Unscoped(key: string) {
    !(TEMP <= key) && !(APP <= key) && !(USER <= key)
  }

  ghost predicate AllUnscoped<V>(m: map<string, V>) {
    forall k | k in m :: Unscoped(k)
  }

  ghost predicate NoTemp<V>(m: map<string, V>) {
    forall k | k in m :: !IsTemp(k)
  }

  /** No key starts with two of the prefixes. */
  lemma {:induction false} PrefixesAreExclusive(key: string)
    ensures TEMP <= key ==> !(APP <= key) && !(USER <= key)
    ensures APP <= key ==> !(USER <= key)
  {
    if |key| > 0 {
      assert TEMP[0] != APP[0] && TEMP[0] != USER[0] && APP[0] != USER[0];
    }
  }

  // Specification

  /** The keys under a prefix, with the prefix removed. */
  function StrippedKeys(prefix: string, keys: set<string>): (r: set<string>)
    ensures forall k {:trigger k in r} | k in r :: prefix + k in keys
  {
    assert forall k | k in keys && prefix <= k :: k == prefix + k[|prefix|..];
    set k | k in keys && prefix <= k :: k[|prefix|..]
  }

  /** What a key of the stripped map stands for. */
  function Under<V>(prefix: string, d: map<string, V>, k: string): V
    requires prefix + k in d
  {
    d[prefix + k]
  }

  /** The entries under a prefix, with the prefix removed. */
  function Stripped<V>(prefix: string, d: map<string, V>): map<string, V> {
    map k | k in StrippedKeys(prefix, d.Keys) :: Under(prefix, d, k)
  }

  /** What a key of the prefixed map stands for. */
  function Past<V>(prefix: string, d: map<string, V>, k: string): V
    requires prefix <= k && k[|prefix|..] in d
  {
    d[k[|prefix|..]]
  }

  /** The entries with a prefix put before every key. */
  function Prefixed<V>(prefix: string, d: map<string, V>): map<string, V> {
    assert forall k | k in d :: (prefix + k)[|prefix|..] == k;
    map k | k in (set key | key in d :: prefix + key) :: Past(prefix, d, k)
  }

  lemma {:induction false} StrippedAt<V>(prefix: string, d: map<string, V>, k: string)
    ensures k in Stripped(prefix, d) <==> prefix + k in d
    ensures prefix + k in d ==> Stripped(prefix, d)[k] == d[prefix + k]
  {
    var r := Stripped(prefix, d);
    if k in r {
      var key :| key in d && prefix <= key && key[|prefix|..] == k;
      assert key == prefix + k;
    }
    if prefix + k in d {
      assert (prefix + k)[|prefix|..] == k;
      assert forall key: string | prefix <= key && key[|prefix|..] == k :: key == prefix + k;
    }
  }

  lemma {:induction false} PrefixedAt<V>(prefix: string, d: map<string, V>, k: string)
    ensures k in Prefixed(prefix, d) <==> prefix <= k && k[|prefix|..] in d
    ensures k in Prefixed(prefix, d) ==> Prefixed(prefix, d)[k] == d[k[|prefix|..]]
  {
    var r := Prefixed(prefix, d);
    if k in r {
      var key :| key in d && prefix + key == k;
      assert k[|prefix|..] == key;
    }
    if prefix <= k && k[|prefix|..] in d {
      assert prefix + k[|prefix|..] == k;
    }
  }

  function TrimTemp<V>(d: map<string, V>): map<string, V> {
    map k | k in d && !IsTemp(k) :: d[k]
  }

  datatype Scoped<V> = Scoped(app: map<string, V>, user: map<string, V>, session: map<string, V>)

  function Split<V>(d: map<string, V>): Scoped<V> {
    Scoped(Stripped(APP, d), Stripped(USER, d), map k | k in d && Unscoped(k) :: d[k])
  }

  function Merge<V>(app: map<string, V>, user: map<string, V>, session: map<string, V>): map<string, V> {
    session + Prefixed(APP, app) + Prefixed(USER, user)
  }

  /** trimTempKeys on a map[string]any: the input itself when there is nothing to drop. */
  function TrimTempDict(d: GoDict): GoDict {
    if forall k | k in Entries(d) :: !IsTemp(k) then d else Dict(TrimTemp(Entries(d)))
  }

  // The loops that compute it

  /** The part of d a loop over its keys has been through. */
  ghost function Visited<V>(d: map<string, V>, pending: set<string>): map<string, V> {
    map k | k in d && k !in pending :: d[k]
  }

  method SplitScopedState<V>(state: map<string, V>)
    returns (app: map<string, V>, user: map<string, V>, session: map<string, V>)
    ensures Scoped(app, user, session) == Split(state)
    ensures forall k: string :: Row(app, k) == Row(state, "app:" + k)
    ensures forall k: string :: Row(user, k) == Row(state, "user:" + k)
    ensures forall k: string :: Row(session, k) ==
              if "app:" <= k || "user:" <= k || "temp:" <= k then None else Row(state, k)
  {
    hide Split;
    app, user, session := map[], map[], map[];
    var pending := state.Keys;
    SplitOfNothing<V>();
    assert Visited(state, pending) == map[];
    while pending != {}
      invariant pending <= state.Keys
      invariant Scoped(app, user, session) == Split(Visited(state, pending))
    {
      var key :| key in pending;
      var value := state[key];
      SplitExtends(Visited(state, pending), key, value);
      if TEMP <= key {
      } else if APP <= key {
        app := app[key[|APP|..] := value];
      } else if USER <= key {
        user := user[key[|USER|..] := value];
      } else {
        session := session[key := value];
      }
      assert Visited(state, pending - {key}) == Visited(state, pending)[key := value];
      pending := pending - {key};
    }
    assert Visited(state, pending) == state;
    forall k: string
      ensures Row(app, k) == Row(state, "app:" + k) && Row(user, k) == Row(state, "user:" + k)
      ensures Row(session, k) == if "app:" <= k || "user:" <= k || "temp:" <= k then None else Row(state, k)
    {
      SplitAt(state, k);
    }
  }

  lemma {:induction false} SplitOfNothing<V>()
    ensures Split<V>(map[]) == Scoped(map[], map[], map[])
  {
  }

  lemma {:induction false} SplitExtends<V>(d: map<string, V>, key: string, value: V)
    ensures var s := Split(d);
            Split(d[key := value]) ==
              if TEMP <= key then s
              else if APP <= key then s.(app := s.app[key[|APP|..] := value])
              else if USER <= key then s.(user := s.user[key[|USER|..] := value])
              else s.(session := s.session[key := value])
  {
    hide Stripped;
    PrefixesAreExclusive(key);
    StrippedExtends(APP, d, key, value);
    StrippedExtends(USER, d, key, value);
  }

  lemma {:induction false} StrippedExtends<V>(prefix: string, d: map<string, V>, key: string, value: V)
    ensures Stripped(prefix, d[key := value]) ==
            if prefix <= key then Stripped(prefix, d)[key[|prefix|..] := value] else Stripped(prefix, d)
  {
    hide Stripped;
    var left := Stripped(prefix, d[key := value]);
    var right := if prefix <= key then Stripped(prefix, d)[key[|prefix|..] := value] else Stripped(prefix, d);
    forall k
      ensures k in left <==> k in right
      ensures k in left ==> left[k] == right[k]
    {
      StrippedAt(prefix, d, k);
      StrippedAt(prefix, d[key := value], k);
      if prefix + k == key {
        assert k == key[|prefix|..];
      } else if prefix <= key {
        assert key == prefix + key[|prefix|..];
      }
    }
  }

  method MergeStateMaps<V>(app: map<string, V>, user: map<string, V>, session: map<string, V>)
    returns (out: map<string, V>)
    ensures out == Merge(app, user, session)
    ensures forall k: string :: Row(out, k) ==
              if "app:" <= k && k[4..] in app then Some(app[k[4..]])
              else if "user:" <= k && k[5..] in user then Some(user[k[5..]])
              else Row(session, k)
  {
    hide Prefixed;
    forall k: string
      ensures Row(Merge(app, user, session), k) ==
              if "app:" <= k && k[4..] in app then Some(app[k[4..]])
              else if "user:" <= k && k[5..] in user then Some(user[k[5..]])
              else Row(session, k)
    {
      MergeAt(app, user, session, k);
    }
    out := session;
    out := CopyPrefixed(out, APP, app);
    out := CopyPrefixed(out, USER, user);
  }

  method CopyPrefixed<V>(into: map<string, V>, prefix: string, from: map<string, V>) returns (out: map<string, V>)
    ensures out == into + Prefixed(prefix, from)
  {
    hide Prefixed;
    out := into;
    var pending := from.Keys;
    assert Visited(from, pending) == map[];
    PrefixedOfNothing<V>(prefix);
    while pending != {}
      invariant pending <= from.Keys
      invariant out == into + Prefixed(prefix, Visited(from, pending))
    {
      var key :| key in pending;
      PrefixedExtends(prefix, Visited(from, pending), key, from[key]);
      assert Visited(from, pending - {key}) == Visited(from, pending)[key := from[key]];
      out, pending := out[prefix + key := from[key]], pending - {key};
    }
    assert Visited(from, pending) == from;
  }

  lemma {:induction false} PrefixedOfNothing<V>(prefix: string)
    ensures Prefixed<V>(prefix, map[]) == map[]
  {
  }

  lemma {:induction false} PrefixedExtends<V>(prefix: string, d: map<string, V>, key: string, value: V)
    ensures Prefixed(prefix, d[key := value]) == Prefixed(prefix, d)[prefix + key := value]
  {
    hide Prefixed;
    var left, right := Prefixed(prefix, d[key := value]), Prefixed(prefix, d)[prefix + key := value];
    forall k
      ensures k in left <==> k in right
      ensures k in left ==> left[k] == right[k]
    {
      PrefixedAt(prefix, d, k);
      PrefixedAt(prefix, d[key := value], k);
      if k == prefix + key {
        assert k[|prefix|..] == key;
      } else if prefix <= k {
        assert k == prefix + k[|prefix|..];
      }
    }
  }

  method TrimTempKeys(delta: GoDict) returns (out: GoDict)
    ensures out == TrimTempDict(delta)
    ensures forall k: string :: Row(Entries(out), k) == if "temp:" <= k then None else Row(Entries(delta), k)
    ensures (forall k | k in Entries(delta) :: !("temp:" <= k)) ==> out == delta
  {
    var hasTemp := false;
    var pending := Entries(delta).Keys;
    while pending != {}
      invariant pending <= Entries(delta).Keys
      invariant hasTemp <==> exists k | k in Entries(delta) && k !in pending :: IsTemp(k)
    {
      var key :| key in pending;
      pending := pending - {key};
      if IsTemp(key) {
        hasTemp := true;
        break;
      }
    }
    if !hasTemp {
      return delta;
    }
    var kept: map<string, GoValue> := map[];
    pending := Entries(delta).Keys;
    while pending != {}
      invariant pending <= Entries(delta).Keys
      invariant kept == TrimTemp(Visited(Entries(delta), pending))
    {
      var key :| key in pending;
      pending := pending - {key};
      if !IsTemp(key) {
        kept := kept[key := Entries(delta)[key]];
      }
    }
    assert Visited(Entries(delta), pending) == Entries(delta);
    return Dict(kept);
  }

  // Laws

  /** Where each key of a merged map comes from. */
  lemma {:induction false} MergeAt<V>(app: map<string, V>, user: map<string, V>, session: map<string, V>, k: string)
    ensures var m := Merge(app, user, session);
            if APP <= k && k[|APP|..] in app then k in m && m[k] == app[k[|APP|..]]
            else if USER <= k && k[|USER|..] in user then k in m && m[k] == user[k[|USER|..]]
            else (k in m <==> k in session) && (k in m ==> m[k] == session[k])
  {
    hide Prefixed;
    PrefixesAreExclusive(k);
    PrefixedAt(APP, app, k);
    PrefixedAt(USER, user, k);
  }

  /** Which key of a flat map each part's key stands for. */
  lemma {:induction false} SplitAt<V>(d: map<string, V>, k: string)
    ensures var s := Split(d);
            && (k in s.app <==> APP + k in d) && (k in s.app ==> s.app[k] == d[APP + k])
            && (k in s.user <==> USER + k in d) && (k in s.user ==> s.user[k] == d[USER + k])
            && (k in s.session <==> k in d && Unscoped(k)) && (k in s.session ==> s.session[k] == d[k])
  {
    hide Stripped;
    StrippedAt(APP, d, k);
    StrippedAt(USER, d, k);
  }

  /** The same, asked for a key of the flat map. */
  lemma {:induction false} SplitAtFlat<V>(d: map<string, V>, k: string)
    ensures var s := Split(d);
            && (APP <= k ==> (k in d <==> k[|APP|..] in s.app) && (k in d ==> s.app[k[|APP|..]] == d[k]))
            && (USER <= k ==> (k in d <==> k[|USER|..] in s.user) && (k in d ==> s.user[k[|USER|..]] == d[k]))
            && (k in s.session <==> k in d && Unscoped(k)) && (k in s.session ==> s.session[k] == d[k])
  {
    hide Split;
    SplitAt(d, k);
    if APP <= k {
      SplitAt(d, k[|APP|..]);
      assert k == APP + k[|APP|..];
    }
    if USER <= k {
      SplitAt(d, k[|USER|..]);
      assert k == USER + k[|USER|..];
    }
  }

  /** Splitting a flat map and merging the parts gives the map without its "temp:" keys. */
  lemma {:induction false} MergeOfSplit<V>(d: map<string, V>)
    ensures var s := Split(d); Merge(s.app, s.user, s.session) == TrimTemp(d)
  {
    hide Split, Merge;
    var s := Split(d);
    var m := Merge(s.app, s.user, s.session);
    forall k
      ensures k in m <==> k in TrimTemp(d)
      ensures k in m ==> m[k] == d[k]
    {
      PrefixesAreExclusive(k);
      SplitAtFlat(d, k);
      MergeAt(s.app, s.user, s.session, k);
    }
  }

  /** Merging three maps and splitting the result gives them back exactly when the session map
      holds no scoped key. */
  lemma {:induction false} SplitOfMerge<V>(app: map<string, V>, user: map<string, V>, session: map<string, V>)
    ensures Split(Merge(app, user, session)) == Scoped(app, user, session) <==> AllUnscoped(session)
  {
    hide Split, Merge;
    var m := Merge(app, user, session);
    var s := Split(m);
    forall k
      ensures AllUnscoped(session) ==> (k in s.app <==> k in app) && (k in app ==> s.app[k] == app[k])
      ensures AllUnscoped(session) ==> (k in s.user <==> k in user) && (k in user ==> s.user[k] == user[k])
      ensures k in s.session <==> k in session && Unscoped(k)
      ensures k in s.session ==> s.session[k] == session[k]
    {
      SplitAt(m, k);
      PrefixesAreExclusive(APP + k);
      PrefixesAreExclusive(USER + k);
      assert (APP + k)[|APP|..] == k && (USER + k)[|USER|..] == k;
      MergeAt(app, user, session, APP + k);
      MergeAt(app, user, session, USER + k);
      MergeAt(app, user, session, k);
    }
    if AllUnscoped(session) {
      assert s.app == app && s.user == user && s.session == session;
    } else {
      assert s.session != session;
    }
  }

  /** Writing the three parts of a delta row by row is the same as writing the delta, less its
      "temp:" keys, over the flat map. */
  lemma {:induction false} ScopedWritesAreFlat<V>(
      app: map<string, V>, user: map<string, V>, session: map<string, V>, delta: map<string, V>)
    ensures var d := Split(delta);
            Merge(app + d.app, user + d.user, session + d.session) == Merge(app, user, session) + TrimTemp(delta)
  {
    hide Split, Merge;
    var d := Split(delta);
    var left := Merge(app + d.app, user + d.user, session + d.session);
    var right := Merge(app, user, session) + TrimTemp(delta);
    forall k
      ensures k in left <==> k in right
      ensures k in left ==> left[k] == right[k]
    {
      PrefixesAreExclusive(k);
      SplitAtFlat(delta, k);
      MergeAt(app + d.app, user + d.user, session + d.session, k);
      MergeAt(app, user, session, k);
    }
  }

  /** Trimming before splitting changes nothing. */
  lemma {:induction false} SplitIgnoresTemp<V>(d: map<string, V>)
    ensures Split(TrimTemp(d)) == Split(d)
    ensures TrimTemp(TrimTemp(d)) == TrimTemp(d)
  {
    hide Split;
    var s, t := Split(d), Split(TrimTemp(d));
    forall k
      ensures (k in s.app <==> k in t.app) && (k in s.app ==> s.app[k] == t.app[k])
      ensures (k in s.user <==> k in t.user) && (k in s.user ==> s.user[k] == t.user[k])
      ensures (k in s.session <==> k in t.session) && (k in s.session ==> s.session[k] == t.session[k])
    {
      SplitAt(d, k);
      SplitAt(TrimTemp(d), k);
      PrefixesAreExclusive(APP + k);
      PrefixesAreExclusive(USER + k);
    }
    assert s.app == t.app && s.user == t.user && s.session == t.session;
  }
}
