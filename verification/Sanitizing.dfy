/** Normalising dynamic values for storage: sanitizeMap and sanitizeValue, the two ways a value
    is stored (as a Struct, as JSON), and what survives a store and a read. */
module Sanitizing {
  import opened Wrappers
  import opened Values

  // Specification of the rewriting

  function SanitizedDict(d: GoDict): GoDict {
    if Entries(d) == map[] then NilDict
    else Dict(map k | k in Entries(d) :: Sanitized(d.entries[k]))
  }

  function Sanitized(v: GoValue): GoValue {
    match v
    case GoMap(d) => GoMap(SanitizedDict(d))
    case GoNilList => GoList([])
    case GoList(items) => GoList(seq(|items|, i requires 0 <= i < |items| => Sanitized(items[i])))
    case GoFunctionCall(id, name, args, _) =>
      GoMap(Dict(map["id" := GoString(id), "name" := GoString(name), "args" := GoMap(SanitizedDict(args))]))
    case GoFunctionResponse(id, name, response, _) =>
      GoMap(Dict(map["id" := GoString(id), "name" := GoString(name), "response" := GoMap(SanitizedDict(response))]))
    case GoToolConfirmation(hint, confirmed, payload, _) =>
      GoMap(Dict(map["hint" := GoString(hint), "confirmed" := GoBool(confirmed), "payload" := Sanitized(payload)]))
    case _ => v
  }

  /** A nil pointer to one of the typed values is in here, where the rewriting dereferences it. */
  predicate HasNilPointer(v: GoValue) {
    match v
    case GoMap(d) => DictHasNilPointer(d)
    case GoList(items) => exists i :: 0 <= i < |items| && HasNilPointer(items[i])
    case GoFunctionCall(_, _, args, _) => DictHasNilPointer(args)
    case GoFunctionResponse(_, _, response, _) => DictHasNilPointer(response)
    case GoToolConfirmation(_, _, payload, _) => HasNilPointer(payload)
    case GoNilPointer => true
    case _ => false
  }

  predicate DictHasNilPointer(d: GoDict) {
    d.Dict? && exists k :: k in d.entries && HasNilPointer(d.entries[k])
  }

  predicate HoldsExactly(v: GoValue, names: set<string>) {
    v.GoMap? && v.dict.Dict? && v.dict.entries.Keys == names
  }

  /** The value under a name of a map. */
  function Held(v: GoValue, name: string): GoValue {
    if v.GoMap? && v.dict.Dict? && name in v.dict.entries then v.dict.entries[name] else GoNil
  }

  /** A typed value has become a map of exactly its fields, under their JSON names. */
  predicate ShowsTyped(v: GoValue, w: GoValue) {
    match v
    case GoFunctionCall(id, name, args, _) =>
      && HoldsExactly(w, {"id", "name", "args"}) && Held(w, "id") == GoString(id) && Held(w, "name") == GoString(name)
      && Held(w, "args").GoMap? && Entries(Held(w, "args").dict).Keys == Entries(args).Keys
    case GoFunctionResponse(id, name, response, _) =>
      && HoldsExactly(w, {"id", "name", "response"})
      && Held(w, "id") == GoString(id) && Held(w, "name") == GoString(name)
      && Held(w, "response").GoMap? && Entries(Held(w, "response").dict).Keys == Entries(response).Keys
    case GoToolConfirmation(hint, confirmed, _, _) =>
      && HoldsExactly(w, {"hint", "confirmed", "payload"})
      && Held(w, "hint") == GoString(hint) && Held(w, "confirmed") == GoBool(confirmed)
    case _ => true
  }

  // The loops that compute it. They end on every finite value, and panic exactly if there is a
  // nil pointer in it.

  method SanitizeMap(d: GoDict) returns (r: Result<GoDict>)
    ensures r == if DictHasNilPointer(d) then Err(Panicked) else Ok(SanitizedDict(d))
    decreases d
  {
    if Entries(d) == map[] {
      return Ok(NilDict);
    }
    var out: map<string, GoValue> := map[];
    var pending := d.entries.Keys;
    while pending != {}
      invariant pending <= d.entries.Keys
      invariant out == map k | k in d.entries.Keys - pending :: Sanitized(d.entries[k])
      invariant forall k | k in d.entries && k !in pending :: !HasNilPointer(d.entries[k])
    {
      var key :| key in pending;
      var value := SanitizeValue(d.entries[key]);
      if value.Err? {
        return Err(value.status);
      }
      out, pending := out[key := value.value], pending - {key};
    }
    assert out == SanitizedDict(d).entries;
    return Ok(Dict(out));
  }

  method SanitizeValue(v: GoValue) returns (r: Result<GoValue>)
    ensures r == if HasNilPointer(v) then Err(Panicked) else Ok(Sanitized(v))
    ensures r.Ok? ==> ShowsTyped(v, r.value)
    decreases v
  {
    match v
    case GoMap(d) =>
      var m := SanitizeMap(d);
      return if m.Err? then Err(m.status) else Ok(GoMap(m.value));
    case GoNilList =>
      return Ok(GoList([]));
    case GoList(items) =>
      var out: seq<GoValue> := [];
      for i := 0 to |items|
        invariant |out| == i
        invariant forall j | 0 <= j < i :: out[j] == Sanitized(items[j]) && !HasNilPointer(items[j])
      {
        var item := SanitizeValue(items[i]);
        if item.Err? {
          return Err(item.status);
        }
        out := out + [item.value];
      }
      assert out == Sanitized(v).items;
      return Ok(GoList(out));
    case GoFunctionCall(id, name, args, _) =>
      var m := SanitizeMap(args);
      if m.Err? {
        return Err(m.status);
      }
      return Ok(GoMap(Dict(map["id" := GoString(id), "name" := GoString(name), "args" := GoMap(m.value)])));
    case GoFunctionResponse(id, name, response, _) =>
      var m := SanitizeMap(response);
      if m.Err? {
        return Err(m.status);
      }
      return Ok(GoMap(Dict(map["id" := GoString(id), "name" := GoString(name), "response" := GoMap(m.value)])));
    case GoToolConfirmation(hint, confirmed, payload, _) =>
      var p := SanitizeValue(payload);
      if p.Err? {
        return Err(p.status);
      }
      return Ok(GoMap(Dict(map["hint" := GoString(hint), "confirmed" := GoBool(confirmed), "payload" := p.value])));
    case GoNilPointer =>
      return Err(Panicked);
    case _ =>
      return Ok(v);
  }

  // Idempotence

  lemma {:induction false} SanitizedDictIdempotent(d: GoDict)
    ensures SanitizedDict(SanitizedDict(d)) == SanitizedDict(d)
  {
    if Entries(d) != map[] {
      var e := SanitizedDict(d).entries;
      forall k | k in d.entries
        ensures Sanitized(e[k]) == e[k]
      {
        SanitizedIdempotent(d.entries[k]);
      }
      assert e.Keys == d.entries.Keys;
      assert SanitizedDict(SanitizedDict(d)).entries == e;
    }
  }

  lemma {:induction false} SanitizedIdempotent(v: GoValue)
    ensures Sanitized(Sanitized(v)) == Sanitized(v)
  {
    match v
    case GoMap(d) => SanitizedDictIdempotent(d);
    case GoList(items) =>
      forall i | 0 <= i < |items|
        ensures Sanitized(Sanitized(items[i])) == Sanitized(items[i])
      {
        SanitizedIdempotent(items[i]);
      }
    case GoFunctionCall(_, _, args, _) =>
      SanitizedDictIdempotent(args);
      SanitizedRecord("id", GoString(v.id), "name", GoString(v.name), "args", GoMap(SanitizedDict(args)));
    case GoFunctionResponse(_, _, response, _) =>
      SanitizedDictIdempotent(response);
      SanitizedRecord("id", GoString(v.id), "name", GoString(v.name), "response", GoMap(SanitizedDict(response)));
    case GoToolConfirmation(_, _, payload, _) =>
      SanitizedIdempotent(payload);
      SanitizedRecord("hint", GoString(v.hint), "confirmed", GoBool(v.confirmed), "payload", Sanitized(payload));
    case _ =>
  }

  lemma {:induction false} SanitizedRecord(a: string, x: GoValue, b: string, y: GoValue, c: string, z: GoValue)
    requires Sanitized(x) == x && Sanitized(y) == y && Sanitized(z) == z
    ensures SanitizedDict(Dict(map[a := x, b := y, c := z])) == Dict(map[a := x, b := y, c := z])
  {
    var m := map[a := x, b := y, c := z];
    assert a in m;
    assert SanitizedDict(Dict(m)).entries == m;
  }

  // What can be stored as a Struct

  /** Every leaf is JSON-like: no value of a Go type the store does not know. */
  predicate Storable(v: GoValue) {
    match v
    case GoMap(d) => StorableDict(d)
    case GoList(items) => forall i | 0 <= i < |items| :: Storable(items[i])
    case GoFunctionCall(_, _, args, _) => StorableDict(args)
    case GoFunctionResponse(_, _, response, _) => StorableDict(response)
    case GoToolConfirmation(_, _, payload, _) => Storable(payload)
    case GoOther(_) => false
    case GoNilPointer => false
    case _ => true
  }

  predicate StorableDict(d: GoDict) {
    d.NilDict? || forall k | k in d.entries :: Storable(d.entries[k])
  }

  lemma {:induction false} StorableHasNoNilPointer(v: GoValue)
    requires Storable(v)
    ensures !HasNilPointer(v)
  {
    match v
    case GoMap(d) => StorableDictHasNoNilPointer(d);
    case GoList(items) =>
      forall i | 0 <= i < |items|
        ensures !HasNilPointer(items[i])
      {
        StorableHasNoNilPointer(items[i]);
      }
    case GoFunctionCall(_, _, args, _) => StorableDictHasNoNilPointer(args);
    case GoFunctionResponse(_, _, response, _) => StorableDictHasNoNilPointer(response);
    case GoToolConfirmation(_, _, payload, _) => StorableHasNoNilPointer(payload);
    case _ =>
  }

  lemma {:induction false} StorableDictHasNoNilPointer(d: GoDict)
    requires StorableDict(d)
    ensures !DictHasNilPointer(d)
  {
    if d.Dict? {
      forall k | k in d.entries
        ensures !HasNilPointer(d.entries[k])
      {
        StorableHasNoNilPointer(d.entries[k]);
      }
    }
  }

  /** Struct construction accepts a sanitised value exactly when its leaves are JSON-like. */
  lemma {:induction false} SanitizedIsStorable(v: GoValue)
    ensures NewValue(Sanitized(v)).Some? <==> Storable(v)
  {
    match v
    case GoMap(d) => SanitizedDictIsStorable(d);
    case GoList(items) =>
      forall i | 0 <= i < |items|
        ensures NewValue(Sanitized(items[i])).Some? <==> Storable(items[i])
      {
        SanitizedIsStorable(items[i]);
      }
      assert forall i | 0 <= i < |items| :: Sanitized(v).items[i] == Sanitized(items[i]);
    case GoFunctionCall(_, _, args, _) =>
      SanitizedDictIsStorable(args);
      var m := Sanitized(v).dict.entries;
      assert m["args"] == GoMap(SanitizedDict(args));
    case GoFunctionResponse(_, _, response, _) =>
      SanitizedDictIsStorable(response);
      var m := Sanitized(v).dict.entries;
      assert m["response"] == GoMap(SanitizedDict(response));
    case GoToolConfirmation(_, _, payload, _) =>
      SanitizedIsStorable(payload);
      var m := Sanitized(v).dict.entries;
      assert m["payload"] == Sanitized(payload);
    case _ =>
  }

  lemma {:induction false} SanitizedDictIsStorable(d: GoDict)
    ensures NewValue(GoMap(SanitizedDict(d))).Some? <==> StorableDict(d)
  {
    if Entries(d) != map[] {
      var e := SanitizedDict(d).entries;
      forall k | k in d.entries
        ensures NewValue(e[k]).Some? <==> Storable(d.entries[k])
      {
        SanitizedIsStorable(d.entries[k]);
      }
    }
  }

  // What survives storage as a Struct

  /** The Go shapes a stored value reads back as: maps and lists are not nil, numbers are
      floats, and nothing is typed. */
  predicate Plain(v: GoValue) {
    match v
    case GoNil => true
    case GoBool(_) => true
    case GoFloat(_) => true
    case GoString(_) => true
    case GoMap(d) => d.Dict? && forall k | k in d.entries :: Plain(d.entries[k])
    case GoList(items) => forall i | 0 <= i < |items| :: Plain(items[i])
    case _ => false
  }

  lemma {:induction false} AsInterfaceIsPlain(w: Value)
    ensures Plain(AsInterface(w))
  {
    match w
    case StructValue(fields) =>
      forall k | k in fields
        ensures Plain(AsInterface(fields[k]))
      {
        AsInterfaceIsPlain(fields[k]);
      }
    case ListValue(items) =>
      forall i | 0 <= i < |items|
        ensures Plain(AsInterface(items[i]))
      {
        AsInterfaceIsPlain(items[i]);
      }
    case _ =>
  }

  /** A plain value is stored, sanitised or not, as the value that reads back as it. */
  lemma {:induction false} PlainIsKept(v: GoValue)
    requires Plain(v)
    ensures NewValue(Sanitized(v)).Some? && AsInterface(NewValue(Sanitized(v)).value) == v
  {
    match v
    case GoMap(d) =>
      PlainDictIsKept(d);
    case GoList(items) =>
      var s := Sanitized(v).items;
      forall i | 0 <= i < |items|
        ensures NewValue(s[i]).Some? && AsInterface(NewValue(s[i]).value) == items[i]
      {
        PlainIsKept(items[i]);
      }
      assert AsInterface(NewValue(Sanitized(v)).value).items == items;
    case _ =>
  }

  lemma {:induction false} PlainDictIsKept(d: GoDict)
    requires d.Dict? && forall k | k in d.entries :: Plain(d.entries[k])
    ensures NewValue(GoMap(SanitizedDict(d))).Some?
    ensures AsInterface(NewValue(GoMap(SanitizedDict(d))).value) == GoMap(d)
  {
    var m, e := d.entries, Entries(SanitizedDict(d));
    assert e.Keys == m.Keys;
    forall k | k in m
      ensures NewValue(e[k]).Some? && AsInterface(NewValue(e[k]).value) == m[k]
    {
      PlainIsKept(m[k]);
    }
    StructReadsBack(SanitizedDict(d), m);
  }

  lemma {:induction false} StructReadsBack(d: GoDict, m: map<string, GoValue>)
    requires Entries(d).Keys == m.Keys
    requires forall k | k in m :: NewValue(Entries(d)[k]).Some? && AsInterface(NewValue(Entries(d)[k]).value) == m[k]
    ensures NewValue(GoMap(d)).Some? && AsInterface(NewValue(GoMap(d)).value) == GoMap(Dict(m))
  {
    var w := NewValue(GoMap(d)).value;
    assert AsInterface(w).dict.entries == m;
  }

  /** Storing and reading returns the value itself exactly when it is plain. */
  lemma {:induction false} StoredIsFixed(v: GoValue)
    requires NewValue(Sanitized(v)).Some?
    ensures AsInterface(NewValue(Sanitized(v)).value) == v <==> Plain(v)
  {
    AsInterfaceIsPlain(NewValue(Sanitized(v)).value);
    if Plain(v) {
      PlainIsKept(v);
    }
  }

  /** Re-storing a stored value, sanitising it again, gives the same stored value. */
  lemma {:induction false} RestoreSanitized(w: Value)
    ensures NewValue(Sanitized(AsInterface(w))) == Some(w)
  {
    AsInterfaceIsPlain(w);
    PlainIsKept(AsInterface(w));
    RestoreValue(NewValue(Sanitized(AsInterface(w))).value);
    RestoreValue(w);
  }

  /** What a value reads back as once it is stored in a Struct. */
  function ReadBack(v: GoValue): GoValue {
    match NewValue(Sanitized(v)) case None => GoNil case Some(w) => AsInterface(w)
  }

  function RecordOf(a: string, x: GoValue, b: string, y: GoValue, c: string, z: GoValue): GoValue {
    GoMap(Dict(map[a := x, b := y, c := z]))
  }

  /** Every value that can be stored reads back, field by field: the typed values as maps of their
      fields, integers as floats, bytes as text, maps and lists element by element. */
  lemma {:induction false} ReadsBackAs(v: GoValue)
    requires Storable(v)
    ensures match v
            case GoFunctionCall(id, name, args, _) =>
              ReadBack(v) == RecordOf("id", GoString(id), "name", GoString(name), "args", ReadBack(GoMap(args)))
            case GoFunctionResponse(id, name, response, _) =>
              ReadBack(v) == RecordOf("id", GoString(id), "name", GoString(name), "response", ReadBack(GoMap(response)))
            case GoToolConfirmation(hint, confirmed, payload, _) =>
              ReadBack(v) ==
              RecordOf("hint", GoString(hint), "confirmed", GoBool(confirmed), "payload", ReadBack(payload))
            case GoMap(d) => ReadBack(v) == GoMap(Dict(map k | k in Entries(d) :: ReadBack(Entries(d)[k])))
            case GoList(items) =>
              ReadBack(v) == GoList(seq(|items|, i requires 0 <= i < |items| => ReadBack(items[i])))
            case GoNilList => ReadBack(v) == GoList([])
            case GoInt(i) => ReadBack(v) == GoFloat(FloatOfInt(i))
            case GoBytes(b) => ReadBack(v) == GoString(if b.None? then "" else BytesText(b.value))
            case _ => ReadBack(v) == v
  {
    SanitizedIsStorable(v);
    match v
    case GoMap(d) => DictReadsBackAs(d);
    case GoList(items) =>
      var w := NewValue(Sanitized(v)).value;
      forall i | 0 <= i < |items|
        ensures NewValue(Sanitized(items[i])) == Some(w.items[i])
      {
        SanitizedIsStorable(items[i]);
      }
      assert AsInterface(w).items == seq(|items|, i requires 0 <= i < |items| => ReadBack(items[i]));
    case GoFunctionCall(id, name, args, _) =>
      SanitizedDictIsStorable(args);
      RecordReadsBack("id", GoString(id), "name", GoString(name), "args", GoMap(SanitizedDict(args)));
    case GoFunctionResponse(id, name, response, _) =>
      SanitizedDictIsStorable(response);
      RecordReadsBack("id", GoString(id), "name", GoString(name), "response", GoMap(SanitizedDict(response)));
    case GoToolConfirmation(hint, confirmed, payload, _) =>
      SanitizedIsStorable(payload);
      RecordReadsBack("hint", GoString(hint), "confirmed", GoBool(confirmed), "payload", Sanitized(payload));
    case _ =>
  }

  lemma {:induction false} TypedReadsBack(v: GoValue)
    requires Storable(v)
    ensures ShowsTyped(v, ReadBack(v))
  {
    hide ReadBack;
    ReadsBackAs(v);
    if v.GoFunctionCall? {
      ReadsBackAs(GoMap(v.args));
    } else if v.GoFunctionResponse? {
      ReadsBackAs(GoMap(v.response));
    }
  }

  lemma {:induction false} RecordReadsBack(a: string, x: GoValue, b: string, y: GoValue, c: string, z: GoValue)
    requires a != b && b != c && a != c
    requires (x.GoString? || x.GoBool?) && (y.GoString? || y.GoBool?) && NewValue(z).Some?
    ensures NewValue(RecordOf(a, x, b, y, c, z)).Some?
    ensures AsInterface(NewValue(RecordOf(a, x, b, y, c, z)).value) ==
            RecordOf(a, x, b, y, c, AsInterface(NewValue(z).value))
  {
    hide AsInterface, NewValue;
    LeafReadsBack(x);
    LeafReadsBack(y);
    var m := map[a := x, b := y, c := z];
    assert m.Keys == {a, b, c} && m[a] == x && m[b] == y && m[c] == z;
    StructReadsBack(Dict(m), map[a := x, b := y, c := AsInterface(NewValue(z).value)]);
  }

  lemma {:induction false} LeafReadsBack(v: GoValue)
    requires v.GoString? || v.GoBool?
    ensures NewValue(v).Some? && AsInterface(NewValue(v).value) == v
  {
  }

  lemma {:induction false} DictReadsBackAs(d: GoDict)
    requires StorableDict(d)
    ensures ReadBack(GoMap(d)) == GoMap(Dict(map k | k in Entries(d) :: ReadBack(Entries(d)[k])))
  {
    SanitizedDictIsStorable(d);
    if Entries(d) == map[] {
      assert AsInterface(NewValue(Sanitized(GoMap(d))).value) == GoMap(Dict(map[]));
    } else {
      forall k | k in Entries(d)
        ensures NewValue(Sanitized(Entries(d)[k])).Some?
      {
        SanitizedIsStorable(Entries(d)[k]);
      }
      StructReadsBack(SanitizedDict(d), map k | k in Entries(d) :: ReadBack(Entries(d)[k]));
    }
  }

  // State-like fields: a whole map stored as an optional Struct

  /** structOrNil of an already sanitised map. */
  function StructOrNil(d: GoDict): Result<Option<Struct>> {
    if Entries(d) == map[] then Ok(None)
    else
      match NewStruct(d)
      case None => Err(InvalidArgument)
      case Some(s) => Ok(Some(s))
  }

  /** structMap. */
  function StructMap(s: Option<Struct>): GoDict {
    match s case None => NilDict case Some(fields) => Dict(AsMap(fields))
  }

  /** structOrNil(sanitizeMap(d)). */
  function StoreDict(d: GoDict): Result<Option<Struct>> {
    if DictHasNilPointer(d) then Err(Panicked) else StructOrNil(SanitizedDict(d))
  }

  method StoreMap(d: GoDict) returns (r: Result<Option<Struct>>)
    ensures r == StoreDict(d)
    ensures r.Ok? ==> (r.value.None? <==> Entries(d) == map[])
    ensures r.Ok? && r.value.Some? ==> r.value.value.Keys == Entries(d).Keys
    ensures r.Ok? && r.value.Some? ==> forall k | k in r.value.value ::
              && AsInterface(r.value.value[k]) == ReadBack(Entries(d)[k])
              && ShowsTyped(Entries(d)[k], AsInterface(r.value.value[k]))
  {
    hide ShowsTyped, AsInterface, NewValue, Sanitized, StructOrNil, Storable;
    StoreDictEntries(d);
    if StoreDict(d).Ok? {
      forall k | k in Entries(d)
        ensures ShowsTyped(Entries(d)[k], ReadBack(Entries(d)[k]))
      {
        TypedReadsBack(Entries(d)[k]);
      }
    }
    var clean := SanitizeMap(d);
    return if clean.Err? then Err(clean.status) else StructOrNil(clean.value);
  }

  /** nil, or a non-empty map of plain values. */
  predicate CanonicalDict(d: GoDict) {
    d.NilDict? || (d.entries != map[] && forall k | k in d.entries :: Plain(d.entries[k]))
  }

  /** The stored Struct has one entry for each of the map's, or there is no Struct at all. */
  lemma {:induction false} StoreDictEntries(d: GoDict)
    ensures StoreDict(d).Ok? <==> StorableDict(d)
    ensures StoreDict(d).Ok? && Entries(d) == map[] ==> StoreDict(d).value.None?
    ensures StoreDict(d).Ok? && Entries(d) != map[] ==>
              && StoreDict(d).value.Some?
              && StoreDict(d).value.value.Keys == Entries(d).Keys
              && forall k | k in d.entries ::
                   NewValue(Sanitized(d.entries[k])) == Some(StoreDict(d).value.value[k])
  {
    SanitizedDictIsStorable(d);
    if StorableDict(d) {
      StorableDictHasNoNilPointer(d);
    }
    if Entries(d) != map[] {
      assert SanitizedDict(d).entries.Keys == d.entries.Keys;
      assert d.entries.Keys != {};
    }
  }

  /** What any map that can be stored reads back as: nothing if it is empty, otherwise entry by
      entry. */
  function DictBack(d: GoDict): GoDict {
    if Entries(d) == map[] then NilDict else Dict(map k | k in Entries(d) :: ReadBack(Entries(d)[k]))
  }

  lemma {:induction false} StoredDictReadsBack(d: GoDict)
    requires StoreDict(d).Ok?
    ensures StructMap(StoreDict(d).value) == DictBack(d)
  {
    hide AsInterface, Sanitized, NewValue, StoreDict, StorableDict;
    StoreDictEntries(d);
    if Entries(d) != map[] {
      assert AsMap(StoreDict(d).value.value) == map k | k in Entries(d) :: ReadBack(Entries(d)[k]);
    }
  }

  /** A map reads back as itself exactly when it is canonical. */
  lemma {:induction false} StoredDictIsFixed(d: GoDict)
    requires StoreDict(d).Ok?
    ensures StructMap(StoreDict(d).value) == d <==> CanonicalDict(d)
    ensures CanonicalDict(StructMap(StoreDict(d).value))
  {
    StoreDictEntries(d);
    if Entries(d) != map[] {
      var s := StoreDict(d).value.value;
      forall k | k in s
        ensures AsInterface(s[k]) == d.entries[k] <==> Plain(d.entries[k])
        ensures Plain(AsInterface(s[k]))
      {
        StoredIsFixed(d.entries[k]);
        AsInterfaceIsPlain(s[k]);
      }
      assert AsMap(s).Keys == d.entries.Keys;
    }
  }

  /** A canonical map always stores. */
  lemma {:induction false} CanonicalDictStores(d: GoDict)
    requires CanonicalDict(d)
    ensures StoreDict(d).Ok?
  {
    if d.Dict? {
      forall k | k in d.entries
        ensures Storable(d.entries[k])
      {
        PlainIsKept(d.entries[k]);
        SanitizedIsStorable(d.entries[k]);
      }
    }
    StoreDictEntries(d);
  }

  // Values stored as JSON

  predicate AllFinite(w: Value) {
    match w
    case NumberValue(f) => f.Finite?
    case StructValue(fields) => forall k | k in fields :: AllFinite(fields[k])
    case ListValue(items) => forall i | 0 <= i < |items| :: AllFinite(items[i])
    case _ => true
  }

  /** json.Marshal and back through protojson; None when json.Marshal refuses. */
  function Json(v: GoValue): Option<Value> {
    match v
    case GoNil => Some(NullValue)
    case GoBool(b) => Some(BoolValue(b))
    case GoInt(i) => Some(NumberValue(FloatOfInt(i)))
    case GoFloat(f) => if f.Finite? then Some(NumberValue(f)) else None
    case GoString(s) => Some(StringValue(s))
    case GoBytes(b) => Some(if b.None? then NullValue else StringValue(BytesText(b.value)))
    case GoMap(NilDict) => Some(NullValue)
    case GoMap(Dict(m)) =>
      if forall k | k in m :: Json(m[k]).Some?
      then Some(StructValue(map k | k in m :: Json(m[k]).value))
      else None
    case GoNilList => Some(NullValue)
    case GoList(items) =>
      if forall i | 0 <= i < |items| :: Json(items[i]).Some?
      then Some(ListValue(seq(|items|, i requires 0 <= i < |items| => Json(items[i]).value)))
      else None
    case GoNilPointer => Some(NullValue)
    case _ => if v.json.Some? && AllFinite(v.json.value) then v.json else None
  }

  /** jsonValue: the nil interface is stored as no value at all. */
  function JsonValue(v: GoValue): Result<Option<Value>> {
    if v == GoNil then Ok(None)
    else
      match Json(v)
      case None => Err(InvalidArgument)
      case Some(w) => Ok(Some(w))
  }

  /** valueToAny. */
  function ValueToAny(w: Option<Value>): GoValue {
    match w case None => GoNil case Some(x) => AsInterface(x)
  }

  lemma {:induction false} JsonIsFinite(v: GoValue)
    requires Json(v).Some?
    ensures AllFinite(Json(v).value)
  {
    match v
    case GoMap(d) =>
      if d.Dict? {
        forall k | k in d.entries
          ensures AllFinite(Json(d.entries[k]).value)
        {
          JsonIsFinite(d.entries[k]);
        }
      }
    case GoList(items) =>
      forall i | 0 <= i < |items|
        ensures AllFinite(Json(items[i]).value)
      {
        JsonIsFinite(items[i]);
      }
    case _ =>
  }

  lemma {:induction false} JsonRestores(w: Value)
    requires AllFinite(w)
    ensures Json(AsInterface(w)) == Some(w)
  {
    match w
    case StructValue(fields) =>
      forall k | k in fields
        ensures Json(AsInterface(fields[k])) == Some(fields[k])
      {
        JsonRestores(fields[k]);
      }
      assert Json(AsInterface(w)).value.fields == fields;
    case ListValue(items) =>
      forall i | 0 <= i < |items|
        ensures Json(AsInterface(items[i])) == Some(items[i])
      {
        JsonRestores(items[i]);
      }
      assert Json(AsInterface(w)).value.items == items;
    case _ =>
  }

  lemma {:induction false} PlainIsJson(v: GoValue)
    requires Plain(v) && Json(v).Some?
    ensures AsInterface(Json(v).value) == v
  {
    match v
    case GoMap(d) =>
      forall k | k in d.entries
        ensures AsInterface(Json(d.entries[k]).value) == d.entries[k]
      {
        PlainIsJson(d.entries[k]);
      }
      assert AsInterface(Json(v).value).dict.entries == d.entries;
    case GoList(items) =>
      forall i | 0 <= i < |items|
        ensures AsInterface(Json(items[i]).value) == items[i]
      {
        PlainIsJson(items[i]);
      }
      assert AsInterface(Json(v).value).items == items;
    case _ =>
  }

  /** A JSON-stored value reads back as itself exactly when it is plain, and what it reads
      back as stores to the same JSON. */
  lemma {:induction false} JsonIsFixed(v: GoValue)
    requires JsonValue(v).Ok?
    ensures ValueToAny(JsonValue(v).value) == v <==> Plain(v)
    ensures JsonValue(ValueToAny(JsonValue(v).value)).Ok?
    ensures ValueToAny(JsonValue(ValueToAny(JsonValue(v).value)).value) == ValueToAny(JsonValue(v).value)
  {
    if v != GoNil {
      AsInterfaceIsPlain(Json(v).value);
      if Plain(v) {
        PlainIsJson(v);
      }
      JsonIsFinite(v);
      JsonRestores(Json(v).value);
    }
  }

  // Tool-confirmation payloads: sanitised, then stored as JSON

  predicate NoEmptyMaps(v: GoValue) {
    match v
    case GoMap(d) => Entries(d) != map[] && forall k | k in d.entries :: NoEmptyMaps(d.entries[k])
    case GoList(items) => forall i | 0 <= i < |items| :: NoEmptyMaps(items[i])
    case _ => true
  }

  predicate NoEmptyObjects(w: Value) {
    match w
    case StructValue(fields) => fields != map[] && forall k | k in fields :: NoEmptyObjects(fields[k])
    case ListValue(items) => forall i | 0 <= i < |items| :: NoEmptyObjects(items[i])
    case _ => true
  }

  /** No value of a foreign Go type in here marshals to JSON that holds an empty object. */
  predicate NoForeignEmptyObject(v: GoValue) {
    match v
    case GoMap(d) => d.NilDict? || forall k | k in d.entries :: NoForeignEmptyObject(d.entries[k])
    case GoList(items) => forall i | 0 <= i < |items| :: NoForeignEmptyObject(items[i])
    case GoFunctionCall(_, _, args, _) =>
      args.NilDict? || forall k | k in args.entries :: NoForeignEmptyObject(args.entries[k])
    case GoFunctionResponse(_, _, response, _) =>
      response.NilDict? || forall k | k in response.entries :: NoForeignEmptyObject(response.entries[k])
    case GoToolConfirmation(_, _, payload, _) => NoForeignEmptyObject(payload)
    case GoOther(json) => json.Some? ==> NoEmptyObjects(json.value)
    case _ => true
  }

  /** jsonValue(sanitizeValue(v)). */
  function StorePayload(v: GoValue): Result<Option<Value>> {
    if HasNilPointer(v) then Err(Panicked) else JsonValue(Sanitized(v))
  }

  /** Sanitising leaves a plain value alone exactly when no map in it is empty: an empty map
      becomes a nil map, which JSON writes as null. */
  lemma {:induction false} SanitizedPlain(v: GoValue)
    requires Plain(v)
    ensures Sanitized(v) == v <==> NoEmptyMaps(v)
    ensures !NoEmptyMaps(v) && Json(Sanitized(v)).Some? ==> AsInterface(Json(Sanitized(v)).value) != v
  {
    match v
    case GoMap(d) =>
      var m := d.entries;
      forall k | k in m
        ensures Sanitized(m[k]) == m[k] <==> NoEmptyMaps(m[k])
        ensures !NoEmptyMaps(m[k]) && Json(Sanitized(m[k])).Some? ==> AsInterface(Json(Sanitized(m[k])).value) != m[k]
      {
        SanitizedPlain(m[k]);
      }
      if m != map[] {
        var e := SanitizedDict(d).entries;
        assert e.Keys == m.Keys;
        if k :| k in m && !NoEmptyMaps(m[k]) {
          assert e[k] != m[k];
          if Json(Sanitized(v)).Some? {
            assert Json(Sanitized(v)).value.fields[k] == Json(e[k]).value;
            assert AsInterface(Json(Sanitized(v)).value).dict.entries[k] != m[k];
          }
        } else {
          assert e == m;
        }
      }
    case GoList(items) =>
      var s := Sanitized(v).items;
      forall i | 0 <= i < |items|
        ensures s[i] == items[i] <==> NoEmptyMaps(items[i])
        ensures !NoEmptyMaps(items[i]) && Json(s[i]).Some? ==> AsInterface(Json(s[i]).value) != items[i]
      {
        SanitizedPlain(items[i]);
      }
      if i :| 0 <= i < |items| && !NoEmptyMaps(items[i]) {
        if Json(Sanitized(v)).Some? {
          assert AsInterface(Json(Sanitized(v)).value).items[i] == AsInterface(Json(s[i]).value);
        }
      } else {
        assert s == items;
      }
    case _ =>
  }

  lemma {:induction false} EmptyMapsAreEmptyObjects(w: Value)
    ensures NoEmptyMaps(AsInterface(w)) <==> NoEmptyObjects(w)
  {
    match w
    case StructValue(fields) =>
      var m := AsInterface(w).dict.entries;
      assert m.Keys == fields.Keys;
      forall k | k in fields
        ensures NoEmptyMaps(m[k]) <==> NoEmptyObjects(fields[k])
      {
        EmptyMapsAreEmptyObjects(fields[k]);
      }
      if fields != map[] {
        var k :| k in fields;
        assert k in m;
      }
    case ListValue(items) =>
      forall i | 0 <= i < |items|
        ensures NoEmptyMaps(AsInterface(items[i])) <==> NoEmptyObjects(items[i])
      {
        EmptyMapsAreEmptyObjects(items[i]);
      }
      assert forall i | 0 <= i < |items| :: AsInterface(w).items[i] == AsInterface(items[i]);
    case _ =>
  }

  /** Empty objects in the stored payload can only come from foreign types. */
  lemma {:induction false} StoredEmptyObjects(v: GoValue)
    requires Json(Sanitized(v)).Some?
    ensures NoEmptyObjects(Json(Sanitized(v)).value) <==> NoForeignEmptyObject(v)
  {
    match v
    case GoMap(d) => StoredEmptyObjectsDict(d);
    case GoList(items) =>
      var s := Sanitized(v).items;
      forall i | 0 <= i < |items|
        ensures Json(s[i]).Some?
        ensures NoEmptyObjects(Json(s[i]).value) <==> NoForeignEmptyObject(items[i])
      {
        assert s[i] == Sanitized(items[i]);
        StoredEmptyObjects(items[i]);
      }
      assert forall i | 0 <= i < |items| :: Json(Sanitized(v)).value.items[i] == Json(s[i]).value;
    case GoFunctionCall(id, name, args, _) =>
      StoredRecord("id", GoString(id), "name", GoString(name), "args", GoMap(SanitizedDict(args)));
      StoredEmptyObjectsDict(args);
    case GoFunctionResponse(id, name, response, _) =>
      StoredRecord("id", GoString(id), "name", GoString(name), "response", GoMap(SanitizedDict(response)));
      StoredEmptyObjectsDict(response);
    case GoToolConfirmation(hint, confirmed, payload, _) =>
      StoredRecord("hint", GoString(hint), "confirmed", GoBool(confirmed), "payload", Sanitized(payload));
      StoredEmptyObjects(payload);
    case _ =>
  }

  lemma {:induction false} StoredRecord(a: string, x: GoValue, b: string, y: GoValue, c: string, z: GoValue)
    requires a != b && b != c && a != c
    requires (x.GoString? || x.GoBool?) && (y.GoString? || y.GoBool?)
    requires Json(GoMap(Dict(map[a := x, b := y, c := z]))).Some?
    ensures Json(z).Some?
    ensures NoEmptyObjects(Json(GoMap(Dict(map[a := x, b := y, c := z]))).value) <==> NoEmptyObjects(Json(z).value)
  {
    var m := map[a := x, b := y, c := z];
    assert a in m && b in m && c in m;
    assert m[a] == x && m[b] == y && m[c] == z;
    var fields := Json(GoMap(Dict(m))).value.fields;
    assert c in fields && fields[c] == Json(z).value;
  }

  lemma {:induction false} StoredEmptyObjectsDict(d: GoDict)
    requires Json(GoMap(SanitizedDict(d))).Some?
    ensures NoEmptyObjects(Json(GoMap(SanitizedDict(d))).value) <==>
            (d.NilDict? || forall k | k in d.entries :: NoForeignEmptyObject(d.entries[k]))
  {
    if Entries(d) != map[] {
      var e := SanitizedDict(d).entries;
      assert e.Keys == d.entries.Keys;
      forall k | k in d.entries
        ensures Json(e[k]).Some?
        ensures NoEmptyObjects(Json(e[k]).value) <==> NoForeignEmptyObject(d.entries[k])
      {
        assert k in e;
        StoredEmptyObjects(d.entries[k]);
      }
      var fields := Json(GoMap(SanitizedDict(d))).value.fields;
      assert fields.Keys == d.entries.Keys;
      var k :| k in d.entries;
      assert k in fields;
    }
  }

  /** What a payload reads back as. */
  function PayloadBack(v: GoValue): GoValue {
    match StorePayload(v) case Ok(w) => ValueToAny(w) case Err(_) => GoNil
  }

  /** Every payload that can be stored reads back, field by field: as in a Struct, but that an
      empty map comes back as nil. */
  lemma {:induction false} PayloadReadsBackAs(v: GoValue)
    requires StorePayload(v).Ok?
    ensures match v
            case GoFunctionCall(id, name, args, _) =>
              PayloadBack(v) == RecordOf("id", GoString(id), "name", GoString(name), "args", PayloadBack(GoMap(args)))
            case GoFunctionResponse(id, name, response, _) =>
              PayloadBack(v) ==
              RecordOf("id", GoString(id), "name", GoString(name), "response", PayloadBack(GoMap(response)))
            case GoToolConfirmation(hint, confirmed, payload, _) =>
              PayloadBack(v) ==
              RecordOf("hint", GoString(hint), "confirmed", GoBool(confirmed), "payload", PayloadBack(payload))
            case GoMap(d) =>
              PayloadBack(v) == if Entries(d) == map[] then GoNil
                                else GoMap(Dict(map k | k in Entries(d) :: PayloadBack(Entries(d)[k])))
            case GoList(items) =>
              PayloadBack(v) == GoList(seq(|items|, i requires 0 <= i < |items| => PayloadBack(items[i])))
            case GoNilList => PayloadBack(v) == GoList([])
            case _ => PayloadBack(v) == match Json(v) case None => GoNil case Some(w) => AsInterface(w)
  {
    hide HasNilPointer;
    match v
    case GoMap(d) => PayloadDictBack(d);
    case GoList(items) =>
      var w := Json(Sanitized(v)).value;
      forall i | 0 <= i < |items|
        ensures PayloadBack(items[i]) == AsInterface(w.items[i])
      {
        assert Sanitized(v).items[i] == Sanitized(items[i]);
        NoNilPointerAt(items, i);
        PayloadIs(items[i]);
      }
      assert AsInterface(w).items == seq(|items|, i requires 0 <= i < |items| => PayloadBack(items[i]));
    case GoFunctionCall(id, name, args, _) =>
      StoredRecord("id", GoString(id), "name", GoString(name), "args", GoMap(SanitizedDict(args)));
      RecordJson("id", GoString(id), "name", GoString(name), "args", GoMap(SanitizedDict(args)));
      NoNilPointerInRecord(v);
      PayloadIs(GoMap(args));
    case GoFunctionResponse(id, name, response, _) =>
      StoredRecord("id", GoString(id), "name", GoString(name), "response", GoMap(SanitizedDict(response)));
      RecordJson("id", GoString(id), "name", GoString(name), "response", GoMap(SanitizedDict(response)));
      NoNilPointerInRecord(v);
      PayloadIs(GoMap(response));
    case GoToolConfirmation(hint, confirmed, payload, _) =>
      StoredRecord("hint", GoString(hint), "confirmed", GoBool(confirmed), "payload", Sanitized(payload));
      RecordJson("hint", GoString(hint), "confirmed", GoBool(confirmed), "payload", Sanitized(payload));
      NoNilPointerInRecord(v);
      PayloadIs(payload);
    case _ =>
      PayloadIs(v);
  }

  lemma {:induction false} PayloadIs(v: GoValue)
    requires !HasNilPointer(v) && Json(Sanitized(v)).Some?
    ensures PayloadBack(v) == AsInterface(Json(Sanitized(v)).value)
  {
  }

  lemma {:induction false} NoNilPointerAt(items: seq<GoValue>, i: nat)
    requires i < |items| && !HasNilPointer(GoList(items))
    ensures !HasNilPointer(items[i])
  {
  }

  lemma {:induction false} NoNilPointerInRecord(v: GoValue)
    requires !HasNilPointer(v)
    ensures v.GoFunctionCall? ==> !HasNilPointer(GoMap(v.args))
    ensures v.GoFunctionResponse? ==> !HasNilPointer(GoMap(v.response))
    ensures v.GoToolConfirmation? ==> !HasNilPointer(v.payload)
    ensures v.GoMap? ==> forall k | k in Entries(v.dict) :: !HasNilPointer(Entries(v.dict)[k])
  {
  }

  lemma {:induction false} RecordJson(a: string, x: GoValue, b: string, y: GoValue, c: string, z: GoValue)
    requires a != b && b != c && a != c
    requires (x.GoString? || x.GoBool?) && (y.GoString? || y.GoBool?)
    requires Json(RecordOf(a, x, b, y, c, z)).Some? && Json(z).Some?
    ensures AsInterface(Json(RecordOf(a, x, b, y, c, z)).value) == RecordOf(a, x, b, y, c, AsInterface(Json(z).value))
  {
    hide AsInterface, Json;
    LeafJson(x);
    LeafJson(y);
    var m := map[a := x, b := y, c := z];
    assert m.Keys == {a, b, c} && m[a] == x && m[b] == y && m[c] == z;
    JsonReadsBack(m, map[a := x, b := y, c := AsInterface(Json(z).value)]);
  }

  lemma {:induction false} LeafJson(v: GoValue)
    requires v.GoString? || v.GoBool?
    ensures Json(v).Some? && AsInterface(Json(v).value) == v
  {
  }

  lemma {:induction false} JsonReadsBack(d: map<string, GoValue>, m: map<string, GoValue>)
    requires d.Keys == m.Keys
    requires forall k | k in m :: Json(d[k]).Some? && AsInterface(Json(d[k]).value) == m[k]
    ensures Json(GoMap(Dict(d))).Some? && AsInterface(Json(GoMap(Dict(d))).value) == GoMap(Dict(m))
  {
    var w := Json(GoMap(Dict(d))).value;
    assert AsInterface(w).dict.entries == m;
  }

  lemma {:induction false} PayloadDictBack(d: GoDict)
    requires StorePayload(GoMap(d)).Ok?
    ensures PayloadBack(GoMap(d)) ==
            if Entries(d) == map[] then GoNil else GoMap(Dict(map k | k in Entries(d) :: PayloadBack(Entries(d)[k])))
  {
    hide HasNilPointer;
    NoNilPointerInRecord(GoMap(d));
    if Entries(d) == map[] {
      assert Sanitized(GoMap(d)) == GoMap(NilDict);
      assert Json(GoMap(NilDict)) == Some(NullValue);
      PayloadIs(GoMap(d));
    } else {
      var e := SanitizedDict(d).entries;
      assert e.Keys == Entries(d).Keys;
      forall k | k in Entries(d)
        ensures Json(e[k]).Some? && PayloadBack(Entries(d)[k]) == AsInterface(Json(e[k]).value)
      {
        assert k in e;
        PayloadIs(Entries(d)[k]);
      }
      JsonReadsBack(e, map k | k in Entries(d) :: PayloadBack(Entries(d)[k]));
      PayloadIs(GoMap(d));
    }
  }

  /** A payload reads back as itself exactly when it is plain and holds no empty map. */
  lemma {:induction false} PayloadIsFixed(v: GoValue)
    requires StorePayload(v).Ok?
    ensures ValueToAny(StorePayload(v).value) == v <==> Plain(v) && NoEmptyMaps(v)
  {
    if v != GoNil {
      if Plain(v) {
        SanitizedPlain(v);
        if NoEmptyMaps(v) {
          PlainIsJson(v);
        }
      }
      if Sanitized(v) != GoNil {
        AsInterfaceIsPlain(Json(Sanitized(v)).value);
      }
    }
  }

  /** Storing what was read back succeeds, and gives the same payload again exactly when no
      foreign type in the original marshals to JSON holding an empty object. */
  lemma {:induction false} PayloadIdempotence(v: GoValue)
    requires StorePayload(v).Ok?
    ensures var once := ValueToAny(StorePayload(v).value);
            && StorePayload(once).Ok?
            && (ValueToAny(StorePayload(once).value) == once <==> NoForeignEmptyObject(v))
  {
    if v != GoNil {
      var w := Json(Sanitized(v)).value;
      var once := AsInterface(w);
      JsonIsFinite(Sanitized(v));
      AsInterfaceIsPlain(w);
      PlainIsKept(once);
      SanitizedIsStorable(once);
      StorableHasNoNilPointer(once);
      SanitizedJson(w);
      EmptyMapsAreEmptyObjects(w);
      StoredEmptyObjects(v);
      PayloadIsFixed(once);
    }
  }

  /** What was stored can be stored again. */
  lemma {:induction false} SanitizedJson(w: Value)
    requires AllFinite(w)
    ensures Json(Sanitized(AsInterface(w))).Some?
  {
    match w
    case StructValue(fields) =>
      var m := AsInterface(w).dict.entries;
      assert m.Keys == fields.Keys;
      forall k | k in fields
        ensures Json(Sanitized(m[k])).Some?
      {
        SanitizedJson(fields[k]);
      }
    case ListValue(items) =>
      forall i | 0 <= i < |items|
        ensures Json(Sanitized(AsInterface(items[i]))).Some?
      {
        SanitizedJson(items[i]);
      }
      assert forall i | 0 <= i < |items| :: AsInterface(w).items[i] == AsInterface(items[i]);
    case _ =>
  }
}
