/** Dynamic values: Go's `any`, the Struct values of the stored protos, and the library
    conversions between them (structpb.NewValue, Value.AsInterface, JSON encoding). */
module Values {
  import opened Wrappers
  import opened Encoding

  /** A float64, kept abstract: a real, an infinity or not-a-number. */
  datatype Float = Finite(r: real) | Infinite(positive: bool) | NotANumber

  /** structpb.Value. */
  datatype Value =
    | NullValue
    | BoolValue(b: bool)
    | NumberValue(f: Float)
    | StringValue(s: string)
    | StructValue(fields: Struct)
    | ListValue(items: seq<Value>)

  /** structpb.Struct; no pair of Structs differs only in a nil against an empty map. */
  type Struct = map<string, Value>

  /** A map[string]any: nil, or a map that may be empty. */
  datatype GoDict = NilDict | Dict(entries: map<string, GoValue>)

  /** A Go value of type any. The typed values are the ones the package rewrites before
      storing (by value or by pointer, which it treats alike unless the pointer is nil). Their JSON form, like that of
      every other Go type, is decided by code outside this package, so the value carries it:
      what json.Marshal makes of it, or None when json.Marshal refuses. */
  datatype GoValue =
    | GoNil
    | GoBool(b: bool)
    | GoInt(i: int)
    | GoFloat(f: Float)
    | GoString(s: string)
    | GoBytes(bytes: Option<seq<Byte>>)
    | GoMap(dict: GoDict)
    | GoNilList
    | GoList(items: seq<GoValue>)
    | GoFunctionCall(id: string, name: string, args: GoDict, json: Option<Value>)
    | GoFunctionResponse(id: string, name: string, response: GoDict, json: Option<Value>)
    | GoToolConfirmation(hint: string, confirmed: bool, payload: GoValue, json: Option<Value>)
    | GoNilPointer
    | GoOther(json: Option<Value>)

  function Entries(d: GoDict): map<string, GoValue> {
    match d case NilDict => map[] case Dict(m) => m
  }

  // Integers as float64

  /** The weight of the last of the 53 significant bits. */
  function UnitInLastPlace(n: nat): (u: nat)
    ensures u > 0
  {
    if n < 0x20_0000_0000_0000 then 1 else 2 * UnitInLastPlace(n / 2)
  }

  /** Rounds to 53 significant bits, ties to even. */
  function RoundNat(n: nat): nat {
    var u := UnitInLastPlace(n);
    var q, rest := n / u, n % u;
    if 2 * rest < u || (2 * rest == u && q % 2 == 0) then q * u else (q + 1) * u
  }

  function FloatOfInt(i: int): Float {
    Finite(if i < 0 then 0.0 - RoundNat(-i) as real else RoundNat(i) as real)
  }

  /** Bytes are stored as base64 text. */
  function BytesText(b: seq<Byte>): string {
    EncodeBase64(b)
  }

  // structpb

  /** structpb.NewValue; None when it reports an invalid type. */
  function NewValue(v: GoValue): Option<Value> {
    match v
    case GoNil => Some(NullValue)
    case GoBool(b) => Some(BoolValue(b))
    case GoInt(i) => Some(NumberValue(FloatOfInt(i)))
    case GoFloat(f) => Some(NumberValue(f))
    case GoString(s) => Some(StringValue(s))
    case GoBytes(b) => Some(StringValue(if b.None? then "" else BytesText(b.value)))
    case GoMap(NilDict) => Some(StructValue(map[]))
    case GoMap(Dict(m)) =>
      if forall k | k in m :: NewValue(m[k]).Some?
      then Some(StructValue(map k | k in m :: NewValue(m[k]).value))
      else None
    case GoNilList => Some(ListValue([]))
    case GoList(items) =>
      if forall i | 0 <= i < |items| :: NewValue(items[i]).Some?
      then Some(ListValue(seq(|items|, i requires 0 <= i < |items| => NewValue(items[i]).value)))
      else None
    case _ => None
  }

  /** structpb.NewStruct. */
  function NewStruct(d: GoDict): Option<Struct> {
    match NewValue(GoMap(d))
    case Some(StructValue(fields)) => Some(fields)
    case _ => None
  }

  /** Value.AsInterface. */
  function AsInterface(w: Value): GoValue {
    match w
    case NullValue => GoNil
    case BoolValue(b) => GoBool(b)
    case NumberValue(f) => GoFloat(f)
    case StringValue(s) => GoString(s)
    case StructValue(fields) => GoMap(Dict(map k | k in fields :: AsInterface(fields[k])))
    case ListValue(items) => GoList(seq(|items|, i requires 0 <= i < |items| => AsInterface(items[i])))
  }

  /** Struct.AsMap, which never answers nil. */
  function AsMap(s: Struct): map<string, GoValue> {
    map k | k in s :: AsInterface(s[k])
  }

  /** A Struct read back and stored again is the same Struct: the store's own reads and writes
      of state neither fail nor change a value, so state rows may be treated as Structs. */
  lemma {:induction false} RestoreValue(w: Value)
    ensures NewValue(AsInterface(w)) == Some(w)
  {
    match w
    case StructValue(fields) =>
      forall k | k in fields
        ensures NewValue(AsInterface(fields[k])) == Some(fields[k])
      {
        RestoreValue(fields[k]);
      }
      assert NewValue(AsInterface(w)).value.fields == fields;
    case ListValue(items) =>
      forall i | 0 <= i < |items|
        ensures NewValue(AsInterface(items[i])) == Some(items[i])
      {
        RestoreValue(items[i]);
      }
      assert NewValue(AsInterface(w)).value.items == items;
    case _ =>
  }

  lemma {:induction false} RestoreStruct(s: Struct)
    ensures NewStruct(Dict(AsMap(s))) == Some(s)
  {
    RestoreValue(StructValue(s));
    assert AsInterface(StructValue(s)) == GoMap(Dict(AsMap(s)));
  }
}
