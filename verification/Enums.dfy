/** Mapping enums by name: ADK's short strings against generated proto enum tables. */
module Enums {

  /** The generated name tables of one enum, and the type prefix its proto names may carry. */
  datatype EnumTable = EnumTable(values: map<string, int>, names: map<int, string>, prefix: string) {

    /** What the protobuf generator guarantees: the tables are inverse, names are not empty
        and zero is declared. */
    ghost predicate Valid() {
      && (forall s | s in values :: s != "" && values[s] in names && names[values[s]] == s)
      && (forall v | v in names :: names[v] in values && values[names[v]] == v)
      && 0 in names
    }

    /** No short name is empty or the full name of a different value. */
    ghost predicate Unambiguous() {
      forall v | v in names && v != 0 ::
        var short := TrimPrefix(names[v], prefix);
        short != "" && (short in values ==> values[short] == v)
    }
  }

  function TrimPrefix(s: string, prefix: string): string {
    if prefix <= s then s[|prefix|..] else s
  }

  function EnumToProto(t: EnumTable, name: string): int {
    if name == "" then 0
    else if name in t.values then t.values[name]
    else if t.prefix + name in t.values then t.values[t.prefix + name]
    else 0
  }

  function EnumFromProto(t: EnumTable, value: int): string {
    if value == 0 then ""
    else TrimPrefix(if value in t.names then t.names[value] else "", t.prefix)
  }

  /** Unset, or the short name of a declared value other than zero. */
  ghost predicate KnownShortName(t: EnumTable, s: string) {
    s == "" || exists v :: v in t.names && v != 0 && s == TrimPrefix(t.names[v], t.prefix)
  }

  /** Read back and stored again, every declared value stays itself exactly when the table is
      unambiguous. */
  lemma {:induction false} EnumRestoresIff(t: EnumTable)
    requires t.Valid()
    ensures (forall v | v in t.names :: EnumToProto(t, EnumFromProto(t, v)) == v) <==> t.Unambiguous()
  {
    forall v | v in t.names && v != 0
      ensures EnumToProto(t, EnumFromProto(t, v)) == v <==>
              (var short := TrimPrefix(t.names[v], t.prefix);
               short != "" && (short in t.values ==> t.values[short] == v))
    {
      ShortNameResolves(t, v);
    }
    if t.Unambiguous() {
      forall v | v in t.names
        ensures EnumToProto(t, EnumFromProto(t, v)) == v
      {
        assert v != 0 ==> t.names[v] in t.values;
      }
    }
  }

  lemma {:induction false} ShortNameResolves(t: EnumTable, v: int)
    requires t.Valid() && v in t.names && v != 0
    ensures var short := TrimPrefix(t.names[v], t.prefix);
            EnumToProto(t, short) == v <==> short != "" && (short in t.values ==> t.values[short] == v)
  {
    var short := TrimPrefix(t.names[v], t.prefix);
    if short !in t.values {
      assert t.prefix + short == t.names[v];
    }
  }

  /** A string survives storage exactly when it is a known short name (or unset), and what it
      reads back as is one. */
  lemma {:induction false} EnumIsFixed(t: EnumTable, s: string)
    requires t.Valid() && t.Unambiguous()
    ensures EnumFromProto(t, EnumToProto(t, s)) == s <==> KnownShortName(t, s)
    ensures KnownShortName(t, EnumFromProto(t, EnumToProto(t, s)))
  {
    var stored := EnumToProto(t, s);
    if stored != 0 {
      assert stored in t.names;
    }
    if s != "" && KnownShortName(t, s) {
      var v :| v in t.names && v != 0 && s == TrimPrefix(t.names[v], t.prefix);
      ShortNameResolves(t, v);
    }
  }

  /** What any string reads back as: a full name as its short name, a short name as itself, and
      what the table does not know, like the name of zero, as unset. */
  lemma {:induction false} EnumReadsBack(t: EnumTable, s: string)
    requires t.Valid()
    ensures var back := EnumFromProto(t, EnumToProto(t, s));
            if s in t.values then
              back == if t.values[s] == 0 then "" else if t.prefix <= s then s[|t.prefix|..] else s
            else if s != "" && t.prefix + s in t.values then back == if t.values[t.prefix + s] == 0 then "" else s
            else back == "" && EnumToProto(t, s) == 0
  {
  }

  /** Why the table must be unambiguous: here one value's short name is another's full name,
      and each further round of storage moves to a different value. */
  lemma {:induction false} AmbiguousTableDrifts()
    ensures var t := EnumTable(map["NONE" := 0, "P_P_X" := 1, "P_X" := 2],
                               map[0 := "NONE", 1 := "P_P_X", 2 := "P_X"], "P_");
            && t.Valid() && !t.Unambiguous()
            && EnumFromProto(t, EnumToProto(t, "P_P_X")) == "P_X"
            && EnumFromProto(t, EnumToProto(t, "P_X")) == "X"
  {
    var t := EnumTable(map["NONE" := 0, "P_P_X" := 1, "P_X" := 2],
                       map[0 := "NONE", 1 := "P_P_X", 2 := "P_X"], "P_");
    assert "P_P_X"[2..] == "P_X" && "P_X"[2..] == "X";
    assert "P_" <= "P_P_X" && "P_" <= "P_X";
    assert "NONE"[0] != "P_P_X"[0] && |"P_X"| != |"P_P_X"| && |"NONE"| != |"P_X"|;
    assert 1 in t.names;
  }
}
