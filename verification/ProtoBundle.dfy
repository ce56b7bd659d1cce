/** ProtoBundleStatement: the message and enum types a proto file reaches, over a type graph
    that may have cycles and whose map-entry messages are passed through (spannertest.go). */
module ProtoBundle {
  import opened Wrappers
  import opened Graphs

  /** A field refers to a message type, an enum type, or neither. */
  datatype Field = Field(name: string, message: Option<string>, enumeration: Option<string>)

  /** A message descriptor; nested types are given by full name, like all others. */
  datatype Message = Message(isMapEntry: bool, fields: seq<Field>, messages: seq<string>, enums: seq<string>)

  /** All message types by full name. */
  type Schema = map<string, Message>

  /** The top-level types of the root file. */
  datatype File = File(messages: seq<string>, enums: seq<string>)

  /** fields.ByName("value"). */
  function ValueField(fields: seq<Field>): Option<Field> {
    if fields == [] then None
    else if fields[0].name == "value" then Some(fields[0])
    else ValueField(fields[1..])
  }

  function OptionSet(o: Option<string>): set<string> {
    match o case None => {} case Some(x) => {x}
  }

  function MessageRefs(m: Message): set<string> {
    if m.isMapEntry then
      (match ValueField(m.fields) case None => {} case Some(f) => OptionSet(f.message))
    else
      (set i, x | 0 <= i < |m.fields| && x in OptionSet(m.fields[i].message) :: x)
      + (set i | 0 <= i < |m.messages| :: m.messages[i])
  }

  function EnumRefs(m: Message): set<string> {
    if m.isMapEntry then
      (match ValueField(m.fields) case None => {} case Some(f) => OptionSet(f.enumeration))
    else
      (set i, x | 0 <= i < |m.fields| && x in OptionSet(m.fields[i].enumeration) :: x)
      + (set i | 0 <= i < |m.enums| :: m.enums[i])
  }

  /** What every linked set of descriptors guarantees: references resolve, messages and enums
      share one name space, the fields of a message have different names, and the value of a map
      is not itself a map. */
  ghost predicate Linked(s: Schema, file: File) {
    && (forall n | n in s :: LinkedMessage(s, s[n]))
    && (forall i | 0 <= i < |file.messages| :: file.messages[i] in s)
    && (forall i | 0 <= i < |file.enums| :: file.enums[i] !in s)
  }

  ghost predicate LinkedMessage(s: Schema, m: Message) {
    && (forall i | 0 <= i < |m.fields| :: LinkedField(s, m.fields[i]))
    && (forall i, j | 0 <= i < j < |m.fields| :: m.fields[i].name != m.fields[j].name)
    && (forall i | 0 <= i < |m.messages| :: m.messages[i] in s)
    && (forall i | 0 <= i < |m.enums| :: m.enums[i] !in s)
    && (m.isMapEntry ==>
          forall i | 0 <= i < |m.fields| && m.fields[i].name == "value" && m.fields[i].message.Some? ::
            m.fields[i].message.value in s && !s[m.fields[i].message.value].isMapEntry)
  }

  ghost predicate LinkedField(s: Schema, f: Field) {
    && (f.message.Some? ==> f.message.value in s)
    && (f.enumeration.Some? ==> f.enumeration.value !in s)
  }

  // What descriptors refer to, read off them

  ghost predicate FieldRefers(f: Field, t: string) {
    f.message == Some(t) || f.enumeration == Some(t)
  }

  /** A map entry refers to the type of its field "value" only; any other message to the types of
      all its fields and to the types nested in it. */
  ghost predicate Refers(s: Schema, n: string, t: string) {
    && n in s
    && if s[n].isMapEntry then
         exists i :: 0 <= i < |s[n].fields| && s[n].fields[i].name == "value" && FieldRefers(s[n].fields[i], t)
       else
         || (exists i :: 0 <= i < |s[n].fields| && FieldRefers(s[n].fields[i], t))
         || t in s[n].messages || t in s[n].enums
  }

  ghost predicate LeadsTo(s: Schema, a: string, b: string) {
    exists p: seq<string> ::
      && p != [] && p[0] == a && p[|p| - 1] == b
      && forall i | 0 <= i < |p| - 1 :: Refers(s, p[i], p[i + 1])
  }

  /** A type of the file itself leads to it. */
  ghost predicate Needed(s: Schema, file: File, n: string) {
    exists root :: (root in file.messages || root in file.enums) && LeadsTo(s, root, n)
  }

  /** The type is listed; or it is a map entry, and the type of its value is. */
  ghost predicate Included(s: Schema, names: seq<string>, n: string) {
    if n in s && s[n].isMapEntry then
      forall i, t | 0 <= i < |s[n].fields| && s[n].fields[i].name == "value" && FieldRefers(s[n].fields[i], t) ::
        t in names
    else n in names
  }

  lemma {:induction false} ValueFieldIs(fields: seq<Field>, i: nat)
    requires i < |fields| && fields[i].name == "value"
    requires forall i, j | 0 <= i < j < |fields| :: fields[i].name != fields[j].name
    ensures ValueField(fields) == Some(fields[i])
  {
    if i == 0 {
    } else {
      ValueFieldIs(fields[1..], i - 1);
    }
  }

  lemma {:induction false} ValueFieldAt(fields: seq<Field>)
    ensures var f := ValueField(fields);
            f.Some? ==> f.value in fields && f.value.name == "value"
  {
    if fields == [] {
    } else {
      ValueFieldAt(fields[1..]);
    }
  }

  /** The edges of the type graph are what the descriptors refer to. */
  lemma {:induction false} EdgesAreReferences(s: Schema, file: File, n: string, t: string)
    requires Linked(s, file)
    ensures t in Successors(Types(s), n) <==> Refers(s, n, t)
  {
    if n in s && s[n].isMapEntry {
      assert LinkedMessage(s, s[n]);
      ValueFieldAt(s[n].fields);
      if i :| 0 <= i < |s[n].fields| && s[n].fields[i].name == "value" && FieldRefers(s[n].fields[i], t) {
        ValueFieldIs(s[n].fields, i);
      }
    } else if n in s {
      FieldReferences(s[n], t);
    }
  }

  lemma {:induction false} FieldReferences(m: Message, t: string)
    requires !m.isMapEntry
    ensures t in MessageRefs(m) + EnumRefs(m) <==>
            (exists i :: 0 <= i < |m.fields| && FieldRefers(m.fields[i], t)) || t in m.messages || t in m.enums
  {
    if i :| 0 <= i < |m.fields| && FieldRefers(m.fields[i], t) {
      assert t in OptionSet(m.fields[i].message) || t in OptionSet(m.fields[i].enumeration);
    }
    if i :| 0 <= i < |m.fields| && (t in OptionSet(m.fields[i].message) || t in OptionSet(m.fields[i].enumeration)) {
      assert FieldRefers(m.fields[i], t);
    }
  }

  lemma {:induction false} ReachesIsLeadsTo(s: Schema, file: File, a: string, b: string)
    requires Linked(s, file)
    ensures Reaches(Types(s), a, b) <==> LeadsTo(s, a, b)
  {
    hide Linked, Types, Refers;
    forall n, t
      ensures t in Successors(Types(s), n) <==> Refers(s, n, t)
    {
      EdgesAreReferences(s, file, n, t);
    }
    if p: seq<string> :| p != [] && p[0] == a && p[|p| - 1] == b
                         && forall i | 0 <= i < |p| - 1 :: Refers(s, p[i], p[i + 1]) {
      assert IsPath(Types(s), p);
    }
  }

  /** Being dealt with, said of the descriptors. */
  lemma {:induction false} CoveredIsIncluded(s: Schema, file: File, names: seq<string>, seen: set<string>, n: string)
    requires Linked(s, file) && Covered(Types(s), MapEntries(s), seen, n)
    requires seen !! MapEntries(s) && forall x :: x in names <==> x in seen
    ensures Included(s, names, n)
  {
    hide Linked, Types, Refers;
    if n in s && s[n].isMapEntry {
      assert n in MapEntries(s);
      forall i, t | 0 <= i < |s[n].fields| && s[n].fields[i].name == "value" && FieldRefers(s[n].fields[i], t)
        ensures t in names
      {
        assert Refers(s, n, t) by { ValueRefers(s, n, i, t); }
        EdgesAreReferences(s, file, n, t);
      }
    }
  }

  lemma {:induction false} ValueRefers(s: Schema, n: string, i: nat, t: string)
    requires n in s && s[n].isMapEntry && i < |s[n].fields|
    requires s[n].fields[i].name == "value" && FieldRefers(s[n].fields[i], t)
    ensures Refers(s, n, t)
  {
  }

  /** The type graph: map entries lead to their value type only. */
  ghost function Types(s: Schema): Edges {
    map n | n in s :: MessageRefs(s[n]) + EnumRefs(s[n])
  }

  ghost function MapEntries(s: Schema): set<string> {
    set n | n in s && s[n].isMapEntry
  }

  // The state of the walk, over the graph of types and its set of map entries

  /** A name is dealt with once it is listed or, for a map entry, its value type is. */
  ghost predicate Covered(e: Edges, entries: set<string>, seen: set<string>, n: string) {
    n in seen || (n in entries && Successors(e, n) <= seen)
  }

  /** The names are the seen types, once each, without map entries; and what a listed type
      refers to is dealt with, unless the type is still being visited. */
  ghost predicate Consistent(
      e: Edges, entries: set<string>, names: seq<string>, seen: set<string>, visiting: set<string>) {
    && (forall n :: n in names <==> n in seen)
    && Distinct(names)
    && seen !! entries
    && (forall n, t | n in seen && n !in visiting && t in Successors(e, n) :: Covered(e, entries, seen, t))
  }

  /** From before to seen, only types that the named one reaches were added. */
  ghost predicate Reached(e: Edges, name: string, before: set<string>, seen: set<string>) {
    before <= seen && forall n | n in seen && n !in before :: Reaches(e, name, n)
  }

  lemma {:induction false} CoveredGrows(e: Edges, entries: set<string>, small: set<string>, large: set<string>)
    requires small <= large
    ensures forall n | Covered(e, entries, small, n) :: Covered(e, entries, large, n)
  {
  }

  lemma {:induction false} ListOne(
      e: Edges, entries: set<string>, names: seq<string>, seen: set<string>, visiting: set<string>, name: string)
    requires Consistent(e, entries, names, seen, visiting) && name !in seen && name !in entries
    ensures Consistent(e, entries, names + [name], seen + {name}, visiting + {name})
    ensures Successors(e, name) == {} ==> Consistent(e, entries, names + [name], seen + {name}, visiting)
  {
    hide Covered;
    CoveredGrows(e, entries, seen, seen + {name});
  }

  lemma {:induction false} EndVisit(
      e: Edges, entries: set<string>, names: seq<string>, seen: set<string>, visiting: set<string>, name: string)
    requires Consistent(e, entries, names, seen, visiting + {name})
    requires forall t | t in Successors(e, name) :: Covered(e, entries, seen, t)
    ensures Consistent(e, entries, names, seen, visiting)
  {
    hide Covered;
  }

  /** What is newly seen through a reference is reached from where the reference is. */
  lemma {:induction false} ReachedThrough(
      e: Edges, name: string, ref: string, before: set<string>, known: set<string>, seen: set<string>)
    requires ref in Successors(e, name) && Reached(e, name, before, known) && Reached(e, ref, known, seen)
    ensures Reached(e, name, before, seen)
  {
    hide Reaches;
    ReachesSelf(e, name);
    ReachesStep(e, name, name, ref);
    forall n | n in seen && n !in known
      ensures Reaches(e, name, n)
    {
      ReachesTransitive(e, name, ref, n);
    }
  }

  lemma {:induction false} ReachedOne(e: Edges, name: string, before: set<string>)
    ensures Reached(e, name, before, before) && Reached(e, name, before, before + {name})
  {
    ReachesSelf(e, name);
  }

  /** Both references of a field are dealt with. */
  ghost predicate FieldCovered(e: Edges, entries: set<string>, seen: set<string>, f: Field) {
    && (f.message.Some? ==> Covered(e, entries, seen, f.message.value))
    && (f.enumeration.Some? ==> Covered(e, entries, seen, f.enumeration.value))
  }

  lemma {:induction false} FieldRefs(s: Schema, file: File, name: string, i: nat)
    requires Linked(s, file) && name in s && !s[name].isMapEntry && i < |s[name].fields|
    ensures var f := s[name].fields[i];
            && (f.message.Some? ==> f.message.value in Successors(Types(s), name) && f.message.value in s)
            && (f.enumeration.Some? ==> f.enumeration.value in Successors(Types(s), name) && f.enumeration.value !in s)
  {
    assert LinkedMessage(s, s[name]) && LinkedField(s, s[name].fields[i]);
    var f := s[name].fields[i];
    assert f.message.Some? ==> f.message.value in OptionSet(s[name].fields[i].message);
    assert f.enumeration.Some? ==> f.enumeration.value in OptionSet(s[name].fields[i].enumeration);
    if f.enumeration.Some? {
      assert f.enumeration.value in EnumRefs(s[name]);
    }
  }

  lemma {:induction false} NestedRefs(s: Schema, file: File, name: string)
    requires Linked(s, file) && name in s && !s[name].isMapEntry
    ensures forall i | 0 <= i < |s[name].messages| ::
              s[name].messages[i] in Successors(Types(s), name) && s[name].messages[i] in s
    ensures forall i | 0 <= i < |s[name].enums| ::
              s[name].enums[i] in Successors(Types(s), name) && s[name].enums[i] !in s
  {
    assert LinkedMessage(s, s[name]);
    assert forall i | 0 <= i < |s[name].enums| :: s[name].enums[i] in EnumRefs(s[name]);
  }

  lemma {:induction false} EntryRefs(s: Schema, file: File, name: string)
    requires Linked(s, file) && name in s && s[name].isMapEntry
    ensures var value := ValueField(s[name].fields);
            && Successors(Types(s), name) ==
               (if value.None? then {} else OptionSet(value.value.message) + OptionSet(value.value.enumeration))
            && (value.Some? && value.value.message.Some? ==>
                  value.value.message.value in s && !s[value.value.message.value].isMapEntry)
            && (value.Some? && value.value.enumeration.Some? ==> value.value.enumeration.value !in s)
  {
    var value := ValueField(s[name].fields);
    ValueFieldAt(s[name].fields);
    assert LinkedMessage(s, s[name]);
    if value.Some? {
      var i :| 0 <= i < |s[name].fields| && s[name].fields[i] == value.value;
      assert LinkedField(s, s[name].fields[i]);
    }
  }

  /** A message all of whose fields and nested types are dealt with has no other references. */
  lemma {:induction false} AllRefsCovered(s: Schema, entries: set<string>, name: string, seen: set<string>)
    requires name in s && !s[name].isMapEntry
    requires forall j | 0 <= j < |s[name].fields| :: FieldCovered(Types(s), entries, seen, s[name].fields[j])
    requires forall j | 0 <= j < |s[name].messages| :: Covered(Types(s), entries, seen, s[name].messages[j])
    requires forall j | 0 <= j < |s[name].enums| :: Covered(Types(s), entries, seen, s[name].enums[j])
    ensures forall t | t in Successors(Types(s), name) :: Covered(Types(s), entries, seen, t)
  {
    hide Covered;
    var m := s[name];
    forall t | t in Successors(Types(s), name)
      ensures Covered(Types(s), entries, seen, t)
    {
      if i :| 0 <= i < |m.fields| && t in OptionSet(m.fields[i].message) + OptionSet(m.fields[i].enumeration) {
        assert FieldCovered(Types(s), entries, seen, m.fields[i]);
      } else if t in MessageRefs(m) {
        var i :| 0 <= i < |m.messages| && m.messages[i] == t;
      } else {
        var i :| 0 <= i < |m.enums| && m.enums[i] == t;
      }
    }
  }

  lemma {:induction false} EnumsLeadNowhere(s: Schema, n: string)
    requires n !in s
    ensures Successors(Types(s), n) == {} && n !in MapEntries(s)
  {
  }

  class Walk {
    var seen: set<string>
    var names: seq<string>

    constructor ()
      ensures seen == {} && names == []
    {
      seen, names := {}, [];
    }

    ghost predicate Valid(s: Schema, visiting: set<string>)
      reads this
    {
      Consistent(Types(s), MapEntries(s), names, seen, visiting)
    }

    /** addEnum. */
    method AddEnum(s: Schema, name: string, ghost visiting: set<string>)
      requires name !in s && Valid(s, visiting)
      modifies this
      ensures Valid(s, visiting)
      ensures seen == old(seen) + {name}
      ensures Covered(Types(s), MapEntries(s), seen, name) && Reached(Types(s), name, old(seen), seen)
    {
      hide Consistent, Types, MapEntries, Reaches;
      EnumsLeadNowhere(s, name);
      ReachedOne(Types(s), name, seen);
      if name !in seen {
        ListOne(Types(s), MapEntries(s), names, seen, visiting, name);
        seen, names := seen + {name}, names + [name];
      }
    }

    /** addMessage. It recurses on unseen messages, and from a map entry to a message that is
        not one. */
    method AddMessage(s: Schema, file: File, name: string, ghost visiting: set<string>)
      requires Linked(s, file) && name in s && Valid(s, visiting)
      modifies this
      ensures Valid(s, visiting)
      ensures Covered(Types(s), MapEntries(s), seen, name) && Reached(Types(s), name, old(seen), seen)
      ensures Included(s, names, name)
      decreases s.Keys - seen, if s[name].isMapEntry then 1 else 0
    {
      hide Consistent, Types, Linked, Reaches, Reached, Covered, MessageRefs, EnumRefs;
      var m := s[name];
      ghost var e, entries, before := Types(s), MapEntries(s), seen;
      ReachedOne(e, name, before);
      if m.isMapEntry {
        EntryRefs(s, file, name);
        var value := ValueField(m.fields);
        if value.Some? {
          if value.value.message.Some? {
            AddMessage(s, file, value.value.message.value, visiting);
            ReachedThrough(e, name, value.value.message.value, before, before, seen);
            CoveredMessage(e, entries, seen, value.value.message.value);
          }
          ghost var known := seen;
          if value.value.enumeration.Some? {
            AddEnum(s, value.value.enumeration.value, visiting);
            ReachedThrough(e, name, value.value.enumeration.value, before, known, seen);
          }
        }
        CoveredEntry(e, entries, seen, name);
        IncludedNow(s, file, names, seen, visiting, name);
        return;
      }
      if name in seen {
        CoveredSeen(e, entries, seen, name);
        IncludedNow(s, file, names, seen, visiting, name);
        return;
      }
      ListOne(e, entries, names, seen, visiting, name);
      seen, names := seen + {name}, names + [name];
      for i := 0 to |m.fields|
        invariant Valid(s, visiting + {name}) && name in seen && before <= seen && Reached(e, name, before, seen)
        invariant forall j | 0 <= j < i :: FieldCovered(e, entries, seen, m.fields[j])
      {
        FieldRefs(s, file, name, i);
        ghost var known := seen;
        if m.fields[i].message.Some? {
          AddMessage(s, file, m.fields[i].message.value, visiting + {name});
          ReachedGrows(e, m.fields[i].message.value, known, seen);
          ReachedThrough(e, name, m.fields[i].message.value, before, known, seen);
        }
        ghost var between := seen;
        if m.fields[i].enumeration.Some? {
          AddEnum(s, m.fields[i].enumeration.value, visiting + {name});
          ReachedThrough(e, name, m.fields[i].enumeration.value, before, between, seen);
        }
        CoveredGrows(e, entries, known, seen);
        CoveredGrows(e, entries, between, seen);
      }
      NestedRefs(s, file, name);
      for i := 0 to |m.messages|
        invariant Valid(s, visiting + {name}) && name in seen && before <= seen && Reached(e, name, before, seen)
        invariant forall j | 0 <= j < |m.fields| :: FieldCovered(e, entries, seen, m.fields[j])
        invariant forall j | 0 <= j < i :: Covered(e, entries, seen, m.messages[j])
      {
        ghost var known := seen;
        AddMessage(s, file, m.messages[i], visiting + {name});
        ReachedGrows(e, m.messages[i], known, seen);
        ReachedThrough(e, name, m.messages[i], before, known, seen);
        CoveredGrows(e, entries, known, seen);
      }
      for i := 0 to |m.enums|
        invariant Valid(s, visiting + {name}) && name in seen && before <= seen && Reached(e, name, before, seen)
        invariant forall j | 0 <= j < |m.fields| :: FieldCovered(e, entries, seen, m.fields[j])
        invariant forall j | 0 <= j < |m.messages| :: Covered(e, entries, seen, m.messages[j])
        invariant forall j | 0 <= j < i :: Covered(e, entries, seen, m.enums[j])
      {
        ghost var known := seen;
        AddEnum(s, m.enums[i], visiting + {name});
        ReachedThrough(e, name, m.enums[i], before, known, seen);
        CoveredGrows(e, entries, known, seen);
      }
      AllRefsCovered(s, entries, name, seen);
      EndVisit(e, entries, names, seen, visiting, name);
      CoveredSeen(e, entries, seen, name);
      IncludedNow(s, file, names, seen, visiting, name);
    }
  }

  lemma {:induction false} IncludedNow(
      s: Schema, file: File, names: seq<string>, seen: set<string>, visiting: set<string>, n: string)
    requires Linked(s, file) && Consistent(Types(s), MapEntries(s), names, seen, visiting)
    requires Covered(Types(s), MapEntries(s), seen, n)
    ensures Included(s, names, n)
  {
    hide Linked, Types, Covered, Included;
    CoveredIsIncluded(s, file, names, seen, n);
  }

  lemma {:induction false} ReachedGrows(e: Edges, name: string, before: set<string>, seen: set<string>)
    requires Reached(e, name, before, seen)
    ensures before <= seen
  {
  }

  lemma {:induction false} CoveredSeen(e: Edges, entries: set<string>, seen: set<string>, n: string)
    requires n in seen
    ensures Covered(e, entries, seen, n)
  {
  }

  lemma {:induction false} CoveredEntry(e: Edges, entries: set<string>, seen: set<string>, n: string)
    requires n in entries && Successors(e, n) <= seen
    ensures Covered(e, entries, seen, n)
  {
  }

  lemma {:induction false} CoveredMessage(e: Edges, entries: set<string>, seen: set<string>, n: string)
    requires Covered(e, entries, seen, n) && n !in entries
    ensures n in seen
  {
  }

  ghost function Roots(file: File): set<string> {
    (set i | 0 <= i < |file.messages| :: file.messages[i]) + (set i | 0 <= i < |file.enums| :: file.enums[i])
  }

  /** The bundled names: without repetition, exactly the messages and enums that a type of the
      file leads to, map entries left out. So the file's own types, the types of all fields of
      listed messages and the types nested in those are listed, a map entry being replaced by the
      type of its value. */
  method BundledTypes(s: Schema, file: File) returns (names: seq<string>)
    requires Linked(s, file)
    ensures Distinct(names)
    ensures forall n :: n in names <==> Needed(s, file, n) && !(n in s && s[n].isMapEntry)
    ensures forall n | n in file.messages || n in file.enums :: Included(s, names, n)
    ensures forall n, t | n in names && n in s && (t in s[n].messages || t in s[n].enums) :: Included(s, names, t)
    ensures forall n, i, t | n in names && n in s && 0 <= i < |s[n].fields| && FieldRefers(s[n].fields[i], t) ::
              Included(s, names, t)
  {
    hide Types, MapEntries, Reaches, ReachedFrom, Reached, Covered, Consistent, Linked, Needed, Included, FieldRefers;
    var walk := new Walk();
    StartsConsistent(Types(s), MapEntries(s));
    RootsResolve(s, file);
    ghost var e, entries := Types(s), MapEntries(s);
    for i := 0 to |file.messages|
      invariant walk.Valid(s, {}) && fresh(walk)
      invariant forall n | n in walk.seen :: ReachedFrom(e, Roots(file), n)
      invariant forall j | 0 <= j < i :: Covered(e, entries, walk.seen, file.messages[j])
    {
      ghost var known := walk.seen;
      walk.AddMessage(s, file, file.messages[i], {});
      FromRoot(e, Roots(file), file.messages[i], known, walk.seen);
      CoveredGrows(e, entries, known, walk.seen);
    }
    for i := 0 to |file.enums|
      invariant walk.Valid(s, {}) && fresh(walk)
      invariant forall n | n in walk.seen :: ReachedFrom(e, Roots(file), n)
      invariant forall j | 0 <= j < |file.messages| :: Covered(e, entries, walk.seen, file.messages[j])
      invariant forall j | 0 <= j < i :: Covered(e, entries, walk.seen, file.enums[j])
    {
      ghost var known := walk.seen;
      walk.AddEnum(s, file.enums[i], {});
      FromRoot(e, Roots(file), file.enums[i], known, walk.seen);
      CoveredGrows(e, entries, known, walk.seen);
    }
    names := walk.names;
    ListedIsReachable(e, entries, Roots(file), names, walk.seen);
    ListedIsNeeded(s, file, names);
    RootsIncluded(s, file, names, walk.seen);
    RefsIncluded(s, file, names, walk.seen);
  }

  lemma {:induction false} ListedIsNeeded(s: Schema, file: File, names: seq<string>)
    requires Linked(s, file)
    requires forall n :: n in names <==> ReachedFrom(Types(s), Roots(file), n) && n !in MapEntries(s)
    ensures forall n :: n in names <==> Needed(s, file, n) && !(n in s && s[n].isMapEntry)
  {
    hide Linked, Types, Reaches, LeadsTo;
    forall n
      ensures ReachedFrom(Types(s), Roots(file), n) <==> Needed(s, file, n)
    {
      forall root
        ensures Reaches(Types(s), root, n) <==> LeadsTo(s, root, n)
      {
        ReachesIsLeadsTo(s, file, root, n);
      }
      assert forall root :: root in Roots(file) <==> root in file.messages || root in file.enums;
    }
  }

  lemma {:induction false} RootsIncluded(s: Schema, file: File, names: seq<string>, seen: set<string>)
    requires Linked(s, file) && Consistent(Types(s), MapEntries(s), names, seen, {})
    requires forall i | 0 <= i < |file.messages| :: Covered(Types(s), MapEntries(s), seen, file.messages[i])
    requires forall i | 0 <= i < |file.enums| :: Covered(Types(s), MapEntries(s), seen, file.enums[i])
    ensures forall n | n in file.messages || n in file.enums :: Included(s, names, n)
  {
    hide Linked, Types, Consistent, Covered, Included;
    forall n | n in file.messages || n in file.enums
      ensures Included(s, names, n)
    {
      assert Covered(Types(s), MapEntries(s), seen, n);
      IncludedNow(s, file, names, seen, {}, n);
    }
  }

  lemma {:induction false} RefsIncluded(s: Schema, file: File, names: seq<string>, seen: set<string>)
    requires Linked(s, file) && Consistent(Types(s), MapEntries(s), names, seen, {})
    ensures forall n, t | n in names && n in s && (t in s[n].messages || t in s[n].enums) :: Included(s, names, t)
    ensures forall n, i, t | n in names && n in s && 0 <= i < |s[n].fields| && FieldRefers(s[n].fields[i], t) ::
              Included(s, names, t)
  {
    hide Linked, Types, Covered, Included, FieldRefers;
    forall n, t | n in names && Refers(s, n, t)
      ensures Included(s, names, t)
    {
      EdgesAreReferences(s, file, n, t);
      IncludedNow(s, file, names, seen, {}, t);
    }
    forall n, i, t | n in names && n in s && 0 <= i < |s[n].fields| && FieldRefers(s[n].fields[i], t)
      ensures Included(s, names, t)
    {
      assert n !in MapEntries(s);
      assert Refers(s, n, t);
    }
    forall n, t | n in names && n in s && (t in s[n].messages || t in s[n].enums)
      ensures Included(s, names, t)
    {
      assert n !in MapEntries(s);
      assert Refers(s, n, t);
    }
  }

  lemma {:induction false} StartsConsistent(e: Edges, entries: set<string>)
    ensures Consistent(e, entries, [], {}, {})
  {
  }

  lemma {:induction false} RootsResolve(s: Schema, file: File)
    requires Linked(s, file)
    ensures forall i | 0 <= i < |file.messages| :: file.messages[i] in s && file.messages[i] in Roots(file)
    ensures forall i | 0 <= i < |file.enums| :: file.enums[i] !in s && file.enums[i] in Roots(file)
  {
  }

  /** When nothing is being visited any more and the roots are dealt with, the names are exactly
      the reachable types other than map entries. */
  lemma {:induction false} ListedIsReachable(
      e: Edges, entries: set<string>, roots: set<string>, names: seq<string>, seen: set<string>)
    requires Consistent(e, entries, names, seen, {})
    requires forall n | n in seen :: ReachedFrom(e, roots, n)
    requires forall r | r in roots :: Covered(e, entries, seen, r)
    ensures Distinct(names)
    ensures forall n :: n in names <==> ReachedFrom(e, roots, n) && n !in entries
  {
    hide Covered, Reaches;
    forall n | ReachedFrom(e, roots, n) && n !in entries
      ensures n in names
    {
      var r :| r in roots && Reaches(e, r, n);
      CoveredHoldsReachable(e, entries, seen, r, n);
      CoveredMessage(e, entries, seen, n);
    }
  }

  lemma {:induction false} FromRoot(e: Edges, roots: set<string>, root: string, known: set<string>, seen: set<string>)
    requires root in roots && Reached(e, root, known, seen)
    requires forall n | n in known :: ReachedFrom(e, roots, n)
    ensures known <= seen && forall n | n in seen :: ReachedFrom(e, roots, n)
  {
    hide Reaches;
  }

  /** Once everything listed has its references dealt with, so has everything reachable. */
  lemma {:induction false} CoveredHoldsReachable(
      e: Edges, entries: set<string>, seen: set<string>, a: string, b: string)
    requires Covered(e, entries, seen, a) && Reaches(e, a, b)
    requires forall n, t | n in seen && t in Successors(e, n) :: Covered(e, entries, seen, t)
    ensures Covered(e, entries, seen, b)
  {
    hide Reaches;
    var covered := seen + set n | n in entries && Covered(e, entries, seen, n);
    forall n, t | n in covered && t in Successors(e, n)
      ensures t in covered
    {
      if n in seen {
        assert Covered(e, entries, seen, t);
      } else {
        assert Covered(e, entries, seen, n);
        assert t in seen;
      }
    }
    ClosedSetHoldsReachable(e, covered, a, b);
  }
}
