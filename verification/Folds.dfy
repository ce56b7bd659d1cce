/** Maps overwritten by a sequence of deltas: what decides each key, and when two sequences come to
    the same map. */
module Folds {
  import opened Wrappers

  /** A map overwritten by each delta in turn. */
  function Fold<V>(initial: map<string, V>, deltas: seq<map<string, V>>): map<string, V> {
    if deltas == [] then initial
    else Fold(initial, deltas[..|deltas| - 1]) + deltas[|deltas| - 1]
  }

  /** What the last delta that sets a key sets it to. */
  function LastSet<V>(deltas: seq<map<string, V>>, name: string): Option<V> {
    if deltas == [] then None
    else
      var last := deltas[|deltas| - 1];
      if name in last then Some(last[name]) else LastSet(deltas[..|deltas| - 1], name)
  }

  /** A key ends up as its last delta left it, or as it was. */
  function Settled<V>(initial: map<string, V>, deltas: seq<map<string, V>>, name: string): Option<V> {
    if LastSet(deltas, name).Some? then LastSet(deltas, name) else Row(initial, name)
  }

  lemma {:induction false} FoldAt<V>(initial: map<string, V>, deltas: seq<map<string, V>>, name: string)
    ensures Row(Fold(initial, deltas), name) == Settled(initial, deltas, name)
  {
    if deltas == [] {
    } else {
      FoldAt(initial, deltas[..|deltas| - 1], name);
    }
  }

  /** Two sequences of deltas make the same map of one exactly when they settle every key alike. */
  lemma {:induction false} SameFold<V>(initial: map<string, V>, a: seq<map<string, V>>, b: seq<map<string, V>>)
    ensures Fold(initial, a) == Fold(initial, b) <==>
            forall name :: Settled(initial, a, name) == Settled(initial, b, name)
  {
    hide Fold, Settled;
    var x, y := Fold(initial, a), Fold(initial, b);
    forall name
      ensures Row(x, name) == Settled(initial, a, name)
      ensures Row(y, name) == Settled(initial, b, name)
    {
      FoldAt(initial, a, name);
      FoldAt(initial, b, name);
    }
    if forall name :: Settled(initial, a, name) == Settled(initial, b, name) {
      forall name
        ensures name in x <==> name in y
        ensures name in x ==> x[name] == y[name]
      {
        assert Settled(initial, a, name) == Settled(initial, b, name);
        assert Row(x, name) == Row(y, name);
      }
    }
  }

  /** Deltas change nothing exactly when each key they set was last set to what it was. */
  lemma {:induction false} FoldChangesNothing<V>(initial: map<string, V>, deltas: seq<map<string, V>>)
    ensures Fold(initial, deltas) == initial <==>
            forall name | LastSet(deltas, name).Some? :: LastSet(deltas, name) == Row(initial, name)
  {
    hide Fold, LastSet;
    SameFold(initial, deltas, []);
    assert Fold(initial, []) == initial by { FoldOfNothing(initial); }
    forall name
      ensures Settled(initial, [], name) == Row(initial, name)
      ensures Settled(initial, deltas, name) == Settled(initial, [], name) <==>
              (LastSet(deltas, name).Some? ==> LastSet(deltas, name) == Row(initial, name))
    {
      NeverSet<V>(name);
    }
  }

  lemma {:induction false} FoldOfNothing<V>(initial: map<string, V>)
    ensures Fold(initial, []) == initial
  {
  }

  lemma {:induction false} NeverSet<V>(name: string)
    ensures LastSet<V>([], name) == None
  {
  }

  /** Two sequences of the same deltas, in whatever order, come to the same map exactly when the
      last delta to set a key says the same in both. */
  lemma {:induction false} SameDeltasFold<V>(initial: map<string, V>, a: seq<map<string, V>>, b: seq<map<string, V>>)
    requires forall d :: d in a <==> d in b
    ensures Fold(initial, a) == Fold(initial, b) <==> forall name :: LastSet(a, name) == LastSet(b, name)
  {
    hide Fold, LastSet, Settled;
    SameFold(initial, a, b);
    forall name
      ensures Settled(initial, a, name) == Settled(initial, b, name) <==> LastSet(a, name) == LastSet(b, name)
    {
      SettledAlike(initial, a, b, name);
    }
    if forall name :: Settled(initial, a, name) == Settled(initial, b, name) {
      forall name
        ensures LastSet(a, name) == LastSet(b, name)
      {
        assert Settled(initial, a, name) == Settled(initial, b, name);
      }
    } else {
      var name :| Settled(initial, a, name) != Settled(initial, b, name);
      assert LastSet(a, name) != LastSet(b, name);
    }
  }

  lemma {:induction false} SettledAlike<V>(
      initial: map<string, V>, a: seq<map<string, V>>, b: seq<map<string, V>>, name: string)
    requires forall d :: d in a <==> d in b
    ensures Settled(initial, a, name) == Settled(initial, b, name) <==> LastSet(a, name) == LastSet(b, name)
  {
    hide Fold, LastSet;
    SetBySome(a, name);
    SetBySome(b, name);
  }

  lemma {:induction false} SetBySome<V>(deltas: seq<map<string, V>>, name: string)
    ensures LastSet(deltas, name).Some? <==> exists d :: d in deltas && name in d
  {
    if deltas == [] {
    } else {
      var init, last := deltas[..|deltas| - 1], deltas[|deltas| - 1];
      SetBySome(init, name);
      assert deltas == init + [last];
      assert forall d :: d in deltas <==> d in init || d == last;
    }
  }

  lemma {:induction false} FoldOfOneMore<V>(initial: map<string, V>, deltas: seq<map<string, V>>, last: map<string, V>)
    ensures Fold(initial, deltas + [last]) == Fold(initial, deltas) + last
  {
    assert (deltas + [last])[..|deltas|] == deltas;
  }

  lemma {:induction false} FoldOfBoth<V>(initial: map<string, V>, a: seq<map<string, V>>, b: seq<map<string, V>>)
    ensures Fold(initial, a + b) == Fold(Fold(initial, a), b)
  {
    if b == [] {
      assert a + b == a;
    } else {
      assert (a + b)[..|a + b| - 1] == a + b[..|b| - 1];
      FoldOfBoth(initial, a, b[..|b| - 1]);
    }
  }
}
