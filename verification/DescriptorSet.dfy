/** DescriptorSet: the files a proto file needs, imports first (spannertest.go). */
module DescriptorSet {
  import opened Wrappers
  import opened Graphs

  /** The registry: each file's imports, in order. */
  type Registry = map<string, seq<string>>

  /** A registered file's imports are registered. */
  ghost predicate Complete(g: Registry) {
    forall f | f in g :: forall i | 0 <= i < |g[f]| :: g[f][i] in g
  }

  ghost function Imports(g: Registry): Edges {
    map f | f in g :: set i | 0 <= i < |g[f]| :: g[f][i]
  }

  /** No file reaches itself through one of its imports. */
  ghost predicate Acyclic(g: Registry) {
    forall f, w | f in g && w in Successors(Imports(g), f) :: !Reaches(Imports(g), w, f)
  }

  /** Every import of a listed file is listed before it, unless it imports the file back. */
  ghost predicate Placed(g: Registry, files: seq<string>) {
    forall i, w | 0 <= i < |files| && w in Successors(Imports(g), files[i]) ::
      w in files[..i] || Reaches(Imports(g), w, files[i])
  }

  class Walk {
    var seen: set<string>
    var files: seq<string>

    constructor ()
      ensures seen == {} && files == []
    {
      seen, files := {}, [];
    }

    /** Between calls: the listed files are the seen ones that are not being visited, once each,
        and well placed. */
    ghost predicate Valid(g: Registry, visiting: set<string>)
      reads this
    {
      && seen <= g.Keys && visiting <= seen
      && (forall f :: f in files <==> f in seen && f !in visiting)
      && Distinct(files)
      && Placed(g, files)
      && (forall f | f in files :: Successors(Imports(g), f) <= seen)
    }

    /** Lists a file after its imports. The files being visited all lead to it. */
    method Add(g: Registry, f: string, ghost visiting: set<string>)
      requires Complete(g) && f in g && Valid(g, visiting)
      requires forall v | v in visiting :: Reaches(Imports(g), v, f)
      modifies this
      ensures Valid(g, visiting)
      ensures old(seen) <= seen && f in seen && old(files) <= files
      ensures forall v | v in seen && v !in old(seen) :: Reaches(Imports(g), f, v)
      decreases g.Keys - seen
    {
      ghost var e := Imports(g);
      ReachesSelf(e, f);
      if f in seen {
        return;
      }
      ghost var before := seen;
      seen := seen + {f};
      for i := 0 to |g[f]|
        invariant Valid(g, visiting + {f})
        invariant before + {f} <= seen && old(files) <= files
        invariant forall v | v in seen && v !in before :: Reaches(e, f, v)
        invariant forall j | 0 <= j < i :: g[f][j] in seen
      {
        var w := g[f][i];
        forall v | v in visiting + {f}
          ensures Reaches(e, v, w)
        {
          ReachesStep(e, v, f, w);
        }
        ghost var known := seen;
        Add(g, w, visiting + {f});
        forall v | v in seen && v !in known
          ensures Reaches(e, f, v)
        {
          ReachesTransitive(e, f, w, v);
        }
      }
      PlaceLast(g, files, f, visiting, seen);
      files := files + [f];
    }
  }

  /** A file may be listed once all its imports are listed or lead back to it. */
  lemma {:induction false} PlaceLast(
      g: Registry, files: seq<string>, f: string, visiting: set<string>, seen: set<string>)
    requires Placed(g, files) && f in g && Successors(Imports(g), f) <= seen
    requires forall v | v in seen :: v in files || v in visiting || v == f
    requires forall v | v in visiting :: Reaches(Imports(g), v, f)
    ensures Placed(g, files + [f])
  {
    var more := files + [f];
    ReachesSelf(Imports(g), f);
    forall i, w | 0 <= i < |more| && w in Successors(Imports(g), more[i])
      ensures w in more[..i] || Reaches(Imports(g), w, more[i])
    {
      if i < |files| {
        assert more[i] == files[i] && more[..i] == files[..i];
      } else {
        assert more[..i] == files;
      }
    }
  }

  /** The files of the descriptor set, or None when the root file is not registered: each file
      the root imports, directly or not, exactly once, nothing else, and every import before
      the files that need it as far as no import cycle makes that impossible. */
  method FilesOf(g: Registry, root: string) returns (r: Option<seq<string>>)
    requires Complete(g)
    ensures r.None? <==> root !in g
    ensures r.Some? ==> Distinct(r.value)
    ensures r.Some? ==> forall f :: f in r.value <==> Reaches(Imports(g), root, f)
    ensures r.Some? ==> Placed(g, r.value)
    ensures r.Some? && Acyclic(g) ==> ImportsFirst(g, r.value)
  {
    if root !in g {
      return None;
    }
    var walk := new Walk();
    assert walk.Valid(g, {});
    walk.Add(g, root, {});
    forall f | Reaches(Imports(g), root, f)
      ensures f in walk.files
    {
      assert forall n | n in walk.seen :: n in walk.files;
      ClosedSetHoldsReachable(Imports(g), walk.seen, root, f);
    }
    if Acyclic(g) {
      PlacedIsSorted(g, walk.files);
    }
    return Some(walk.files);
  }

  /** The list is in dependency order. */
  ghost predicate ImportsFirst(g: Registry, files: seq<string>) {
    forall i, w | 0 <= i < |files| && w in Successors(Imports(g), files[i]) :: w in files[..i]
  }

  /** Without import cycles, well placed means sorted by dependency. */
  lemma {:induction false} PlacedIsSorted(g: Registry, files: seq<string>)
    requires Placed(g, files) && Acyclic(g)
    ensures ImportsFirst(g, files)
  {
    forall i, w | 0 <= i < |files| && w in Successors(Imports(g), files[i])
      ensures w in files[..i]
    {
      assert files[i] in g;
    }
  }

  /** With a cycle no list at all has every import first, so the exemption is needed. */
  lemma {:induction false} CyclesCannotBeSorted(g: Registry, files: seq<string>, f: string, w: string)
    requires Distinct(files) && f in files && w in Successors(Imports(g), f) && Reaches(Imports(g), w, f)
    ensures !ImportsFirst(g, files)
  {
    if ImportsFirst(g, files) {
      var i :| 0 <= i < |files| && files[i] == f;
      var before := set j | 0 <= j < i :: files[j];
      assert w in before;
      forall n | n in before
        ensures Successors(Imports(g), n) <= before
      {
        var j :| 0 <= j < i && files[j] == n;
        forall x | x in Successors(Imports(g), n)
          ensures x in before
        {
          assert x in files[..j];
        }
      }
      ClosedSetHoldsReachable(Imports(g), before, w, f);
      assert false;
    }
  }
}
