/** Reachability in a finite directed graph of named nodes. */
module Graphs {

  /** The successors of each node; a node without an entry has none. */
  type Edges = map<string, set<string>>

  function Successors(e: Edges, n: string): set<string> {
    if n in e then e[n] else {}
  }

  ghost predicate IsPath(e: Edges, p: seq<string>) {
    p != [] && forall i | 0 <= i < |p| - 1 :: p[i + 1] in Successors(e, p[i])
  }

  ghost predicate Reaches(e: Edges, a: string, b: string) {
    exists p :: IsPath(e, p) && p[0] == a && p[|p| - 1] == b
  }

  ghost predicate ReachedFrom(e: Edges, roots: set<string>, n: string) {
    exists r :: r in roots && Reaches(e, r, n)
  }

  lemma {:induction false} ReachesSelf(e: Edges, a: string)
    ensures Reaches(e, a, a)
  {
    assert IsPath(e, [a]);
  }

  lemma {:induction false} ReachesTransitive(e: Edges, a: string, b: string, c: string)
    requires Reaches(e, a, b) && Reaches(e, b, c)
    ensures Reaches(e, a, c)
  {
    var p :| IsPath(e, p) && p[0] == a && p[|p| - 1] == b;
    var q :| IsPath(e, q) && q[0] == b && q[|q| - 1] == c;
    var path := p + q[1..];
    forall i | 0 <= i < |path| - 1
      ensures path[i + 1] in Successors(e, path[i])
    {
      if i >= |p| - 1 {
        assert path[i] == q[i - (|p| - 1)] && path[i + 1] == q[i + 1 - (|p| - 1)];
      }
    }
    assert path[|path| - 1] == c;
    assert IsPath(e, path);
  }

  lemma {:induction false} ReachesStep(e: Edges, a: string, b: string, c: string)
    requires Reaches(e, a, b) && c in Successors(e, b)
    ensures Reaches(e, a, c)
  {
    assert IsPath(e, [b, c]);
    ReachesTransitive(e, a, b, c);
  }

  /** A set that holds a node and is closed under successors holds all the node reaches. */
  lemma {:induction false} ClosedSetHoldsReachable(e: Edges, closed: set<string>, a: string, b: string)
    requires a in closed && Reaches(e, a, b)
    requires forall n | n in closed :: Successors(e, n) <= closed
    ensures b in closed
  {
    var p :| IsPath(e, p) && p[0] == a && p[|p| - 1] == b;
    PathStaysInside(e, closed, p, |p| - 1);
  }

  lemma {:induction false} PathStaysInside(e: Edges, closed: set<string>, p: seq<string>, i: nat)
    requires IsPath(e, p) && i < |p| && p[0] in closed
    requires forall n | n in closed :: Successors(e, n) <= closed
    ensures p[i] in closed
  {
    if i == 0 {
    } else {
      PathStaysInside(e, closed, p, i - 1);
    }
  }
}
