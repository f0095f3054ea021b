/** Directed reachability over adjacency lists. */
module Reachability {
  /** Row v lists the targets of the edges leaving v. */
  type Adjacency = seq<seq<nat>>

  ghost predicate WellFormed(g: Adjacency) {
    forall v, j :: 0 <= v < |g| && 0 <= j < |g[v]| ==> g[v][j] < |g|
  }

  ghost predicate IsPath(g: Adjacency, p: seq<nat>) {
    && p != []
    && (forall i :: 0 <= i < |p| ==> p[i] < |g|)
    && (forall i :: 0 <= i < |p| - 1 ==> p[i + 1] in g[p[i]])
  }

  ghost predicate Connects(g: Adjacency, p: seq<nat>, a: nat, b: nat) {
    IsPath(g, p) && p[0] == a && p[|p| - 1] == b
  }

  ghost predicate Reach(g: Adjacency, a: nat, b: nat) {
    exists p :: Connects(g, p, a, b)
  }

  /** Some path of at least one edge leads from v back to v. */
  ghost predicate OnCycle(g: Adjacency, v: nat) {
    exists p :: |p| > 1 && Connects(g, p, v, v)
  }

  /** The strongly connected component of v. */
  ghost function Class(g: Adjacency, v: nat): set<nat> {
    set w | 0 <= w < |g| && Reach(g, v, w) && Reach(g, w, v)
  }

  ghost function CyclicClasses(g: Adjacency): set<set<nat>> {
    set v | 0 <= v < |g| && OnCycle(g, v) :: Class(g, v)
  }

  lemma ReachSelf(g: Adjacency, v: nat)
    requires v < |g|
    ensures Reach(g, v, v)
  {
    assert Connects(g, [v], v, v);
  }

  lemma ReachEdge(g: Adjacency, a: nat, b: nat)
    requires a < |g| && b < |g| && b in g[a]
    ensures Reach(g, a, b)
  {
    assert Connects(g, [a, b], a, b);
  }

  lemma JoinPaths(g: Adjacency, p: seq<nat>, q: seq<nat>, a: nat, b: nat, c: nat)
    requires Connects(g, p, a, b) && Connects(g, q, b, c)
    ensures Connects(g, p + q[1..], a, c)
  {
    var r := p + q[1..];
    forall i | 0 <= i < |r| - 1 ensures r[i + 1] in g[r[i]] {
      if i >= |p| - 1 {
        assert r[i] == q[i - (|p| - 1)] && r[i + 1] == q[i + 1 - (|p| - 1)];
      }
    }
  }

  lemma ReachTrans(g: Adjacency, a: nat, b: nat, c: nat)
    requires Reach(g, a, b) && Reach(g, b, c)
    ensures Reach(g, a, c)
  {
    var p :| Connects(g, p, a, b);
    var q :| Connects(g, q, b, c);
    JoinPaths(g, p, q, a, b, c);
  }

  /** Nothing leaves a closed set. */
  lemma {:induction false} ClosedKeeps(g: Adjacency, s: set<nat>, p: seq<nat>)
    requires IsPath(g, p) && p[0] in s
    requires forall v, w :: v in s && v < |g| && w in g[v] ==> w in s
    ensures p[|p| - 1] in s
    decreases |p|
  {
    if |p| > 1 {
      assert p[1] in g[p[0]];
      ClosedKeeps(g, s, p[1..]);
    }
  }

  lemma ClosedReach(g: Adjacency, s: set<nat>, a: nat, b: nat)
    requires a in s && Reach(g, a, b)
    requires forall v, w :: v in s && v < |g| && w in g[v] ==> w in s
    ensures b in s
  {
    var p :| Connects(g, p, a, b);
    ClosedKeeps(g, s, p);
  }

  /** Members of one component have the same component. */
  lemma SameClass(g: Adjacency, a: nat, b: nat)
    requires a < |g| && b in Class(g, a)
    ensures Class(g, a) == Class(g, b)
  {
    forall w | 0 <= w < |g| ensures w in Class(g, a) <==> w in Class(g, b) {
      if w in Class(g, a) {
        ReachTrans(g, b, a, w);
        ReachTrans(g, w, a, b);
      }
      if w in Class(g, b) {
        ReachTrans(g, a, b, w);
        ReachTrans(g, w, b, a);
      }
    }
  }

  /** A vertex is on a cycle exactly when its component has another member or it has a self-loop. */
  lemma CycleMeansClass(g: Adjacency, v: nat)
    requires v < |g|
    ensures OnCycle(g, v) <==> v in g[v] || exists w :: w in Class(g, v) && w != v
  {
    if OnCycle(g, v) {
      var p :| |p| > 1 && Connects(g, p, v, v);
      var w := p[1];
      assert w in g[v];
      ReachEdge(g, v, w);
      assert Connects(g, p[1..], w, v);
      assert w in Class(g, v);
    }
    if v in g[v] {
      assert Connects(g, [v, v], v, v);
    } else if exists w :: w in Class(g, v) && w != v {
      var w :| w in Class(g, v) && w != v;
      var p :| Connects(g, p, v, w);
      var q :| Connects(g, q, w, v);
      JoinPaths(g, p, q, v, w, v);
      assert |p + q[1..]| > 1;
    }
  }
}
