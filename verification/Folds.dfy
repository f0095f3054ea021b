/** The pressure at the end of a walk, told by arithmetic alone: which walks are admitted, and the fold of attenuations
    and gains along them that every settlement turns out to be. */
module Folds {
  import opened Records
  import opened Traversal
  import opened Paths
  import opened Verdicts

  /** Pressure along a walk: scaled by each attenuation in turn, and by each amplification, rounding down. */
  function Fold(c: Context, w: seq<nat>): nat {
    if w == [] then c.signal.magnitude * 0x1_0000
    else
      var p, ei := Fold(c, w[..|w| - 1]), w[|w| - 1];
      if ei < |c.topo.edges| then Raised(p, c.topo.edges[ei]) else p
  }

  function GainFold(c: Context, w: seq<nat>): nat {
    if w == [] then 0x1_0000
    else
      var g, ei := GainFold(c, w[..|w| - 1]), w[|w| - 1];
      if ei < |c.topo.edges| then RaisedGain(g, c.topo.edges[ei]) else g
  }

  /** Attenuations alone. */
  function FadedFold(c: Context, w: seq<nat>): nat {
    if w == [] then c.signal.magnitude * 0x1_0000
    else
      var p, ei := FadedFold(c, w[..|w| - 1]), w[|w| - 1];
      if ei < |c.topo.edges| then p * c.topo.edges[ei].attenuation / 0x1_0000 else p
  }

  /** Reasons that speak against an edge whatever has settled and however many hops and expansions are left. */
  predicate Lasting(r: Reason) { r !in {MAX_FANOUT, EXPANSION_BUDGET, NODE_ALREADY_SETTLED, MAX_HOPS} }

  /** An edge admits the pressure exactly when it leaves an open resource and no lasting reason applies. */
  lemma HoppedExact(c: Context, x: Entry, ei: nat)
    ensures Hopped(c, x, ei).Some? <==>
              && x.node < |c.topo.resources| && Forwarding(c.topo.resources[x.node])
              && !NoExit(c, c.topo.resources[x.node].id)
              && ei < |c.topo.edges| && ei in c.topo.Outs(x.node)
              && forall r: Reason :: Lasting(r) ==> !Blocks(c, {}, x, 0, 0, ei, r)
    ensures Hopped(c, x, ei).Some? ==>
              var y, edge := Hopped(c, x, ei).value, c.topo.edges[ei];
              && y.potential == Raised(x.potential, edge) && y.gain == RaisedGain(x.gain, edge)
              && y.depth == x.depth + 1 && y.node == c.topo.IndexOf(edge.target) && y.link == Via(x.node, ei)
  {
    if x.node < |c.topo.resources| { FencedMeans(c, c.topo.resources[x.node].id); }
    if ei < |c.topo.edges| {
      CrossMeans(c, x, ei);
      FencedMeans(c, c.topo.edges[ei].target);
      if Hopped(c, x, ei).None? && Passable(c, x.node) && ei in c.topo.Outs(x.node) { var r := BlockOf(c, x, ei); }
    }
  }

  /** The lasting reason behind a refused edge. */
  lemma BlockOf(c: Context, x: Entry, ei: nat) returns (r: Reason)
    requires ei < |c.topo.edges| && Passable(c, x.node) && ei in c.topo.Outs(x.node) && Hopped(c, x, ei).None?
    ensures Lasting(r) && Blocks(c, {}, x, 0, 0, ei, r)
  {
    CrossMeans(c, x, ei);
    FencedMeans(c, c.topo.edges[ei].target);
    r := if c.Barred(ei).Some? then c.Barred(ei).value
         else if c.Forbidden(ei).Some? then c.Forbidden(ei).value
         else c.Cross(ei, x.potential, x.gain, x.amplified).reason;
  }

  /** The entry at the end of an admitted walk is its fold. */
  lemma {:induction false} WalkFolds(c: Context, w: seq<nat>)
    requires Walk(c, w).Some?
    ensures var x := Walk(c, w).value;
            x.potential == Fold(c, w) && x.gain == GainFold(c, w) && x.depth == |w|
    ensures !MayAmplify(c) ==> Fold(c, w) == FadedFold(c, w)
  {
    if w != [] {
      var front, ei := w[..|w| - 1], w[|w| - 1];
      WalkFolds(c, front);
      HoppedExact(c, Walk(c, front).value, ei);
      assert !Blocks(c, {}, Walk(c, front).value, 0, 0, ei, AMPLIFICATION_NOT_AUTHORIZED);
    }
  }

  /** Every settlement of every run is the fold along its recorded walk; without granted amplification, of the
      attenuations alone. */
  lemma SettlementsAreFolds(c: Context, run: seq<State>, k: nat)
    requires IsRun(c, run) && k < |Final(run).order|
    ensures var e, w := Final(run).order[k], PathTo(Final(run).order, k);
            && e.potential == Fold(c, w) && e.gain == GainFold(c, w) && e.depth == |w|
            && (!MayAmplify(c) ==> e.potential == FadedFold(c, w))
  {
    RunPathReconstructs(c, run, k);
    WalkFolds(c, PathTo(Final(run).order, k));
  }
}
