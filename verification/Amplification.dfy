/** Bounds on authorised amplification along every walk. */
module Amplification {
  import opened FixedPoint
  import opened Traversal
  import opened RunBounds
  import opened Paths

  // ----- gain along a walk

  /** Number of amplifying edges on a walk. */
  function Amplifying(c: Context, w: seq<nat>): (n: nat)
    ensures n <= |w|
  {
    if w == [] then 0
    else
      var e := w[|w| - 1];
      Amplifying(c, w[..|w| - 1]) + (if e < |c.topo.edges| && c.topo.edges[e].IsAmplifying() then 1 else 0)
  }

  /** Seed times tracked gain covers the potential, up to one part in 65536 per amplifying hop. */
  predicate Covered(seed: nat, potential: nat, gain: nat, n: nat) {
    UNITY <= gain && (n < UNITY ==> potential * (UNITY - n) <= seed * gain)
  }

  /** Truncation costs the tracked gain less than one unit, which one more unit of slack absorbs. */
  lemma RaiseCovered(seed: nat, p: nat, p': nat, gain: nat, gain': nat, amp: Gain, n: nat)
    requires Covered(seed, p, gain, n) && n + 1 < UNITY
    requires p' * UNITY <= p * amp && gain' == gain * amp / UNITY && UNITY <= gain'
    ensures p' * (UNITY - n - 1) <= seed * gain'
  {
    var k := UNITY - n;
    if p' <= seed {
      MulMonotone(p', seed, k - 1);
      MulMonotone(k - 1, gain', seed);
    } else {
      // p' * k * UNITY <= p * amp * k <= seed * gain * amp < seed * (gain' + 1) * UNITY
      MulMonotone(p' * UNITY, p * amp, k);
      MulMonotone(p * k, seed * gain, amp);
      assert gain * amp < (gain' + 1) * UNITY;
      Chain(seed, p, p', gain, gain', amp, k);
    }
  }

  lemma Chain(seed: nat, p: nat, p': nat, gain: nat, gain': nat, amp: nat, k: nat)
    requires p' * UNITY * k <= p * amp * k && p * k * amp <= seed * gain * amp && gain * amp < (gain' + 1) * UNITY
    requires seed <= p' && k > 0
    ensures p' * (k - 1) <= seed * gain'
  {
    assert p * amp * k == p * k * amp;
    MulMonotone(gain * amp, (gain' + 1) * UNITY, seed);
    assert seed * gain * amp == gain * amp * seed;
    Unscale(p' * k, p' * UNITY * k, seed * (gain' + 1), (gain' + 1) * UNITY * seed);
    assert p' * k == p' * (k - 1) + p';
    assert seed * (gain' + 1) == seed * gain' + seed;
  }

  lemma Unscale(a: nat, scaledA: nat, b: nat, scaledB: nat)
    requires scaledA == a * UNITY && scaledB == b * UNITY && scaledA <= scaledB
    ensures a <= b
  {
  }

  lemma FallCovered(seed: nat, p: nat, p': nat, gain: nat, n: nat)
    requires Covered(seed, p, gain, n) && p' <= p
    ensures Covered(seed, p', gain, n)
  {
    if n < UNITY { MulMonotone(p', p, UNITY - n); }
  }

  lemma HopCovered(c: Context, x: Entry, ei: nat, n: nat)
    requires Covered(c.Seed(), x.potential, x.gain, n) && Hopped(c, x, ei).Some?
    ensures var y := Hopped(c, x, ei).value;
            Covered(c.Seed(), y.potential, y.gain, if c.topo.edges[ei].IsAmplifying() then n + 1 else n)
  {
    var edge := c.topo.edges[ei];
    var next := Attenuated(x.potential, edge.attenuation);
    var y := Hopped(c, x, ei).value;
    FallCovered(c.Seed(), x.potential, next, x.gain, n);
    if edge.IsAmplifying() {
      AmplifiedBounds(next, edge.amplification);
      MulMonotone(UNITY, edge.amplification, x.gain);
      if n + 1 < UNITY { RaiseCovered(c.Seed(), next, y.potential, x.gain, y.gain, edge.amplification, n); }
    }
  }

  /** Along any admitted walk the tracked gain stays within the grant and covers the potential. */
  lemma {:induction false} WalkGain(c: Context, w: seq<nat>)
    requires Walk(c, w).Some?
    ensures Walk(c, w).value.gain <= c.GrantedGain()
    ensures Covered(c.Seed(), Walk(c, w).value.potential, Walk(c, w).value.gain, Amplifying(c, w))
  {
    if w != [] {
      WalkGain(c, w[..|w| - 1]);
      HopCovered(c, Walk(c, w[..|w| - 1]).value, w[|w| - 1], Amplifying(c, w[..|w| - 1]));
    }
  }

  /** Authorised amplification is bounded: for every settled resource the tracked gain is within both
      grants, and seed times tracked gain covers the potential up to one part in 65536 per amplifying hop. */
  lemma AmplificationBounded(c: Context, run: seq<State>, k: nat)
    requires IsRun(c, run) && k < |Final(run).order|
    ensures var e := Final(run).order[k];
            var n := Amplifying(c, PathTo(Final(run).order, k));
            e.gain <= c.GrantedGain() && n <= e.depth && Covered(c.Seed(), e.potential, e.gain, n)
  {
    RunPathReconstructs(c, run, k);
    WalkGain(c, PathTo(Final(run).order, k));
  }

  /** At most nine times the seed, and nine units of gain per amplifying hop make up for truncation. */
  predicate SlackWithin(seed: nat, p: nat, gain: nat, n: nat) { p <= 9 * seed && p * UNITY <= seed * (gain + 9 * n) }

  lemma DepthWithin(c: Context, run: seq<State>, k: nat)
    requires IsRun(c, run) && k < |Final(run).order| && c.policy.Valid()
    ensures Final(run).order[k].depth <= 64
  {
    RunBounded(c, run, |run| - 1);
    assert InRange(|c.topo.resources|, c.AuthorityHops(), Final(run).order);
  }

  lemma Slack(seed: nat, p: nat, gain: nat, n: nat)
    requires Covered(seed, p, gain, n) && gain <= MAX_GAIN && n <= 64
    ensures SlackWithin(seed, p, gain, n)
  {
    MulMonotone(gain, MAX_GAIN, seed);
    MulMonotone(UNITY - 64, UNITY - n, p);
    assert p <= 9 * seed;
    MulMonotone(p, 9 * seed, n);
    assert p * UNITY == p * (UNITY - n) + p * n;
    assert seed * (gain + 9 * n) == seed * gain + 9 * seed * n;
  }

  /** Under a valid policy the truncation slack is at most nine units of gain per amplifying hop, and a settled
      potential is at most nine times the seed. */
  lemma AmplificationSlack(c: Context, run: seq<State>, k: nat)
    requires IsRun(c, run) && k < |Final(run).order| && c.policy.Valid()
    ensures var e := Final(run).order[k];
            var n := Amplifying(c, PathTo(Final(run).order, k));
            n <= 64 && SlackWithin(c.Seed(), e.potential, e.gain, n)
  {
    var e := Final(run).order[k];
    AmplificationBounded(c, run, k);
    DepthWithin(c, run, k);
    Slack(c.Seed(), e.potential, e.gain, Amplifying(c, PathTo(Final(run).order, k)));
  }

  /** Without a grant no resource settles above the source, and rounding to a magnitude does not undo that. */
  lemma UnamplifiedNeverRises(c: Context, run: seq<State>, k: nat)
    requires !c.Granted() && IsRun(c, run) && k < |Final(run).order|
    ensures Final(run).order[k].potential <= c.Seed()
    ensures ToMagnitude(Final(run).order[k].potential) <= c.signal.magnitude
  {
    RunPathReconstructs(c, run, k);
    Unamplified(c, PathTo(Final(run).order, k));
    ToMagnitudeMonotone(Final(run).order[k].potential, c.Seed());
    MagnitudeRoundTrip(c.signal.magnitude);
  }

  /** Without a grant pressure never rises along a walk. */
  lemma {:induction false} Unamplified(c: Context, w: seq<nat>)
    requires !c.Granted() && Walk(c, w).Some?
    ensures Walk(c, w).value.potential <= c.Seed()
  {
    if w != [] { Unamplified(c, w[..|w| - 1]); }
  }
}
