/** What the engine decides about an edge, told on the fields of edge, resources, fences, authority, policy and damping
    table: the first reason that applies, in a fixed order, and otherwise the exact pressure carried over. */
module Verdicts {
  import opened Wrappers
  import opened FixedPoint
  import opened Model
  import opened Records
  import opened Traversal

  // ----- conditions on the fields

  /** Fence k is in force at the resource: live, and no other live one is stronger, or as strong and earlier. */
  predicate InForce(fences: seq<Fence>, resource: nat, now: nat, k: nat) {
    && k < |fences| && LiveOn(fences[k], resource, now)
    && forall i :: 0 <= i < |fences| && LiveOn(fences[i], resource, now) ==>
         && (fences[i].kind.Barrier? ==> fences[k].kind.Barrier?)
         && (i < k ==> fences[k].kind.Barrier? && !fences[i].kind.Barrier?)
  }

  predicate LiveOn(f: Fence, resource: nat, now: nat) {
    f.resource == resource && (f.expiresAt == 0 || now <= f.expiresAt)
  }

  ghost predicate NoEntry(c: Context, resource: nat) {
    exists k: nat ::
      InForce(c.fences, resource, c.now, k) && (c.fences[k].kind.RefuseIngress? || c.fences[k].kind.Barrier?)
  }

  ghost predicate NoExit(c: Context, resource: nat) {
    exists k: nat ::
      InForce(c.fences, resource, c.now, k) && (c.fences[k].kind.RefuseEgress? || c.fences[k].kind.Barrier?)
  }

  predicate Receiving(r: Resource) { r.accepts && (r.protection.Unprotected? || r.protection.BarrierClass?) }

  predicate Forwarding(r: Resource) { r.accepts && r.protection.Unprotected? }

  predicate InScope(a: Authority, target: nat) {
    a.level.Global? || ((a.level.Scoped? || a.level.Local?) && target in a.scope)
  }

  /** Some hop limit is below the number of hops; an unset limit of edge or authority does not count. */
  predicate TooFar(c: Context, edgeHops: nat, hops: nat) {
    || hops > c.policy.maxHops || (edgeHops != 0 && hops > edgeHops)
    || (c.signal.authority.maxHops != 0 && hops > c.signal.authority.maxHops)
  }

  predicate Amplifies(e: Edge) { e.amplifyingFlag && e.amplification != 0x1_0000 }

  predicate MayAmplify(c: Context) { c.policy.allowAmplification && c.signal.authority.amplify }

  /** Pressure behind the edge before amplification. */
  function Faded(p: nat, e: Edge): nat { p * e.attenuation / 0x1_0000 }

  function Raised(p: nat, e: Edge): nat {
    if Amplifies(e) then Faded(p, e) * e.amplification / 0x1_0000 else Faded(p, e)
  }

  function RaisedGain(gain: nat, e: Edge): nat { if Amplifies(e) then gain * e.amplification / 0x1_0000 else gain }

  function Rounded(p: nat): nat { if p >= 0xFFFF_8000 then 0x1_0000 else (p + 0x8000) / 0x1_0000 }

  /** Within the cooldown of the last acceptance the new magnitude must exceed it by more than the delta; at full scale
      nothing does. */
  predicate Damped(c: Context, e: Edge, p: nat) {
    var cooldown := if e.cooldown == 0 then c.policy.cooldown else e.cooldown;
    && (e.target, e.id) in c.damping
    && var last := c.damping[(e.target, e.id)];
       && c.now < last.tick + cooldown && cooldown > 0
       && (Rounded(p) <= last.magnitude + c.policy.hysteresis || last.magnitude + c.policy.hysteresis >= 0x1_0000)
  }

  // ----- reasons

  /** The order in which reasons to refuse an edge are looked for. */
  function Turn(r: Reason): nat {
    if r == MAX_FANOUT then 1 else if r == EXPANSION_BUDGET then 2 else if r == STALE_DEPENDENCY then 3
    else if r == ZERO_ATTENUATION then 4 else if r == RECOVERY_ONLY then 5 else if r == MISSING_RESOURCE then 6
    else if r == SEALED_RESOURCE then 7 else if r == OBSERVED_ONLY_RESOURCE then 8
    else if r == NODE_ALREADY_SETTLED then 9 else if r == UNAUTHORIZED_SCOPE then 10 else if r == FENCED then 11
    else if r == MAX_HOPS then 12 else if r == AMPLIFICATION_NOT_AUTHORIZED then 13
    else if r == AMPLIFICATION_BUDGET then 14 else if r == BELOW_FLOOR then 15 else if r == HYSTERESIS then 16 else 0
  }

  /** The reason applies to edge ei of the entry. */
  ghost predicate Blocks(
    c: Context, settled: set<nat>, e: Entry, fanout: nat, expansions: nat, ei: nat, r: Reason)
    requires ei < |c.topo.edges|
  {
    var edge := c.topo.edges[ei];
    var declared := edge.target in c.topo.index && c.topo.index[edge.target] < |c.topo.resources|;
    || (r == MAX_FANOUT && fanout >= c.policy.maxFanout)
    || (r == EXPANSION_BUDGET && expansions >= c.policy.maxExpansions)
    || (r == STALE_DEPENDENCY && ei in c.pins && c.pins[ei] != edge.generation)
    || (r == ZERO_ATTENUATION && edge.attenuation == 0)
    || (r == RECOVERY_ONLY && edge.recoveryOnly)
    || (r == MISSING_RESOURCE && !declared)
    || (r == SEALED_RESOURCE && declared && c.topo.resources[c.topo.index[edge.target]].protection.Sealed?)
    || (r == OBSERVED_ONLY_RESOURCE && declared && !Receiving(c.topo.resources[c.topo.index[edge.target]]))
    || (r == NODE_ALREADY_SETTLED && declared && c.topo.index[edge.target] in settled)
    || (r == UNAUTHORIZED_SCOPE && !InScope(c.signal.authority, edge.target))
    || (r == FENCED && NoEntry(c, edge.target))
    || (r == MAX_HOPS && TooFar(c, edge.maxHops, e.depth + 1))
    || (r == AMPLIFICATION_NOT_AUTHORIZED && Amplifies(edge) && !MayAmplify(c))
    || (r == AMPLIFICATION_BUDGET && Amplifies(edge)
        && (RaisedGain(e.gain, edge) > c.policy.maxGain || RaisedGain(e.gain, edge) > c.signal.authority.maxGain
            || Faded(e.potential, edge) * edge.amplification > 0x1_0000_0000 * 0x1_0000))
    || (r == BELOW_FLOOR && Raised(e.potential, edge) < c.policy.floor * 0x1_0000)
    || (r == HYSTERESIS && Damped(c, edge, Raised(e.potential, edge)))
  }

  // ----- the definitions mean this

  lemma GoverningInForce(fences: seq<Fence>, resource: nat, now: nat)
    ensures Governing(fences, resource, now).None? ==> forall k :: !InForce(fences, resource, now, k)
    ensures var g := Governing(fences, resource, now);
            g.Some? ==> (exists k: nat :: InForce(fences, resource, now, k))
                        && forall k: nat :: InForce(fences, resource, now, k) ==> fences[k] == g.value
  {
    GoverningIsFirstStrongest(fences, resource, now);
    var g := Governing(fences, resource, now);
    forall i | 0 <= i < |fences| ensures Applies(fences[i], resource, now) <==> LiveOn(fences[i], resource, now) {}
    if g.Some? {
      var k :| 0 <= k < |fences| && fences[k] == g.value && Applies(g.value, resource, now)
        && (forall i :: 0 <= i < |fences| && Applies(fences[i], resource, now) ==>
              fences[i].Strength() <= g.value.Strength()
              && (i < k ==> fences[i].Strength() < g.value.Strength()));
      assert InForce(fences, resource, now, k);
      forall m: nat | InForce(fences, resource, now, m) ensures m == k {
        assert Applies(fences[m], resource, now) && LiveOn(fences[k], resource, now);
      }
    }
  }

  lemma FencedMeans(c: Context, resource: nat)
    ensures c.IngressFenced(resource) <==> NoEntry(c, resource)
    ensures c.EgressFenced(resource) <==> NoExit(c, resource)
  {
    GoverningInForce(c.fences, resource, c.now);
  }

  lemma HopBoundMeans(c: Context, ei: nat, hops: nat)
    requires ei < |c.topo.edges|
    ensures hops > c.HopBound(ei) <==> TooFar(c, c.topo.edges[ei].maxHops, hops)
    ensures hops > c.AuthorityHops() <==> TooFar(c, 0, hops)
  {
  }

  lemma RoundedMeans(p: Potential)
    ensures ToMagnitude(p) == Rounded(p)
  {
  }

  lemma DampsMeans(c: Context, ei: nat, p: Potential)
    requires ei < |c.topo.edges|
    ensures c.Damps(ei, p) <==> Damped(c, c.topo.edges[ei], p)
  {
    RoundedMeans(p);
  }

  predicate Carries(d: Decision, next: nat, gain: nat, amplified: bool) {
    d.Carry? && d.next == next && d.gain == gain && d.amplified == amplified
  }

  lemma CrossMeans(c: Context, e: Entry, ei: nat)
    requires ei < |c.topo.edges|
    ensures var d, edge := c.Cross(ei, e.potential, e.gain, e.amplified), c.topo.edges[ei];
            var unlawful := Amplifies(edge) && !MayAmplify(c);
            var excess := Amplifies(edge)
              && (RaisedGain(e.gain, edge) > c.policy.maxGain || RaisedGain(e.gain, edge) > c.signal.authority.maxGain
                  || Faded(e.potential, edge) * edge.amplification > 0x1_0000_0000 * 0x1_0000);
            var after := Raised(e.potential, edge);
            if unlawful then d == Refuse(AMPLIFICATION_NOT_AUTHORIZED)
            else if excess then d == Refuse(AMPLIFICATION_BUDGET)
            else if after < c.policy.floor * 0x1_0000 then d == Refuse(BELOW_FLOOR)
            else if Damped(c, edge, after) then d == Refuse(HYSTERESIS)
            else Carries(d, after, RaisedGain(e.gain, edge), e.amplified || Amplifies(edge))
  {
    var edge := c.topo.edges[ei];
    var next := Attenuated(e.potential, edge.attenuation);
    AttenuatedExact(e.potential, edge.attenuation);
    AmplifiedExact(next, edge.amplification);
    var raised := if Amplifies(edge) then Amplified(next, edge.amplification) else Some(next);
    if raised.Some? { DampsMeans(c, ei, raised.value); }
  }

  /** A refusal names the reason that applies and is looked for first. */
  lemma RefusalExact(c: Context, settled: set<nat>, e: Entry, fanout: nat, expansions: nat, ei: nat, q: Reason)
    requires ei < |c.topo.edges| && c.Decide(settled, e, fanout, expansions, ei).Refuse?
    ensures var r := c.Decide(settled, e, fanout, expansions, ei).reason;
            && Blocks(c, settled, e, fanout, expansions, ei, r)
            && (Blocks(c, settled, e, fanout, expansions, ei, q) ==> Turn(r) <= Turn(q))
  {
    CrossMeans(c, e, ei);
    FencedMeans(c, c.topo.edges[ei].target);
    HopBoundMeans(c, ei, e.depth + 1);
  }

  /** An edge is accepted when no reason applies, and carries exactly this over. */
  lemma AcceptanceExact(c: Context, settled: set<nat>, e: Entry, fanout: nat, expansions: nat, ei: nat, q: Reason)
    requires ei < |c.topo.edges| && c.Decide(settled, e, fanout, expansions, ei).Carry?
    ensures var d, edge := c.Decide(settled, e, fanout, expansions, ei), c.topo.edges[ei];
            Carries(d, Raised(e.potential, edge), RaisedGain(e.gain, edge), e.amplified || Amplifies(edge))
    ensures !Blocks(c, settled, e, fanout, expansions, ei, q)
  {
    CrossMeans(c, e, ei);
    FencedMeans(c, c.topo.edges[ei].target);
    HopBoundMeans(c, ei, e.depth + 1);
  }
}
