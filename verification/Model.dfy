/** Resources, dependency edges, fences, authority and policy. */
module Model {
  import opened Wrappers
  import opened FixedPoint

  /** The sentinel that marks an unset 64-bit identity. */
  const INVALID_ID: nat := 0xFFFF_FFFF_FFFF_FFFF

  datatype Protection = Unprotected | ObservedOnly | BarrierClass | Sealed

  datatype Resource = Resource(id: nat, protection: Protection, accepts: bool, generation: nat)
  {
    predicate CanReceive() { accepts && protection != Sealed && protection != ObservedOnly }

    predicate CanForward() { CanReceive() && protection != BarrierClass }

    predicate Valid() { id != INVALID_ID && generation != 0 }
  }

  datatype Edge = Edge(id: nat, source: nat, target: nat, attenuation: Q16, amplification: Gain,
                       maxHops: nat, generation: nat, cooldown: nat, priority: nat,
                       amplifyingFlag: bool, recoveryOnly: bool, barrierFlag: bool)
  {
    predicate IsAmplifying() { amplifyingFlag && amplification != UNITY }

    predicate Valid() {
      && id != INVALID_ID && source != INVALID_ID && target != INVALID_ID
      && generation != 0 && maxHops <= 64 && !(IsAmplifying() && barrierFlag)
    }
  }

  datatype FenceKind = RefuseIngress | RefuseEgress | Barrier

  datatype Fence = Fence(id: nat, resource: nat, kind: FenceKind, epoch: nat, generation: nat,
                         expiresAt: nat, durable: bool, provenance: (nat, nat))
  {
    predicate RefusesIngress() { kind != RefuseEgress }

    predicate RefusesEgress() { kind != RefuseIngress }

    /** Tick zero means that the fence never expires. */
    predicate LiveAt(now: nat) { expiresAt == 0 || now <= expiresAt }

    function Strength(): nat { if kind == Barrier then 2 else 1 }

    predicate Valid() { id != INVALID_ID && resource != INVALID_ID && epoch != 0 }
  }

  predicate Applies(f: Fence, resource: nat, now: nat) { f.resource == resource && f.LiveAt(now) }

  /** The fence in force at a resource: a left-to-right scan that only yields to a stronger fence. */
  function Governing(fences: seq<Fence>, resource: nat, now: nat): Option<Fence>
  {
    if fences == [] then None
    else
      var best := Governing(fences[..|fences| - 1], resource, now);
      var f := fences[|fences| - 1];
      if Applies(f, resource, now) && (best.None? || f.Strength() > best.value.Strength()) then Some(f) else best
  }

  /** The governing fence is the first of the strongest live fences, and None only when there is none. */
  lemma {:induction false} GoverningIsFirstStrongest(fences: seq<Fence>, resource: nat, now: nat)
    ensures Governing(fences, resource, now).None? <==>
            forall i :: 0 <= i < |fences| ==> !Applies(fences[i], resource, now)
    ensures var g := Governing(fences, resource, now);
            g.Some? ==>
              exists k :: 0 <= k < |fences| && fences[k] == g.value && Applies(g.value, resource, now)
                && (forall i :: 0 <= i < |fences| && Applies(fences[i], resource, now) ==>
                      fences[i].Strength() <= g.value.Strength()
                      && (i < k ==> fences[i].Strength() < g.value.Strength()))
  {
    if fences != [] {
      var n := |fences| - 1;
      var front := fences[..n];
      GoverningIsFirstStrongest(front, resource, now);
      assert forall i :: 0 <= i < n ==> fences[i] == front[i];
      var best := Governing(front, resource, now);
      if best.Some? {
        var k :| 0 <= k < n && front[k] == best.value && Applies(best.value, resource, now)
          && (forall i :: 0 <= i < n && Applies(front[i], resource, now) ==>
                front[i].Strength() <= best.value.Strength()
                && (i < k ==> front[i].Strength() < best.value.Strength()));
        assert fences[k] == best.value;
      }
      assert fences[n] == fences[|fences| - 1];
    }
  }

  datatype AuthorityLevel = NoAuthority | Observer | Local | Scoped | Global

  datatype Authority = Authority(level: AuthorityLevel, epoch: nat, scope: set<nat>, maxHops: nat,
                                 amplify: bool, maxGain: Gain)
  {
    predicate Covers(target: nat) {
      match level
      case Global => true
      case Scoped => target in scope
      case Local => target in scope
      case _ => false
    }
  }

  datatype Aggregation = Max | SaturatingSum | WeightedMax | PriorityFirst

  datatype Decay = Decay(perStep: Q16, stepTicks: nat, floor: Q16, maxSteps: nat)

  datatype Policy = Policy(
    id: nat, generation: nat,
    maxHops: nat, maxFanout: nat, maxExpansions: nat, maxVisited: nat, maxSources: nat,
    maxRecords: nat, maxPathRecords: nat,
    floor: Q16, lifetime: nat,
    aggregation: Aggregation, ceiling: Q16,
    allowAmplification: bool, maxGain: Gain,
    cooldown: nat, hysteresis: Q16,
    decay: Decay,
    elevated: nat, high: nat, critical: nat, exhausted: nat,
    requireKnown: bool)
  {
    predicate Valid() {
      && id != INVALID_ID && generation != 0
      && 0 < maxHops <= 64 && 0 < maxFanout <= 0x1_0000 && 0 < maxExpansions <= 0x100_0000
      && 0 < maxVisited <= 0x40_0000 && 0 < maxSources <= 0x1000 && 0 < maxRecords <= 0x10_0000
      && 0 < maxPathRecords <= maxRecords && maxExpansions + maxVisited <= maxRecords
      && lifetime != 0 && ceiling != 0
      && (allowAmplification || maxGain == UNITY) && requireKnown
      && 0 < elevated < high < critical < exhausted <= 100000
      && decay.stepTicks != 0 && 0 < decay.maxSteps <= 4096
      && cooldown <= 0x100_0000_0000
    }

    function EffectiveHops(edgeOverride: nat): nat {
      Min(if edgeOverride == 0 then maxHops else edgeOverride, maxHops)
    }

    function EffectiveCooldown(edgeOverride: nat): nat {
      if edgeOverride == 0 then cooldown else edgeOverride
    }
  }

  datatype Signal = Signal(id: nat, source: nat, origin: nat, magnitude: Q16, authority: Authority,
                           lineage: nat, priority: nat, weight: Q16)
}
