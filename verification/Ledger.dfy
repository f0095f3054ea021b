/** The ledger of applied pressure: lineages already applied, the magnitude applied by each source at each
    resource, and the last accepted propagation over each dependency. */
module Ledgers {
  import opened Wrappers
  import opened FixedPoint
  import opened Model
  import opened Records
  import opened Traversal
  import Damping

  // ----- decay

  function Scaled(raw: Q16, perStep: Q16): (r: Q16)
    ensures r <= raw
  {
    MulMonotone(perStep, UNITY, raw);
    raw * perStep / UNITY
  }

  /** The product is scaled down exactly, and only the fraction of a unit is lost. */
  lemma ScaledExact(raw: Q16, perStep: Q16)
    ensures Scaled(raw, perStep) * 0x1_0000 <= raw * perStep < (Scaled(raw, perStep) + 1) * 0x1_0000
  {
  }

  /** n truncated multiplications by the step factor. */
  function Steps(raw: Q16, perStep: Q16, n: nat): (r: Q16)
    ensures r <= raw
  {
    if n == 0 then raw else Steps(Scaled(raw, perStep), perStep, n - 1)
  }

  lemma {:induction false} ZeroStays(perStep: Q16, n: nat)
    ensures Steps(0, perStep, n) == 0
  {
    if n > 0 { ZeroStays(perStep, n - 1); }
  }

  lemma {:induction false} StepsAdd(raw: Q16, perStep: Q16, a: nat, b: nat)
    ensures Steps(raw, perStep, a + b) == Steps(Steps(raw, perStep, a), perStep, b)
  {
    if a > 0 { StepsAdd(Scaled(raw, perStep), perStep, a - 1, b); }
  }

  /** Magnitude after decay: never above the start, and at the floor or where it started if that is lower. */
  function Decayed(d: Decay, start: Q16, steps: nat): (r: Q16)
    ensures r <= start
  {
    var raw := Steps(start, d.perStep, Min(steps, d.maxSteps));
    if start <= d.floor then start else if raw < d.floor then d.floor else raw
  }

  method DecayBy(d: Decay, start: Q16, steps: nat) returns (r: Q16)
    ensures r == Decayed(d, start, steps)
  {
    var n := if steps > d.maxSteps then d.maxSteps else steps;
    var raw: Q16 := start;
    var i: nat := 0;
    while i < n && raw > 0
      invariant i <= n && raw <= start
      invariant Steps(raw, d.perStep, n - i) == Steps(start, d.perStep, n)
    {
      raw := Scaled(raw, d.perStep);
      i := i + 1;
    }
    if raw == 0 { ZeroStays(d.perStep, n - i); }
    if raw > start { raw := start; }
    if raw < d.floor { raw := d.floor; }
    if raw > start { raw := start; }
    return raw;
  }

  /** Decaying in two stages is decaying at once, as long as the step limit does not bind. */
  lemma DecayComposes(d: Decay, start: Q16, a: nat, b: nat)
    requires a + b <= d.maxSteps
    ensures Decayed(d, start, a + b) == Decayed(d, Decayed(d, start, a), b)
  {
    StepsAdd(start, d.perStep, a, b);
  }

  /** A step with a factor below one lowers any positive magnitude. */
  lemma ScaledFalls(raw: Q16, perStep: Q16)
    requires 0 < raw && perStep < UNITY
    ensures Scaled(raw, perStep) < raw
  {
    MulMonotone(perStep, UNITY - 1, raw);
    assert raw * (UNITY - 1) < raw * UNITY;
  }

  lemma DecayFalls(d: Decay, start: Q16, steps: nat)
    requires d.perStep < UNITY && steps > 0 && d.maxSteps > 0 && start > d.floor
    ensures Decayed(d, start, steps) < start && Decayed(d, start, steps) >= d.floor
  {
    ScaledFalls(start, d.perStep);
  }

  // ----- recovery of one record

  datatype Applied = Applied(magnitude: Q16, tick: nat)

  function Lower(a: nat, b: nat): nat { if b < a then b else a }

  /** One record after recovery; its tick moves to now even when no step has elapsed. */
  function Recovered(d: Decay, rec: Applied, now: nat, residual: Q16): Applied
    requires d.stepTicks > 0
  {
    var steps := if now > rec.tick then (now - rec.tick) / d.stepTicks else 0;
    Applied(Lower(Decayed(d, rec.magnitude, Min(steps, d.maxSteps)), residual), now)
  }

  /** What a recovery makes of a record: decayed by the whole steps elapsed, at most maxSteps of them, never below the
      floor it was above, and then no more than the residual. */
  lemma RecoveredExact(d: Decay, rec: Applied, now: nat, residual: Q16, steps: nat)
    requires d.stepTicks > 0
    requires if now <= rec.tick then steps == 0
             else steps * d.stepTicks <= now - rec.tick < (steps + 1) * d.stepTicks
    ensures var r := Recovered(d, rec, now, residual);
            var scaled := Steps(rec.magnitude, d.perStep, if steps < d.maxSteps then steps else d.maxSteps);
            var decayed := if rec.magnitude <= d.floor then rec.magnitude
                           else if scaled < d.floor then d.floor else scaled;
            r.tick == now && r.magnitude == if residual < decayed then residual else decayed
  {
    if now > rec.tick { Quotient(now - rec.tick, d.stepTicks, steps); }
  }

  lemma Quotient(n: nat, k: nat, q: nat)
    requires k > 0 && q * k <= n < (q + 1) * k
    ensures n / k == q
  {
    var p := n / k;
    assert p * k <= n < (p + 1) * k by { assert n == p * k + n % k; }
    if p < q { MulMonotone(p + 1, q, k); }
    if p > q { MulMonotone(q + 1, p, k); }
  }

  /** A record after a series of recoveries at the given ticks and residuals. */
  function Recoveries(d: Decay, rec: Applied, calls: seq<(nat, Q16)>): Applied
    requires d.stepTicks > 0
    decreases |calls|
  {
    if calls == [] then rec else Recoveries(d, Recovered(d, rec, calls[0].0, calls[0].1), calls[1..])
  }

  /** How many of the calls come at least a step after the one before. */
  function SpacedCalls(tick: nat, calls: seq<(nat, Q16)>, gap: nat): nat
    decreases |calls|
  {
    if calls == [] then 0
    else (if calls[0].0 >= tick + gap then 1 else 0) + SpacedCalls(calls[0].0, calls[1..], gap)
  }

  /** With a factor below one a record above the floor falls exactly when a step has elapsed or the residual is
      lower. */
  lemma FallsIff(d: Decay, rec: Applied, now: nat, residual: Q16)
    requires d.stepTicks > 0 && d.maxSteps > 0 && d.perStep < UNITY
    ensures var r := Recovered(d, rec, now, residual);
            && r.magnitude <= rec.magnitude && r.tick == now
            && (rec.magnitude > d.floor ==>
                  (r.magnitude < rec.magnitude <==> now >= rec.tick + d.stepTicks || residual < rec.magnitude))
  {
    var steps := if now > rec.tick then (now - rec.tick) / d.stepTicks else 0;
    if now >= rec.tick + d.stepTicks {
      AtLeastOne(now - rec.tick, d.stepTicks);
      if rec.magnitude > d.floor { DecayFalls(d, rec.magnitude, Min(steps, d.maxSteps)); }
    } else {
      assert steps == 0;
    }
  }

  lemma AtLeastOne(n: nat, k: nat)
    requires 0 < k <= n
    ensures n / k >= 1
  {
  }

  /** Recovery converges: with a factor below one, any series of calls brings a record to the floor or lower once as
      many of them came at least a step apart as the record stood above the floor. */
  lemma {:induction false} RecoveryConverges(d: Decay, rec: Applied, calls: seq<(nat, Q16)>)
    requires d.stepTicks > 0 && d.maxSteps > 0 && d.perStep < UNITY
    requires rec.magnitude <= d.floor || SpacedCalls(rec.tick, calls, d.stepTicks) >= rec.magnitude - d.floor
    ensures Recoveries(d, rec, calls).magnitude <= d.floor
    decreases |calls|
  {
    if calls != [] {
      FallsIff(d, rec, calls[0].0, calls[0].1);
      RecoveryConverges(d, Recovered(d, rec, calls[0].0, calls[0].1), calls[1..]);
    }
  }

  /** Each call comes less than a step after the one before, with no residual to clamp to. */
  predicate Hurried(rec: Applied, calls: seq<(nat, Q16)>, gap: nat)
    decreases |calls|
  {
    calls == [] || (calls[0].0 < rec.tick + gap && calls[0].1 >= rec.magnitude
                    && Hurried(rec.(tick := calls[0].0), calls[1..], gap))
  }

  /** Recovery starves: calls that come faster than the step never lower anything, however many there are. */
  lemma {:induction false} RecoveryStarves(d: Decay, rec: Applied, calls: seq<(nat, Q16)>)
    requires d.stepTicks > 0 && Hurried(rec, calls, d.stepTicks)
    ensures Recoveries(d, rec, calls).magnitude == rec.magnitude
    decreases |calls|
  {
    if calls != [] {
      var now := calls[0].0;
      assert now > rec.tick ==> (now - rec.tick) / d.stepTicks == 0;
      RecoveryStarves(d, rec.(tick := now), calls[1..]);
    }
  }

  // ----- the ledger

  type Key = (nat, nat)

  /** Lineages in order after marking one more, the oldest forgotten beyond the capacity. */
  function Marked(order: seq<nat>, lineage: nat, capacity: nat): seq<nat>
    requires |order| <= capacity
  {
    if lineage in order then order
    else if |order| < capacity then order + [lineage]
    else (order + [lineage])[1..]
  }

  function AllMarked(order: seq<nat>, lineages: seq<nat>, capacity: nat): (r: seq<nat>)
    requires |order| <= capacity && capacity > 0
    ensures |r| <= capacity
  {
    if lineages == [] then order
    else Marked(AllMarked(order, lineages[..|lineages| - 1], capacity), lineages[|lineages| - 1], capacity)
  }

  lemma DropOldest(order: seq<nat>, all: seq<nat>, k: nat)
    requires order != [] && k < |all| && order == all[k..] && NoneTwice(order)
    ensures order[1..] == all[k + 1..] && NoneTwice(order[1..])
    ensures forall l :: l in order[1..] <==> l in order && l != order[0]
  {
    assert order == [order[0]] + order[1..];
    assert forall j :: 0 < j < |order| ==> order[0] != order[j];
  }

  lemma AppendNew(order: seq<nat>, lineage: nat)
    requires NoneTwice(order) && lineage !in order
    ensures NoneTwice(order + [lineage]) && forall l :: l in order + [lineage] <==> l in order || l == lineage
  {
  }

  predicate NoneTwice(order: seq<nat>) { forall i, j :: 0 <= i < j < |order| ==> order[i] != order[j] }

  /** One applied magnitude of a committed propagation. */
  datatype Application = Application(source: nat, resource: nat, magnitude: Q16)
  {
    function KeyOf(): Key { (source, resource) }
  }

  /** Whether every application still finds room, taken in order. */
  predicate Room(table: map<Key, Applied>, apps: seq<Application>, capacity: nat, now: nat)
    decreases |apps|
  {
    apps == [] || ((apps[0].KeyOf() in table || |table| < capacity)
                   && Room(table[apps[0].KeyOf() := Applied(apps[0].magnitude, now)], apps[1..], capacity, now))
  }

  function AllApplied(table: map<Key, Applied>, apps: seq<Application>, capacity: nat, now: nat): map<Key, Applied>
    decreases |apps|
  {
    if apps == [] || (apps[0].KeyOf() !in table && |table| >= capacity) then table
    else AllApplied(table[apps[0].KeyOf() := Applied(apps[0].magnitude, now)], apps[1..], capacity, now)
  }

  function AllDamped(table: map<Key, Damped>, hops: seq<Hop>, capacity: nat, now: nat): map<Key, Damped>
    decreases |hops|
  {
    if hops == [] || (Damping.KeyOf(hops[0]) !in table && |table| >= capacity) then table
    else AllDamped(table[Damping.KeyOf(hops[0]) := Damped(ToMagnitude(hops[0].after), now)], hops[1..], capacity, now)
  }

  lemma {:induction false} CommitFront(table: map<Key, Damped>, hops: seq<Hop>, now: nat)
    requires hops != []
    ensures Damping.Commit(table, hops, now)
         == Damping.Commit(table[Damping.KeyOf(hops[0]) := Damped(ToMagnitude(hops[0].after), now)], hops[1..], now)
  {
    var n := |hops| - 1;
    if n > 0 {
      CommitFront(table, hops[..n], now);
      assert hops[..n][1..] == hops[1..][..n - 1];
    }
  }

  /** While the damping table has room, committing hops is what the damping ladder takes it to be. */
  lemma {:induction false} DampedWithRoom(table: map<Key, Damped>, hops: seq<Hop>, capacity: nat, now: nat)
    requires |table| + |hops| <= capacity
    ensures AllDamped(table, hops, capacity, now) == Damping.Commit(table, hops, now)
    decreases |hops|
  {
    if hops != [] {
      var key, entry := Damping.KeyOf(hops[0]), Damped(ToMagnitude(hops[0].after), now);
      assert table[key := entry].Keys == table.Keys + {key};
      assert |table[key := entry]| == |table[key := entry].Keys| && |table| == |table.Keys|;
      CommitFront(table, hops, now);
      DampedWithRoom(table[key := entry], hops[1..], capacity, now);
    }
  }

  class Ledger {
    const lineageCapacity: nat
    const applicationCapacity: nat
    const dampingCapacity: nat
    var order: seq<nat>
    var index: set<nat>
    var applications: map<Key, Applied>
    var damping: map<Key, Damped>

    ghost predicate Valid()
      reads this
    {
      && lineageCapacity > 0 && |order| <= lineageCapacity
      && (forall l :: l in index <==> l in order)
      && NoneTwice(order)
    }

    constructor (lineages: nat, applications_: nat, damping_: nat)
      ensures Valid() && order == [] && applications == map[] && damping == map[]
      ensures applicationCapacity > 0 && dampingCapacity > 0
    {
      lineageCapacity := if lineages == 0 then 1 else lineages;
      applicationCapacity := if applications_ == 0 then 1 else applications_;
      dampingCapacity := if damping_ == 0 then 1 else damping_;
      order, index, applications, damping := [], {}, map[], map[];
    }

    method MarkLineage(lineage: nat) returns (fresh_: bool)
      requires Valid()
      modifies this`order, this`index
      ensures Valid() && fresh_ == (lineage !in old(order)) && order == Marked(old(order), lineage, lineageCapacity)
    {
      if lineage in index { return false; }
      AppendNew(order, lineage);
      index := index + {lineage};
      order := order + [lineage];
      while |order| > lineageCapacity
        invariant |order| <= |old(order)| + 1 && (|order| >= lineageCapacity || |order| == |old(order)| + 1)
        invariant order == (old(order) + [lineage])[|old(order)| + 1 - |order|..]
        invariant forall l :: l in index <==> l in order
        invariant NoneTwice(order)
      {
        DropOldest(order, old(order) + [lineage], |old(order)| + 1 - |order|);
        index := index - {order[0]};
        order := order[1..];
      }
      return true;
    }

    method RecordApplication(source: nat, resource: nat, m: Q16, tick: nat) returns (status: Status)
      modifies this`applications
      ensures var room := (source, resource) in old(applications) || |old(applications)| < applicationCapacity;
              && status == (if room then Success else Failed(LimitExceeded))
              && applications == (if room then old(applications)[(source, resource) := Applied(m, tick)]
                                  else old(applications))
    {
      if (source, resource) !in applications && |applications| >= applicationCapacity { return Failed(LimitExceeded); }
      applications := applications[(source, resource) := Applied(m, tick)];
      return Success;
    }

    method RecordDamping(target: nat, edge: nat, m: Q16, tick: nat) returns (status: Status)
      modifies this`damping
      ensures var room := (target, edge) in old(damping) || |old(damping)| < dampingCapacity;
              && status == (if room then Success else Failed(LimitExceeded))
              && damping == (if room then old(damping)[(target, edge) := Damped(m, tick)] else old(damping))
    {
      if (target, edge) !in damping && |damping| >= dampingCapacity { return Failed(LimitExceeded); }
      damping := damping[(target, edge) := Damped(m, tick)];
      return Success;
    }

    /** Decay what one source applied. Every record of the source is lowered or kept, no record appears or
        disappears, and nothing else changes. */
    method Recover(d: Decay, source: nat, now: nat, residual: Q16, dryRun: bool) returns (status: Status)
      requires d.stepTicks > 0
      modifies this`applications
      ensures status == Success && applications.Keys == old(applications).Keys
      ensures dryRun ==> applications == old(applications)
      ensures !dryRun ==> forall k :: k in applications ==>
                applications[k] == if k.0 == source then Recovered(d, old(applications)[k], now, residual)
                                   else old(applications)[k]
      ensures forall k :: k in applications ==> applications[k].magnitude <= old(applications)[k].magnitude
      ensures !dryRun ==> forall k :: k in applications && k.0 == source ==>
                applications[k].magnitude <= residual && applications[k].tick == now
    {
      var todo := set k | k in applications && k.0 == source;
      while todo != {}
        invariant forall k :: k in todo ==> k in applications && k.0 == source
        invariant applications.Keys == old(applications).Keys
        invariant forall k :: k in applications && (k.0 != source || k in todo || dryRun) ==>
                  applications[k] == old(applications)[k]
        invariant forall k :: k in applications && k.0 == source && k !in todo && !dryRun ==>
                    applications[k] == Recovered(d, old(applications)[k], now, residual)
        decreases |todo|
      {
        var k :| k in todo;
        var rec := applications[k];
        var steps := if now > rec.tick then (now - rec.tick) / d.stepTicks else 0;
        var decayed := DecayBy(d, rec.magnitude, Min(steps, d.maxSteps));
        if decayed > rec.magnitude { decayed := rec.magnitude; }
        if decayed > residual { decayed := residual; }
        todo := todo - {k};
        if !dryRun {
          var st := RecordApplication(k.0, k.1, decayed, now);
        }
      }
      return Success;
    }

    /** The authoritative effects of a propagation that was not a dry run and lost no record: lineages first, then
        applications until one finds no room, then the damping table. */
    method Commit(lineages: seq<nat>, apps: seq<Application>, hops: seq<Hop>, now: nat, dryRun: bool, truncated: bool)
      returns (status: Status)
      requires Valid()
      modifies this
      ensures Valid()
      ensures dryRun || truncated ==>
                status == Success && order == old(order) && applications == old(applications) && damping == old(damping)
      ensures !(dryRun || truncated) ==>
                && order == AllMarked(old(order), lineages, lineageCapacity)
                && applications == AllApplied(old(applications), apps, applicationCapacity, now)
                && damping == AllDamped(old(damping), hops, dampingCapacity, now)
                && (status == Success <==> Room(old(applications), apps, applicationCapacity, now))
    {
      status := Success;
      if dryRun || truncated { return; }
      for i := 0 to |lineages|
        invariant Valid() && applications == old(applications) && damping == old(damping)
        invariant order == AllMarked(old(order), lineages[..i], lineageCapacity)
      {
        assert lineages[..i + 1][..i] == lineages[..i];
        var fresh_ := MarkLineage(lineages[i]);
      }
      assert lineages[..|lineages|] == lineages;
      status := CommitApplications(apps, now);
      CommitDamping(hops, now);
    }

    method CommitApplications(apps: seq<Application>, now: nat) returns (status: Status)
      modifies this`applications
      ensures applications == AllApplied(old(applications), apps, applicationCapacity, now)
      ensures status == Success <==> Room(old(applications), apps, applicationCapacity, now)
    {
      status := Success;
      assert apps[0..] == apps;
      for i := 0 to |apps|
        invariant AllApplied(applications, apps[i..], applicationCapacity, now) ==
                  AllApplied(old(applications), apps, applicationCapacity, now)
        invariant Room(applications, apps[i..], applicationCapacity, now) ==
                  Room(old(applications), apps, applicationCapacity, now)
        invariant status == Success
      {
        assert apps[i..][1..] == apps[i + 1..];
        status := RecordApplication(apps[i].source, apps[i].resource, apps[i].magnitude, now);
        if status != Success { break; }
      }
    }

    method CommitDamping(hops: seq<Hop>, now: nat)
      modifies this`damping
      ensures damping == AllDamped(old(damping), hops, dampingCapacity, now)
    {
      assert hops[0..] == hops;
      for i := 0 to |hops|
        invariant AllDamped(damping, hops[i..], dampingCapacity, now) ==
                  AllDamped(old(damping), hops, dampingCapacity, now)
      {
        assert hops[i..][1..] == hops[i + 1..];
        var status := RecordDamping(hops[i].target, hops[i].edge, ToMagnitude(hops[i].after), now);
        if status != Success { break; }
      }
    }
  }
}
