/** The damping ladder: over any number of committed runs, repeats over one dependency inside its cooldown window
    rise by more than the hysteresis delta each time, so there can only be so many of them. */
module Damping {
  import opened Wrappers
  import opened FixedPoint
  import opened Model
  import opened Records
  import opened Traversal
  import opened RunBounds

  /** A damping table. */
  type Table = map<(nat, nat), Damped>

  function KeyOf(h: Hop): (nat, nat) { (h.target, h.edge) }

  // ----- accepted hops were not damped

  /** The hop crossed an edge that was not damping it. */
  ghost predicate Undamped(c: Context, h: Hop) {
    exists ei :: 0 <= ei < |c.topo.edges| && (c.topo.edges[ei].target, c.topo.edges[ei].id) == KeyOf(h)
      && !c.Damps(ei, h.after)
  }

  ghost predicate AllUndamped(c: Context, hops: seq<Hop>) { forall k :: 0 <= k < |hops| ==> Undamped(c, hops[k]) }

  lemma CarriedUndamped(c: Context, settled: set<nat>, e: Entry, fanout: nat, expansions: nat, ei: nat)
    requires ei < |c.topo.edges| && c.Decide(settled, e, fanout, expansions, ei).Carry?
    ensures !c.Damps(ei, c.Decide(settled, e, fanout, expansions, ei).next)
  {
  }

  lemma ExpandUndamped(c: Context, s: State)
    requires Sane(c, s) && AllUndamped(c, s.book.hops) && s.mode.Expanding?
    ensures AllUndamped(c, Expand(c, s).book.hops)
  {
    var s' := Expand(c, s);
    var e, outs := s.mode.entry, c.topo.Outs(s.mode.entry.node);
    if s.mode.cursor < |outs| && outs[s.mode.cursor] < |c.topo.edges| {
      var ei := outs[s.mode.cursor];
      var d := c.Decide(s.settled, e, s.mode.fanout, s.expansions, ei);
      if d.Carry? && s.book.budget > 0 {
        CarriedUndamped(c, s.settled, e, s.mode.fanout, s.expansions, ei);
        assert s'.book.hops[..|s.book.hops|] == s.book.hops;
        assert Undamped(c, s'.book.hops[|s.book.hops|]);
      }
    }
  }

  lemma StepUndamped(c: Context, s: State, i: nat)
    requires Sane(c, s) && AllUndamped(c, s.book.hops) && !s.mode.Finished?
    requires s.mode.Selecting? && s.queue != [] ==> i < |s.queue|
    ensures AllUndamped(c, Step(c, s, i).book.hops)
  {
    if s.mode.Expanding? { ExpandUndamped(c, s); } else { assert Step(c, s, i).book.hops == s.book.hops; }
  }

  lemma {:induction false} RunUndamped(c: Context, run: seq<State>, k: nat)
    requires IsRun(c, run) && k < |run|
    ensures AllUndamped(c, run[k].book.hops)
  {
    if k > 0 {
      RunUndamped(c, run, k - 1);
      NextUndamped(c, run, k);
    }
  }

  lemma NextUndamped(c: Context, run: seq<State>, k: nat)
    requires 0 < k < |run| && FollowsAt(c, run, k) && AllUndamped(c, run[k - 1].book.hops)
    ensures AllUndamped(c, run[k].book.hops)
  {
    var i := PickOf(c, run[k - 1], run[k]);
    StepUndamped(c, run[k - 1], i);
  }

  // ----- committed runs

  /** The damping table after a run is committed: each accepted hop replaces the entry of its dependency. */
  function Commit(damping: Table, hops: seq<Hop>, now: nat): Table {
    if hops == [] then damping
    else
      var last := hops[|hops| - 1];
      Commit(damping, hops[..|hops| - 1], now)[KeyOf(last) := Damped(ToMagnitude(last.after), now)]
  }

  /** The last hop over a dependency, if any. */
  function LastOver(hops: seq<Hop>, key: (nat, nat)): Option<Hop> {
    if hops == [] then None
    else if KeyOf(hops[|hops| - 1]) == key then Some(hops[|hops| - 1])
    else LastOver(hops[..|hops| - 1], key)
  }

  lemma {:induction false} CommitAt(damping: Table, hops: seq<Hop>, now: nat, key: (nat, nat))
    ensures var after, last := Commit(damping, hops, now), LastOver(hops, key);
            if last.Some? then key in after && after[key] == Damped(ToMagnitude(last.value.after), now)
            else (key in after <==> key in damping) && (key in damping ==> after[key] == damping[key])
  {
    if hops != [] { CommitAt(damping, hops[..|hops| - 1], now, key); }
  }

  lemma {:induction false} LastOverUndamped(c: Context, hops: seq<Hop>, key: (nat, nat))
    requires AllUndamped(c, hops) && LastOver(hops, key).Some?
    ensures Undamped(c, LastOver(hops, key).value) && KeyOf(LastOver(hops, key).value) == key
  {
    var n := |hops| - 1;
    if KeyOf(hops[n]) == key {
      assert Undamped(c, hops[n]);
    } else {
      LastOverUndamped(c, hops[..n], key);
    }
  }

  /** A run and what it found in the damping table. */
  datatype Turn = Turn(context: Context, run: seq<State>)
  {
    ghost predicate Valid() { IsRun(context, run) }

    function Hops(): seq<Hop> { if run == [] then [] else Final(run).book.hops }
  }

  /** Committed runs in order, under one policy, the first starting from the given table and each of the others from
      the table the one before left behind. */
  ghost predicate Session(start: Table, turns: seq<Turn>, policy: Policy, key: (nat, nat), cooldown: nat) {
    && (forall i :: 0 <= i < |turns| ==> turns[i].Valid() && turns[i].context.policy == policy)
    && (forall i :: 0 <= i < |turns| ==> OneCooldown(turns[i].context, key, cooldown))
    && (forall i :: 0 < i < |turns| ==>
          turns[i].context.damping ==
            Commit(turns[i - 1].context.damping, turns[i - 1].Hops(), turns[i - 1].context.now))
    && (turns != [] ==> turns[0].context.damping == start)
  }

  /** Edge identities are distinct as far as this dependency goes. */
  ghost predicate OneCooldown(c: Context, key: (nat, nat), cooldown: nat) {
    forall ei :: 0 <= ei < |c.topo.edges| && (c.topo.edges[ei].target, c.topo.edges[ei].id) == key ==>
      c.policy.EffectiveCooldown(c.topo.edges[ei].cooldown) == cooldown
  }

  /** What a run commits over the dependency, if anything. */
  function Rung(hops: seq<Hop>, now: nat, key: (nat, nat)): seq<Damped> {
    var hop := LastOver(hops, key);
    if hop.Some? then [Damped(ToMagnitude(hop.value.after), now)] else []
  }

  /** What the table held for the dependency at first, if anything, and then what was committed over it, in order. */
  function Rungs(start: Table, turns: seq<Turn>, key: (nat, nat)): seq<Damped> {
    if turns == [] then (if key in start then [start[key]] else [])
    else
      var last := turns[|turns| - 1];
      Rungs(start, turns[..|turns| - 1], key) + Rung(last.Hops(), last.context.now, key)
  }

  function Elapsed(earlier: nat, later: nat): nat { if later > earlier then later - earlier else 0 }

  /** b follows a inside the cooldown window. */
  predicate Repeats(a: Damped, b: Damped, cooldown: nat) { Elapsed(a.tick, b.tick) < cooldown }

  predicate Rises(a: Damped, b: Damped, delta: nat) { b.magnitude > a.magnitude + delta }

  predicate RepeatsAt(rungs: seq<Damped>, i: nat, cooldown: nat) {
    0 < i < |rungs| && Repeats(rungs[i - 1], rungs[i], cooldown)
  }

  predicate ClimbsAt(rungs: seq<Damped>, i: nat, cooldown: nat, delta: nat) {
    RepeatsAt(rungs, i, cooldown) ==> Rises(rungs[i - 1], rungs[i], delta)
  }

  predicate Climbs(rungs: seq<Damped>, cooldown: nat, delta: nat) {
    forall i :: 0 < i < |rungs| ==> ClimbsAt(rungs, i, cooldown, delta)
  }

  lemma SessionPrefix(start: Table, turns: seq<Turn>, policy: Policy, key: (nat, nat), cooldown: nat)
    requires turns != [] && Session(start, turns, policy, key, cooldown)
    ensures Session(start, turns[..|turns| - 1], policy, key, cooldown)
  {
    var front := turns[..|turns| - 1];
    assert forall i :: 0 <= i < |front| ==> front[i] == turns[i];
  }

  predicate TopOf(table: Table, rungs: seq<Damped>, key: (nat, nat)) {
    if rungs == [] then key !in table else key in table && table[key] == rungs[|rungs| - 1]
  }

  lemma TopAfterTurn(table: Table, rungs: seq<Damped>, hops: seq<Hop>, now: nat, key: (nat, nat))
    requires TopOf(table, rungs, key)
    ensures TopOf(Commit(table, hops, now), rungs + Rung(hops, now, key), key)
  {
    CommitAt(table, hops, now, key);
    assert LastOver(hops, key).None? ==> rungs + [] == rungs;
  }

  /** The table a turn starts from holds the top rung. */
  lemma {:induction false} TableHoldsTopRung(
    start: Table, turns: seq<Turn>, policy: Policy, key: (nat, nat), cooldown: nat)
    requires turns != [] && Session(start, turns, policy, key, cooldown)
    ensures var rungs, table := Rungs(start, turns[..|turns| - 1], key), turns[|turns| - 1].context.damping;
            TopOf(table, rungs, key)
    decreases |turns|
  {
    var n := |turns| - 1;
    if n > 0 {
      var front := turns[..n];
      SessionPrefix(start, turns, policy, key, cooldown);
      TableHoldsTopRung(start, front, policy, key, cooldown);
      var last := turns[n - 1];
      assert front[n - 1] == last && |front| == n;
      TopAfterTurn(last.context.damping, Rungs(start, front[..n - 1], key), last.Hops(), last.context.now, key);
      RungsGrow(start, front, key);
      assert turns[n].context.damping == Commit(last.context.damping, last.Hops(), last.context.now);
    }
  }

  lemma RungsGrow(start: Table, turns: seq<Turn>, key: (nat, nat))
    requires turns != []
    ensures var last := turns[|turns| - 1];
            Rungs(start, turns, key)
            == Rungs(start, turns[..|turns| - 1], key) + Rung(last.Hops(), last.context.now, key)
  {
  }

  lemma TopRises(c: Context, hop: Hop, last: Damped, key: (nat, nat), cooldown: nat)
    requires Undamped(c, hop) && KeyOf(hop) == key && OneCooldown(c, key, cooldown)
    requires key in c.damping && c.damping[key] == last && Elapsed(last.tick, c.now) < cooldown
    ensures ToMagnitude(hop.after) > last.magnitude + c.policy.hysteresis
  {
    var ei :| 0 <= ei < |c.topo.edges| && (c.topo.edges[ei].target, c.topo.edges[ei].id) == KeyOf(hop)
      && !c.Damps(ei, hop.after);
  }

  lemma ClimbOn(c: Context, hops: seq<Hop>, rungs: seq<Damped>, key: (nat, nat), cooldown: nat)
    requires Climbs(rungs, cooldown, c.policy.hysteresis) && TopOf(c.damping, rungs, key)
    requires AllUndamped(c, hops) && OneCooldown(c, key, cooldown)
    ensures Climbs(rungs + Rung(hops, c.now, key), cooldown, c.policy.hysteresis)
  {
    var more := rungs + Rung(hops, c.now, key);
    forall i | 0 < i < |rungs| ensures ClimbsAt(more, i, cooldown, c.policy.hysteresis) {
      assert ClimbsAt(rungs, i, cooldown, c.policy.hysteresis);
    }
    if LastOver(hops, key).Some? && rungs != [] {
      var hop, top := LastOver(hops, key).value, rungs[|rungs| - 1];
      LastOverUndamped(c, hops, key);
      if Elapsed(top.tick, c.now) < cooldown { TopRises(c, hop, top, key, cooldown); }
    }
  }

  /** Over a whole session the rungs of one dependency climb by more than the delta whenever they fall within the
      cooldown of the previous one. */
  lemma {:induction false} SessionClimbs(start: Table, turns: seq<Turn>, policy: Policy, key: (nat, nat), cooldown: nat)
    requires Session(start, turns, policy, key, cooldown)
    ensures Climbs(Rungs(start, turns, key), cooldown, policy.hysteresis)
    decreases |turns|
  {
    if turns != [] {
      var n := |turns| - 1;
      var last := turns[n];
      SessionPrefix(start, turns, policy, key, cooldown);
      SessionClimbs(start, turns[..n], policy, key, cooldown);
      TableHoldsTopRung(start, turns, policy, key, cooldown);
      assert last.Valid() && last.context.policy == policy;
      TurnClimbs(last, Rungs(start, turns[..n], key), key, cooldown);
      RungsGrow(start, turns, key);
    }
  }

  lemma TurnClimbs(last: Turn, rungs: seq<Damped>, key: (nat, nat), cooldown: nat)
    requires last.Valid() && OneCooldown(last.context, key, cooldown)
    requires Climbs(rungs, cooldown, last.context.policy.hysteresis) && TopOf(last.context.damping, rungs, key)
    ensures Climbs(rungs + Rung(last.Hops(), last.context.now, key), cooldown, last.context.policy.hysteresis)
  {
    RunUndamped(last.context, last.run, |last.run| - 1);
    ClimbOn(last.context, last.Hops(), rungs, key, cooldown);
  }

  /** A chain of repeats starting at rung `lo` has bounded length. */
  lemma {:induction false} LadderIsShort(rungs: seq<Damped>, cooldown: nat, delta: nat, lo: nat, hi: nat)
    requires Climbs(rungs, cooldown, delta) && lo <= hi < |rungs|
    requires forall i :: lo < i <= hi ==> RepeatsAt(rungs, i, cooldown)
    ensures rungs[lo].magnitude + (hi - lo) * (delta + 1) <= rungs[hi].magnitude
    decreases hi
  {
    if lo < hi {
      LadderIsShort(rungs, cooldown, delta, lo, hi - 1);
      assert RepeatsAt(rungs, hi, cooldown) && ClimbsAt(rungs, hi, cooldown, delta);
      assert (hi - lo) * (delta + 1) == (hi - 1 - lo) * (delta + 1) + (delta + 1);
    }
  }

  /** n further rungs of at least delta + 1 fit between the magnitude and full scale. */
  predicate Fit(n: nat, delta: nat, magnitude: Q16) { n * (delta + 1) <= UNITY - magnitude }

  lemma LadderBound(rungs: seq<Damped>, cooldown: nat, delta: nat, lo: nat, hi: nat)
    requires Climbs(rungs, cooldown, delta) && lo <= hi < |rungs|
    requires forall i :: lo < i <= hi ==> RepeatsAt(rungs, i, cooldown)
    ensures Fit(hi - lo, delta, rungs[lo].magnitude)
  {
    LadderIsShort(rungs, cooldown, delta, lo, hi);
    var top: Q16 := rungs[hi].magnitude;
  }

  /** The bound on consecutive acceptances inside the cooldown, counting the one the first table may hold already: with
      m0 the first magnitude there are at most (65536 - m0) / (delta + 1) + 1 of them. */
  lemma ChainBounded(
    start: Table, turns: seq<Turn>, policy: Policy, key: (nat, nat), cooldown: nat, rungs: seq<Damped>, lo: nat,
    hi: nat)
    requires Session(start, turns, policy, key, cooldown) && rungs == Rungs(start, turns, key) && lo <= hi < |rungs|
    requires forall i :: lo < i <= hi ==> RepeatsAt(rungs, i, cooldown)
    ensures Fit(hi - lo, policy.hysteresis, rungs[lo].magnitude)
  {
    SessionClimbs(start, turns, policy, key, cooldown);
    LadderBound(rungs, cooldown, policy.hysteresis, lo, hi);
  }
}
