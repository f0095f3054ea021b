/** One propagation as a state machine: a best-first worklist over a possibly cyclic topology.
    A step settles the chosen queue entry, considers one outgoing edge, or ends the run. */
module Traversal {
  import opened Wrappers
  import opened FixedPoint
  import opened Model
  import opened Graph
  import opened Records

  /** The last accepted propagation over one dependency. */
  datatype Damped = Damped(magnitude: Q16, tick: nat)

  datatype Link = Root | Via(node: nat, edge: nat)

  datatype Entry = Entry(potential: Potential, node: nat, depth: nat, gain: nat, amplified: bool, link: Link)

  datatype Decision = Refuse(reason: Reason) | Carry(next: Potential, gain: nat, amplified: bool)

  /** Everything a run reads and never changes. */
  datatype Context = Context(topo: Topology, policy: Policy, fences: seq<Fence>,
                             damping: map<(nat, nat), Damped>, now: nat, pins: map<nat, nat>,
                             signal: Signal, budget: nat)
  {
    ghost predicate Valid() { topo.Valid() }

    function Seed(): Potential { FromMagnitude(signal.magnitude) }

    function AuthorityHops(): nat {
      if signal.authority.maxHops == 0 then policy.maxHops else Min(signal.authority.maxHops, policy.maxHops)
    }

    predicate Granted() { policy.allowAmplification && signal.authority.amplify }

    function GrantedGain(): Gain {
      if Granted() then Min(policy.maxGain, signal.authority.maxGain) else UNITY
    }

    predicate IngressFenced(resource: nat) {
      var f := Governing(fences, resource, now);
      f.Some? && f.value.RefusesIngress()
    }

    predicate EgressFenced(resource: nat) {
      var f := Governing(fences, resource, now);
      f.Some? && f.value.RefusesEgress()
    }

    /** The reason a settled resource may not expand, if any. */
    function Closed(node: nat, depth: nat): Option<Reason>
      requires node < |topo.resources|
    {
      var res := topo.resources[node];
      if depth >= AuthorityHops() then Some(MAX_HOPS)
      else if !res.CanForward() then Some(PROTECTED_BOUNDARY)
      else if EgressFenced(res.id) then Some(FENCED)
      else None
    }

    /** Checks made before the target is looked up among the settled resources. */
    function Barred(ei: nat): Option<Reason>
      requires ei < |topo.edges|
    {
      var edge := topo.edges[ei];
      var to := topo.Target(ei);
      if ei in pins && pins[ei] != edge.generation then Some(STALE_DEPENDENCY)
      else if edge.attenuation == 0 then Some(ZERO_ATTENUATION)
      else if edge.recoveryOnly then Some(RECOVERY_ONLY)
      else if to >= |topo.resources| then Some(MISSING_RESOURCE)
      else if !topo.resources[to].CanReceive() then
        Some(if topo.resources[to].protection == Sealed then SEALED_RESOURCE else OBSERVED_ONLY_RESOURCE)
      else None
    }

    /** Checks made after it. */
    function Forbidden(ei: nat): Option<Reason>
      requires ei < |topo.edges|
    {
      var edge := topo.edges[ei];
      if !signal.authority.Covers(edge.target) then Some(UNAUTHORIZED_SCOPE)
      else if IngressFenced(edge.target) then Some(FENCED)
      else None
    }

    function HopBound(ei: nat): nat
      requires ei < |topo.edges|
    {
      Min(policy.EffectiveHops(topo.edges[ei].maxHops), AuthorityHops())
    }

    /** Inside the cooldown window a repeat must beat the last accepted magnitude by more than the delta. */
    predicate Damps(ei: nat, next: Potential)
      requires ei < |topo.edges|
    {
      var edge := topo.edges[ei];
      var cooldown := policy.EffectiveCooldown(edge.cooldown);
      var key := (edge.target, edge.id);
      cooldown > 0 && key in damping
      && (if now > damping[key].tick then now - damping[key].tick else 0) < cooldown
      && ToMagnitude(next) <= Min(UNITY, damping[key].magnitude + policy.hysteresis)
    }

    function TooWeak(ei: nat, next: Potential): Option<Reason>
      requires ei < |topo.edges|
    {
      if next < FromMagnitude(policy.floor) then Some(BELOW_FLOOR)
      else if Damps(ei, next) then Some(HYSTERESIS)
      else None
    }

    /** Attenuate, amplify under authority, then apply the floor and the damping window. */
    function Cross(ei: nat, p: Potential, gain: nat, amplified: bool): Decision
      requires ei < |topo.edges|
    {
      var edge := topo.edges[ei];
      var next := Attenuated(p, edge.attenuation);
      if !edge.IsAmplifying() then Deliver(ei, next, gain, amplified)
      else if !Granted() then Refuse(AMPLIFICATION_NOT_AUTHORIZED)
      else
        var requested := gain * edge.amplification / UNITY;
        var raised := Amplified(next, edge.amplification);
        if requested > GrantedGain() || raised.None? then Refuse(AMPLIFICATION_BUDGET)
        else Deliver(ei, raised.value, requested, true)
    }

    function Deliver(ei: nat, next: Potential, gain: nat, amplified: bool): Decision
      requires ei < |topo.edges|
    {
      var weak := TooWeak(ei, next);
      if weak.Some? then Refuse(weak.value) else Carry(next, gain, amplified)
    }

    /** The verdict on one outgoing edge of the entry being expanded. */
    function Decide(settled: set<nat>, e: Entry, fanout: nat, expansions: nat, ei: nat): Decision
      requires ei < |topo.edges|
    {
      if fanout >= policy.maxFanout then Refuse(MAX_FANOUT)
      else if expansions >= policy.maxExpansions then Refuse(EXPANSION_BUDGET)
      else if Barred(ei).Some? then Refuse(Barred(ei).value)
      else if topo.Target(ei) in settled then Refuse(NODE_ALREADY_SETTLED)
      else if Forbidden(ei).Some? then Refuse(Forbidden(ei).value)
      else if e.depth + 1 > HopBound(ei) then Refuse(MAX_HOPS)
      else Cross(ei, e.potential, e.gain, e.amplified)
    }
  }

  // ----- the worklist order

  /** Lower potential, then more hops, then higher resource index. */
  predicate Below(a: Entry, b: Entry) {
    if a.potential != b.potential then a.potential < b.potential
    else if a.depth != b.depth then a.depth > b.depth
    else a.node > b.node
  }

  predicate Maximal(queue: seq<Entry>, i: nat) {
    i < |queue| && forall j :: 0 <= j < |queue| ==> !Below(queue[i], queue[j])
  }

  function Without<T>(s: seq<T>, i: nat): seq<T>
    requires i < |s|
  {
    s[..i] + s[i + 1..]
  }

  // ----- run state

  datatype Ending = Drained | VisitedBudget | ExpansionBudget | RecordBudget

  datatype Mode =
    | Selecting
    | Expanding(entry: Entry, cursor: nat, fanout: nat)
    | Refusing(node: nat, depth: nat, reason: Reason, cursor: nat)
    | Finished(ending: Ending)

  datatype State = State(
    mode: Mode,
    queue: seq<Entry>,
    settled: set<nat>,       // resources that may not be entered again
    order: seq<Entry>,       // settlement records, in settlement order
    forwarded: set<nat>,
    book: Book,
    window: Option<nat>,     // resource whose refusals are being aggregated
    expansions: nat,
    considered: nat,
    refused: nat,
    budgetStop: bool,
    truncated: bool)

  function Finish(s: State, ending: Ending): State
    requires s.book.Valid()
  {
    var f := Flush(s.book);
    s.(mode := Finished(ending), book := f.book, truncated := s.truncated || !f.ok)
  }

  function Refused(s: State, edge: Edge, depth: nat, r: Reason): State
    requires s.book.Valid()
  {
    s.(book := Reject(s.book, edge, depth, r), considered := s.considered + 1, refused := s.refused + 1)
  }

  /** Settle an entry whose resource is still open. */
  function Settle(c: Context, s: State, e: Entry): State
    requires s.book.Valid() && e.node < |c.topo.resources|
  {
    var f := if s.window == Some(e.node) then Flushed(s.book, true) else Flush(s.book);
    var s1 := s.(settled := s.settled + {e.node}, book := f.book, window := Some(e.node));
    if !f.ok then Finish(s1.(truncated := true), RecordBudget)
    else
      var shut := c.Closed(e.node, e.depth);
      s1.(order := s.order + [e],
          mode := if shut.Some? then Refusing(e.node, e.depth, shut.value, 0) else Expanding(e, 0, 0))
  }

  /** Take queue entry i. */
  function Select(c: Context, s: State, i: nat): State
    requires s.book.Valid() && i < |s.queue|
  {
    var e := s.queue[i];
    var s1 := s.(queue := Without(s.queue, i));
    if e.node >= |c.topo.resources| || e.node in s.settled then s1.(mode := Selecting) else Settle(c, s1, e)
  }

  /** What every reachable state satisfies at the level of indices. */
  predicate Sane(c: Context, s: State) {
    && s.book.Valid()
    && (s.mode.Expanding? ==>
          s.mode.entry.node < |c.topo.resources| && s.mode.cursor <= |c.topo.Outs(s.mode.entry.node)|)
    && (s.mode.Refusing? ==> s.mode.cursor <= |c.topo.Outs(s.mode.node)|)
  }

  /** Accept edge `ei` from entry `e`: one hop record and one queue entry. */
  function Accept(c: Context, s: State, e: Entry, ei: nat, d: Decision): State
    requires ei < |c.topo.edges| && e.node < |c.topo.resources| && d.Carry? && s.book.budget > 0
  {
    var edge := c.topo.edges[ei];
    var hop := Hop(c.topo.resources[e.node].id, edge.target, edge.id, e.depth, edge.attenuation,
                   edge.amplification, e.potential, d.next, d.gain, d.amplified);
    s.(queue := s.queue + [Entry(d.next, c.topo.Target(ei), e.depth + 1, d.gain, d.amplified, Via(e.node, ei))],
       forwarded := s.forwarded + {e.node},
       book := s.book.(hops := s.book.hops + [hop], budget := s.book.budget - 1),
       expansions := s.expansions + 1,
       considered := s.considered + 1)
  }

  /** Consider edge `ei` of the expanding resource. */
  function Consider(c: Context, s: State, ei: nat): State
    requires Sane(c, s) && s.mode.Expanding?
  {
    var Expanding(e, cursor, fanout) := s.mode;
    if ei >= |c.topo.edges| then s.(mode := Expanding(e, cursor + 1, fanout), considered := s.considered + 1)
    else
      var d := c.Decide(s.settled, e, fanout, s.expansions, ei);
      if d.Refuse? then
        Refused(s, c.topo.edges[ei], e.depth, d.reason).(
          mode := Expanding(e, cursor + 1, fanout), budgetStop := s.budgetStop || d.reason == EXPANSION_BUDGET)
      else if s.book.budget == 0 then
        Finish(s.(considered := s.considered + 1, truncated := true), RecordBudget)
      else Accept(c, s, e, ei, d).(mode := Expanding(e, cursor + 1, fanout + 1))
  }

  /** Move past the edge under the cursor of an expanding resource, or leave it. */
  function Expand(c: Context, s: State): (s': State)
    requires Sane(c, s) && s.mode.Expanding?
  {
    var outs := c.topo.Outs(s.mode.entry.node);
    if s.mode.cursor < |outs| then Consider(c, s, outs[s.mode.cursor])
    else if s.budgetStop then Finish(s, ExpansionBudget)
    else s.(mode := Selecting)
  }

  /** Refuse the edge under the cursor of a closed resource, or flush and leave it. */
  function Shut(c: Context, s: State): (s': State)
    requires Sane(c, s) && s.mode.Refusing?
  {
    var Refusing(node, depth, reason, cursor) := s.mode;
    var outs := c.topo.Outs(node);
    if cursor < |outs| then
      var counted := if outs[cursor] < |c.topo.edges| then Refused(s, c.topo.edges[outs[cursor]], depth, reason)
                     else s.(considered := s.considered + 1);
      counted.(mode := Refusing(node, depth, reason, cursor + 1))
    else
      var f := Flush(s.book);
      s.(mode := Selecting, book := f.book, truncated := s.truncated || !f.ok)
  }

  /** On a built topology every row entry is an edge that leaves the row's resource. */
  lemma OutInRange(c: Context, node: nat, j: nat)
    requires c.Valid() && node < |c.topo.resources| && j < |c.topo.Outs(node)|
    ensures c.topo.Outs(node)[j] < |c.topo.edges|
    ensures c.topo.IndexOf(c.topo.edges[c.topo.Outs(node)[j]].source) == node
  {
    assert c.topo.RowExact(node);
  }

  /** One step; `i` is the queue position picked when an entry is selected. */
  function Step(c: Context, s: State, i: nat): (s': State)
    requires Sane(c, s) && !s.mode.Finished?
    requires s.mode.Selecting? && s.queue != [] ==> i < |s.queue|
  {
    match s.mode
    case Selecting =>
      if s.queue == [] then Finish(s, Drained)
      else if |s.order| >= c.policy.maxVisited then Finish(s, VisitedBudget)
      else Select(c, s, i)
    case Expanding(_, _, _) => Expand(c, s)
    case Refusing(_, _, _, _) => Shut(c, s)
  }

  // ----- starting

  /** Whether the origin itself may take the pressure. */
  function OriginBlock(c: Context, origin: nat): Option<Reason>
    requires origin < |c.topo.resources|
  {
    var res := c.topo.resources[origin];
    if c.IngressFenced(res.id) then Some(FENCED)
    else if !res.CanReceive() then
      Some(if res.protection == Sealed then SEALED_RESOURCE else OBSERVED_ONLY_RESOURCE)
    else None
  }

  function Origin(c: Context): nat { c.topo.IndexOf(c.signal.origin) }

  /** The origin is declared and may take the pressure. */
  predicate OriginOpen(c: Context) {
    Origin(c) < |c.topo.resources| && OriginBlock(c, Origin(c)).None?
  }

  function SeedEntry(c: Context, origin: nat): Entry { Entry(c.Seed(), origin, 0, UNITY, false, Root) }

  function Blank(c: Context): State {
    State(Selecting, [], {}, [], {}, EmptyBook(c.budget), None, 0, 0, 0, false, false)
  }

  /** The first state of a run, or the error that stops it before any work. */
  function Start(c: Context): (r: Result<State>)
  {
    var origin := c.topo.IndexOf(c.signal.origin);
    if origin >= |c.topo.resources| then Err(NotFound)
    else if c.Seed() == 0 then Err(UnknownPressure)
    else
      var block := OriginBlock(c, origin);
      Ok(if block.Some? then Blank(c).(mode := Refusing(origin, 0, block.value, 0))
         else Blank(c).(queue := [SeedEntry(c, origin)]))
  }

  // ----- runs

  /** s' follows s by a step whose selection is maximal under the worklist order. */
  ghost predicate Follows(c: Context, s: State, s': State) {
    && Sane(c, s) && !s.mode.Finished?
    && if s.mode.Selecting? && s.queue != [] then exists i :: Maximal(s.queue, i) && s' == Step(c, s, i)
       else s' == Step(c, s, 0)
  }

  ghost predicate IsRun(c: Context, run: seq<State>) {
    && run != [] && Start(c).Ok? && run[0] == Start(c).value
    && forall k :: 0 < k < |run| ==> FollowsAt(c, run, k)
  }

  /** Step k of the run; instances are looked into only where they are asked for. */
  ghost predicate FollowsAt(c: Context, run: seq<State>, k: nat)
    requires 0 < k < |run|
  {
    Follows(c, run[k - 1], run[k])
  }

  ghost predicate IsCompleteRun(c: Context, run: seq<State>) {
    IsRun(c, run) && Final(run).mode.Finished?
  }

  function Final(run: seq<State>): State
    requires run != []
  {
    run[|run| - 1]
  }

  lemma RunGrows(c: Context, run: seq<State>, s: State)
    requires IsRun(c, run) && Follows(c, Final(run), s)
    ensures IsRun(c, run + [s]) && Final(run + [s]) == s
  {
    var more := run + [s];
    forall k | 0 < k < |more| ensures FollowsAt(c, more, k) {
      if k < |run| { assert FollowsAt(c, run, k); }
      assert more[k - 1] == run[k - 1];
    }
  }
}
