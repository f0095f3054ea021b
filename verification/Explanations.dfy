/** What a propagation writes down is true: every accepted hop met every demand and carried exactly the pressure it
    records, and every refusal names a reason that applied to the edge it gives as its example. */
module Explanations {
  import opened Wrappers
  import opened Records
  import opened Traversal
  import opened RunBounds
  import opened Verdicts

  // ----- closed resources

  /** The reason for which nothing travels on from a settled resource, if any. */
  ghost predicate Shuts(c: Context, node: nat, depth: nat, r: Reason)
    requires node < |c.topo.resources|
  {
    var res := c.topo.resources[node];
    if TooFar(c, 0, depth + 1) then r == MAX_HOPS
    else if !Forwarding(res) then r == PROTECTED_BOUNDARY
    else NoExit(c, res.id) && r == FENCED
  }

  /** The reason for which the origin may not take the pressure, if any. */
  ghost predicate ShutsOrigin(c: Context, r: Reason)
    requires Origin(c) < |c.topo.resources|
  {
    var res := c.topo.resources[Origin(c)];
    if NoEntry(c, res.id) then r == FENCED
    else !Receiving(res) && r == if res.protection.Sealed? then SEALED_RESOURCE else OBSERVED_ONLY_RESOURCE
  }

  lemma ClosedMeans(c: Context, node: nat, depth: nat, r: Reason)
    requires node < |c.topo.resources|
    ensures c.Closed(node, depth) == Some(r) <==> Shuts(c, node, depth, r)
    ensures c.Closed(node, depth).None? ==> !Shuts(c, node, depth, r)
  {
    FencedMeans(c, c.topo.resources[node].id);
    assert depth >= c.AuthorityHops() <==> TooFar(c, 0, depth + 1);
  }

  lemma OriginBlockMeans(c: Context, r: Reason)
    requires Origin(c) < |c.topo.resources|
    ensures OriginBlock(c, Origin(c)) == Some(r) <==> ShutsOrigin(c, r)
  {
    FencedMeans(c, c.topo.resources[Origin(c)].id);
  }

  // ----- evidence

  /** What a run has come to, as far as evidence goes; it only grows. */
  datatype Past = Past(order: seq<Entry>, settled: set<nat>, expansions: nat)

  function PastOf(s: State): Past { Past(s.order, s.settled, s.expansions) }

  predicate Grows(p: Past, q: Past) {
    p.order <= q.order && p.settled <= q.settled && p.expansions <= q.expansions
  }

  /** The reason applied to edge ei when settlement k was expanded or closed. */
  ghost predicate Applied(c: Context, p: Past, ei: nat, k: nat, depth: nat, r: Reason)
    requires ei < |c.topo.edges| && k < |p.order|
  {
    var e := p.order[k];
    && e.node < |c.topo.resources| && e.node == c.topo.IndexOf(c.topo.edges[ei].source) && e.depth == depth
    && (Shuts(c, e.node, depth, r)
        || exists fanout: nat ::
             fanout <= |c.topo.Outs(e.node)| && Blocks(c, p.settled, e, fanout, p.expansions, ei, r))
  }

  /** The origin was closed, and the edge leaves it. */
  ghost predicate AppliedAtOrigin(c: Context, ei: nat, depth: nat, r: Reason)
    requires ei < |c.topo.edges|
  {
    && Origin(c) < |c.topo.resources| && Origin(c) == c.topo.IndexOf(c.topo.edges[ei].source) && depth == 0
    && ShutsOrigin(c, r)
  }

  ghost predicate EvidenceAt(c: Context, p: Past, a: Aggregate, r: Reason, ei: nat) {
    && ei < |c.topo.edges|
    && a.source == c.topo.edges[ei].source && a.target == c.topo.edges[ei].target && a.edge == c.topo.edges[ei].id
    && (AppliedAtOrigin(c, ei, a.depth, r) || exists k :: 0 <= k < |p.order| && Applied(c, p, ei, k, a.depth, r))
  }

  /** Some edge bears the refusal out. */
  ghost predicate Evidence(c: Context, p: Past, a: Aggregate, r: Reason) { exists ei :: EvidenceAt(c, p, a, r, ei) }

  function ExampleOf(x: Suppression): Aggregate { Aggregate(x.source, x.target, x.edge, x.depth, x.count) }

  /** Every refusal waiting or written is borne out. */
  ghost predicate Told(c: Context, p: Past, b: Book) {
    && b.Valid()
    && (forall r: Reason :: b.pending[r].count > 0 ==> Evidence(c, p, b.pending[r], r))
    && (forall k :: 0 <= k < |b.suppressed| ==> Evidence(c, p, ExampleOf(b.suppressed[k]), b.suppressed[k].reason))
  }

  lemma BlocksGrows(c: Context, p: Past, q: Past, e: Entry, fanout: nat, ei: nat, r: Reason)
    requires ei < |c.topo.edges| && p.settled <= q.settled && p.expansions <= q.expansions
    requires Blocks(c, p.settled, e, fanout, p.expansions, ei, r)
    ensures Blocks(c, q.settled, e, fanout, q.expansions, ei, r)
  {
  }

  lemma AppliedGrows(c: Context, p: Past, q: Past, ei: nat, k: nat, depth: nat, r: Reason)
    requires ei < |c.topo.edges| && k < |p.order| && Grows(p, q) && Applied(c, p, ei, k, depth, r)
    ensures Applied(c, q, ei, k, depth, r)
  {
    var e := p.order[k];
    if !Shuts(c, e.node, depth, r) {
      var fanout: nat :| fanout <= |c.topo.Outs(e.node)| && Blocks(c, p.settled, e, fanout, p.expansions, ei, r);
      BlocksGrows(c, p, q, e, fanout, ei, r);
    }
  }

  lemma EvidenceGrows(c: Context, p: Past, q: Past, a: Aggregate, r: Reason)
    requires Grows(p, q) && Evidence(c, p, a, r)
    ensures Evidence(c, q, a, r)
  {
    var ei :| EvidenceAt(c, p, a, r, ei);
    if !AppliedAtOrigin(c, ei, a.depth, r) {
      var k :| 0 <= k < |p.order| && Applied(c, p, ei, k, a.depth, r);
      AppliedGrows(c, p, q, ei, k, a.depth, r);
    }
    assert EvidenceAt(c, q, a, r, ei);
  }

  lemma ToldGrows(c: Context, p: Past, q: Past, b: Book)
    requires Told(c, p, b) && Grows(p, q)
    ensures Told(c, q, b)
  {
    forall r: Reason | b.pending[r].count > 0 ensures Evidence(c, q, b.pending[r], r) {
      EvidenceGrows(c, p, q, b.pending[r], r);
    }
    forall k | 0 <= k < |b.suppressed|
      ensures Evidence(c, q, ExampleOf(b.suppressed[k]), b.suppressed[k].reason)
    {
      EvidenceGrows(c, p, q, ExampleOf(b.suppressed[k]), b.suppressed[k].reason);
    }
  }

  /** How many edges a refusal stands for is no part of the evidence. */
  lemma EvidenceOf(c: Context, p: Past, a: Aggregate, n: nat, r: Reason)
    requires Evidence(c, p, a, r)
    ensures Evidence(c, p, a.(count := n), r)
  {
    var ei :| EvidenceAt(c, p, a, r, ei);
    assert EvidenceAt(c, p, a.(count := n), r, ei);
  }

  lemma RejectTold(c: Context, p: Past, b: Book, ei: nat, depth: nat, r: Reason)
    requires Told(c, p, b) && ei < |c.topo.edges|
    requires var e := c.topo.edges[ei]; EvidenceAt(c, p, Aggregate(e.source, e.target, e.id, depth, 0), r, ei)
    ensures Told(c, p, Reject(b, c.topo.edges[ei], depth, r))
  {
    var e := c.topo.edges[ei];
    var fresh_ := Aggregate(e.source, e.target, e.id, depth, 0);
    assert Evidence(c, p, fresh_, r);
    var a := if b.pending[r].count == 0 then fresh_ else b.pending[r];
    EvidenceOf(c, p, a, Reject(b, e, depth, r).pending[r].count, r);
    assert Evidence(c, p, Reject(b, e, depth, r).pending[r], r);
  }

  lemma SlotTold(c: Context, p: Past, b: Book, slot: nat)
    requires Told(c, p, b) && slot < REASON_COUNT
    ensures Told(c, p, FlushSlot(b, slot).book)
  {
    var after := FlushSlot(b, slot).book;
    forall k | 0 <= k < |after.suppressed|
      ensures Evidence(c, p, ExampleOf(after.suppressed[k]), after.suppressed[k].reason)
    {
      if k < |b.suppressed| { assert after.suppressed[k] == b.suppressed[k]; }
    }
  }

  lemma {:induction false} FlushTold(c: Context, p: Past, b: Book, slot: nat)
    requires Told(c, p, b) && slot <= REASON_COUNT
    ensures Told(c, p, FlushFrom(b, slot).book)
    decreases REASON_COUNT - slot
  {
    if slot < REASON_COUNT {
      SlotTold(c, p, b, slot);
      FlushTold(c, p, FlushSlot(b, slot).book, slot + 1);
    }
  }

  // ----- hops

  /** The hop crossed edge ei from settlement k: no lasting reason spoke against it, and the pressure, gain and flag it
      records are exactly what the edge makes of the settlement's. */
  ghost predicate LawfulAt(c: Context, order: seq<Entry>, h: Hop, ei: nat, k: nat) {
    && ei < |c.topo.edges| && k < |order| && order[k].node < |c.topo.resources|
    && var edge, e := c.topo.edges[ei], order[k];
       && e.node == c.topo.IndexOf(edge.source)
       && h.source == c.topo.resources[e.node].id && h.target == edge.target && h.edge == edge.id && h.depth == e.depth
       && h.attenuation == edge.attenuation && h.gain == edge.amplification && h.before == e.potential
       && h.after == Raised(e.potential, edge) && h.cumulative == RaisedGain(e.gain, edge)
       && h.amplified == (e.amplified || Amplifies(edge))
       && (forall r: Reason :: !Shuts(c, e.node, e.depth, r))
       && (forall r: Reason :: !Blocks(c, {}, e, 0, 0, ei, r))
  }

  ghost predicate Lawful(c: Context, order: seq<Entry>, h: Hop) { exists ei, k :: LawfulAt(c, order, h, ei, k) }

  ghost predicate AllLawful(c: Context, order: seq<Entry>, hops: seq<Hop>) {
    forall j :: 0 <= j < |hops| ==> Lawful(c, order, hops[j])
  }

  lemma LawfulGrows(c: Context, order: seq<Entry>, more: seq<Entry>, hops: seq<Hop>)
    requires AllLawful(c, order, hops) && order <= more
    ensures AllLawful(c, more, hops)
  {
    forall j | 0 <= j < |hops| ensures Lawful(c, more, hops[j]) {
      assert Lawful(c, order, hops[j]);
      var ei, k :| LawfulAt(c, order, hops[j], ei, k);
      assert LawfulAt(c, more, hops[j], ei, k);
    }
  }

  // ----- steps

  /** A resource being expanded is open; one being closed has its reason. */
  ghost predicate Placed(c: Context, s: State) {
    && (s.mode.Expanding? ==>
          && s.mode.entry.node < |c.topo.resources| && s.order != [] && Last(s.order) == s.mode.entry
          && c.Closed(s.mode.entry.node, s.mode.entry.depth).None? && s.mode.fanout <= s.mode.cursor)
    && (s.mode.Refusing? ==>
          && s.mode.node < |c.topo.resources|
          && if s.order == [] then s.mode.node == Origin(c) && s.mode.depth == 0 && ShutsOrigin(c, s.mode.reason)
             else Last(s.order).node == s.mode.node && Last(s.order).depth == s.mode.depth
                  && Shuts(c, s.mode.node, s.mode.depth, s.mode.reason))
  }

  ghost predicate Honest(c: Context, s: State) {
    Told(c, PastOf(s), s.book) && AllLawful(c, s.order, s.book.hops) && Placed(c, s)
  }

  lemma FinishHonest(c: Context, s: State, ending: Ending)
    requires Told(c, PastOf(s), s.book) && AllLawful(c, s.order, s.book.hops)
    ensures Honest(c, Finish(s, ending))
  {
    FlushTold(c, PastOf(s), s.book, 0);
  }

  lemma SettleHonest(c: Context, s: State, e: Entry)
    requires Honest(c, s) && s.mode.Selecting? && e.node < |c.topo.resources|
    ensures Honest(c, Settle(c, s, e))
  {
    var f := if s.window == Some(e.node) then Flushed(s.book, true) else Flush(s.book);
    FlushTold(c, PastOf(s), s.book, 0);
    var s1 := s.(settled := s.settled + {e.node}, book := f.book, window := Some(e.node));
    ToldGrows(c, PastOf(s), PastOf(s1), f.book);
    if f.ok {
      var more := s.order + [e];
      ToldGrows(c, PastOf(s1), PastOf(s1).(order := more), f.book);
      LawfulGrows(c, s.order, more, s.book.hops);
      var shut := c.Closed(e.node, e.depth);
      if shut.Some? { ClosedMeans(c, e.node, e.depth, shut.value); }
    } else {
      FinishHonest(c, s1.(truncated := true), RecordBudget);
    }
  }

  lemma SelectHonest(c: Context, s: State, i: nat)
    requires Honest(c, s) && s.mode.Selecting? && i < |s.queue|
    ensures Honest(c, Select(c, s, i))
  {
    var s1 := s.(queue := Without(s.queue, i));
    if s.queue[i].node < |c.topo.resources| && s.queue[i].node !in s.settled { SettleHonest(c, s1, s.queue[i]); }
  }

  /** A refusal while expanding is borne out by the settlement being expanded. */
  lemma RefuseHonest(c: Context, s: State, ei: nat, r: Reason)
    requires Honest(c, s) && s.mode.Expanding? && ei < |c.topo.edges|
    requires s.mode.entry.node == c.topo.IndexOf(c.topo.edges[ei].source)
    requires s.mode.fanout <= |c.topo.Outs(s.mode.entry.node)|
    requires Blocks(c, s.settled, s.mode.entry, s.mode.fanout, s.expansions, ei, r)
    ensures Told(c, PastOf(s), Reject(s.book, c.topo.edges[ei], s.mode.entry.depth, r))
  {
    var k := |s.order| - 1;
    assert Applied(c, PastOf(s), ei, k, s.mode.entry.depth, r);
    RejectTold(c, PastOf(s), s.book, ei, s.mode.entry.depth, r);
  }

  /** Without limits on fan-out and expansions used up, and nothing settled, fewer reasons apply. */
  lemma LastingReasons(c: Context, settled: set<nat>, e: Entry, fanout: nat, expansions: nat, ei: nat)
    requires ei < |c.topo.edges| && c.Decide(settled, e, fanout, expansions, ei).Carry?
    ensures forall r: Reason :: !Blocks(c, {}, e, 0, 0, ei, r)
  {
    forall r: Reason ensures !Blocks(c, {}, e, 0, 0, ei, r) {
      AcceptanceExact(c, settled, e, fanout, expansions, ei, r);
      if Blocks(c, {}, e, 0, 0, ei, r) { FewerBlocks(c, settled, e, fanout, expansions, ei, r); }
    }
  }

  lemma FewerBlocks(c: Context, settled: set<nat>, e: Entry, fanout: nat, expansions: nat, ei: nat, r: Reason)
    requires ei < |c.topo.edges| && Blocks(c, {}, e, 0, 0, ei, r)
    ensures Blocks(c, settled, e, fanout, expansions, ei, r)
  {
  }

  lemma AcceptHonest(c: Context, s: State, ei: nat)
    requires Honest(c, s) && s.mode.Expanding? && ei < |c.topo.edges| && s.book.budget > 0
    requires s.mode.entry.node == c.topo.IndexOf(c.topo.edges[ei].source)
    requires c.Decide(s.settled, s.mode.entry, s.mode.fanout, s.expansions, ei).Carry?
    ensures var d := c.Decide(s.settled, s.mode.entry, s.mode.fanout, s.expansions, ei);
            var s' := Accept(c, s, s.mode.entry, ei, d);
            Told(c, PastOf(s'), s'.book) && AllLawful(c, s'.order, s'.book.hops)
  {
    var e := s.mode.entry;
    var d := c.Decide(s.settled, e, s.mode.fanout, s.expansions, ei);
    var s' := Accept(c, s, e, ei, d);
    ToldGrows(c, PastOf(s), PastOf(s'), s.book);
    LastingReasons(c, s.settled, e, s.mode.fanout, s.expansions, ei);
    AcceptanceExact(c, s.settled, e, s.mode.fanout, s.expansions, ei, MAX_HOPS);
    forall r: Reason ensures !Shuts(c, e.node, e.depth, r) { ClosedMeans(c, e.node, e.depth, r); }
    var h := s'.book.hops[|s.book.hops|];
    assert LawfulAt(c, s.order, h, ei, |s.order| - 1);
    forall j | 0 <= j < |s'.book.hops| ensures Lawful(c, s.order, s'.book.hops[j]) {
      if j < |s.book.hops| { assert s'.book.hops[j] == s.book.hops[j]; }
    }
  }

  lemma ExpandHonest(c: Context, s: State)
    requires c.Valid() && Sane(c, s) && Honest(c, s) && s.mode.Expanding?
    ensures Honest(c, Expand(c, s))
  {
    var Expanding(e, cursor, fanout) := s.mode;
    var outs := c.topo.Outs(e.node);
    if cursor < |outs| {
      var ei := outs[cursor];
      OutInRange(c, e.node, cursor);
      var d := c.Decide(s.settled, e, fanout, s.expansions, ei);
      if d.Refuse? {
        RefusalExact(c, s.settled, e, fanout, s.expansions, ei, d.reason);
        RefuseHonest(c, s, ei, d.reason);
      } else if s.book.budget == 0 {
        FinishHonest(c, s.(considered := s.considered + 1, truncated := true), RecordBudget);
      } else {
        AcceptHonest(c, s, ei);
      }
    } else if s.budgetStop {
      FinishHonest(c, s, ExpansionBudget);
    }
  }

  lemma ShutHonest(c: Context, s: State)
    requires c.Valid() && Sane(c, s) && Honest(c, s) && s.mode.Refusing?
    ensures Honest(c, Shut(c, s))
  {
    var Refusing(node, depth, reason, cursor) := s.mode;
    var outs := c.topo.Outs(node);
    if cursor < |outs| {
      var ei := outs[cursor];
      OutInRange(c, node, cursor);
      if s.order != [] {
        assert Applied(c, PastOf(s), ei, |s.order| - 1, depth, reason);
      } else {
        assert AppliedAtOrigin(c, ei, depth, reason);
      }
      RejectTold(c, PastOf(s), s.book, ei, depth, reason);
    } else {
      FlushTold(c, PastOf(s), s.book, 0);
    }
  }

  lemma StepHonest(c: Context, s: State, i: nat)
    requires c.Valid() && Sane(c, s) && Honest(c, s) && !s.mode.Finished?
    requires s.mode.Selecting? && s.queue != [] ==> i < |s.queue|
    ensures Honest(c, Step(c, s, i))
  {
    match s.mode
    case Selecting =>
      if s.queue == [] { FinishHonest(c, s, Drained); }
      else if |s.order| >= c.policy.maxVisited { FinishHonest(c, s, VisitedBudget); }
      else { SelectHonest(c, s, i); }
    case Expanding(_, _, _) => ExpandHonest(c, s);
    case Refusing(_, _, _, _) => ShutHonest(c, s);
  }

  lemma StartHonest(c: Context, run: seq<State>)
    requires IsRun(c, run)
    ensures Honest(c, run[0])
  {
    if Start(c).value.mode.Refusing? { OriginBlockMeans(c, Start(c).value.mode.reason); }
  }

  lemma {:induction false} RunHonest(c: Context, run: seq<State>, k: nat)
    requires c.Valid() && IsRun(c, run) && k < |run|
    ensures Honest(c, run[k])
  {
    if k == 0 {
      StartHonest(c, run);
    } else {
      RunHonest(c, run, k - 1);
      NextHonest(c, run, k);
    }
  }

  lemma NextHonest(c: Context, run: seq<State>, k: nat)
    requires c.Valid() && 0 < k < |run| && FollowsAt(c, run, k) && Honest(c, run[k - 1])
    ensures Honest(c, run[k])
  {
    var i := PickOf(c, run[k - 1], run[k]);
    StepHonest(c, run[k - 1], i);
  }

  /** Every refusal written by a run, truncated or not, is borne out by the edge it gives as its example. */
  lemma RefusalsAreTrue(c: Context, run: seq<State>, k: nat)
    requires c.Valid() && IsRun(c, run) && k < |Final(run).book.suppressed|
    ensures var x := Final(run).book.suppressed[k]; Evidence(c, PastOf(Final(run)), ExampleOf(x), x.reason)
  {
    RunHonest(c, run, |run| - 1);
  }

  /** Every hop a run accepted was lawful and carried exactly the pressure it records. */
  lemma HopsAreLawful(c: Context, run: seq<State>, j: nat)
    requires c.Valid() && IsRun(c, run) && j < |Final(run).book.hops|
    ensures Lawful(c, Final(run).order, Final(run).book.hops[j])
  {
    RunHonest(c, run, |run| - 1);
  }
}
