/** What every run keeps: indices stay in range, each resource settles at most once, and depth,
    fan-out, expansions and settlements respect their limits, on every topology, cyclic or not. */
module RunBounds {
  import opened FixedPoint
  import opened Traversal

  function Last(order: seq<Entry>): Entry
    requires order != []
  {
    order[|order| - 1]
  }

  /** The resources named by settlement records. */
  function Nodes(order: seq<Entry>): set<nat> {
    if order == [] then {} else Nodes(order[..|order| - 1]) + {Last(order).node}
  }

  lemma {:induction false} NodesOf(order: seq<Entry>, x: nat)
    ensures x in Nodes(order) <==> exists k :: 0 <= k < |order| && order[k].node == x
  {
    if order != [] {
      var front := order[..|order| - 1];
      NodesOf(front, x);
      if x in Nodes(front) {
        var k :| 0 <= k < |front| && front[k].node == x;
        assert order[k].node == x;
      } else if Last(order).node == x {
        assert order[|order| - 1].node == x;
      } else if exists k :: 0 <= k < |order| && order[k].node == x {
        var k :| 0 <= k < |order| && order[k].node == x;
        assert front[k].node == x;
      }
    }
  }

  ghost predicate Distinct(order: seq<Entry>) {
    forall j, k :: 0 <= j < k < |order| ==> order[j].node != order[k].node
  }

  ghost predicate InRange(n: nat, hops: nat, entries: seq<Entry>) {
    forall j :: 0 <= j < |entries| ==> entries[j].node < n && entries[j].depth <= hops
  }

  /** Settlement records name distinct resources, all of them closed to re-entry; unless a record was
      lost, nothing else is closed. */
  ghost predicate SettledOnce(order: seq<Entry>, settled: set<nat>, truncated: bool) {
    Distinct(order) && Nodes(order) <= settled && (!truncated ==> settled == Nodes(order))
  }

  ghost predicate Within(c: Context, s: State) {
    && |s.order| <= c.policy.maxVisited
    && s.expansions == |s.book.hops| <= c.policy.maxExpansions
    && (s.mode.Expanding? ==> s.mode.fanout <= Min(s.mode.cursor, c.policy.maxFanout))
    && InRange(|c.topo.resources|, c.AuthorityHops(), s.queue)
    && InRange(|c.topo.resources|, c.AuthorityHops(), s.order)
    && (s.window.Some? ==> s.window.value in s.settled)
  }

  /** The resource being expanded or refused is the one settled last; a blocked origin settles nothing. */
  ghost predicate Focused(s: State) {
    && (s.mode.Expanding? ==> s.order != [] && Last(s.order) == s.mode.entry)
    && (s.mode.Refusing? ==>
          if s.order == [] then s.queue == []
          else Last(s.order).node == s.mode.node && Last(s.order).depth == s.mode.depth)
  }

  ghost predicate Bounded(c: Context, s: State) {
    Sane(c, s) && SettledOnce(s.order, s.settled, s.truncated) && Within(c, s) && Focused(s)
  }

  lemma Snoc(order: seq<Entry>, e: Entry)
    requires Distinct(order) && e.node !in Nodes(order)
    ensures Distinct(order + [e]) && Nodes(order + [e]) == Nodes(order) + {e.node}
  {
    assert (order + [e])[..|order|] == order;
    forall j | 0 <= j < |order| ensures order[j].node != e.node { NodesOf(order, order[j].node); }
  }

  lemma SelectSettledOnce(c: Context, s: State, i: nat)
    requires s.book.Valid() && SettledOnce(s.order, s.settled, s.truncated) && i < |s.queue|
    ensures var s' := Select(c, s, i); SettledOnce(s'.order, s'.settled, s'.truncated)
  {
    var e := s.queue[i];
    if e.node !in s.settled {
      Snoc(s.order, e);
      if e.node < |c.topo.resources| { SettleSettledOnce(c, s.(queue := Without(s.queue, i)), e); }
    }
  }

  lemma SettleSettledOnce(c: Context, s: State, e: Entry)
    requires s.book.Valid() && SettledOnce(s.order, s.settled, s.truncated) && e.node < |c.topo.resources|
    requires Distinct(s.order + [e]) && Nodes(s.order + [e]) == Nodes(s.order) + {e.node}
    ensures var s' := Settle(c, s, e); SettledOnce(s'.order, s'.settled, s'.truncated)
  {
  }

  lemma SelectWithin(c: Context, s: State, i: nat)
    requires Sane(c, s) && Within(c, s) && s.mode.Selecting? && i < |s.queue| && |s.order| < c.policy.maxVisited
    ensures Within(c, Select(c, s, i))
  {
    assert InRange(|c.topo.resources|, c.AuthorityHops(), Without(s.queue, i));
    assert InRange(|c.topo.resources|, c.AuthorityHops(), s.order + [s.queue[i]]);
  }

  lemma SelectFocused(c: Context, s: State, i: nat)
    requires Sane(c, s) && s.mode.Selecting? && i < |s.queue|
    ensures Sane(c, Select(c, s, i)) && Focused(Select(c, s, i))
  {
  }

  lemma ExpandWithin(c: Context, s: State)
    requires Sane(c, s) && Within(c, s) && s.mode.Expanding?
    ensures Within(c, Expand(c, s))
  {
    var outs := c.topo.Outs(s.mode.entry.node);
    if s.mode.cursor < |outs| && outs[s.mode.cursor] < |c.topo.edges|
       && c.Decide(s.settled, s.mode.entry, s.mode.fanout, s.expansions, outs[s.mode.cursor]).Carry? {
      DecideWithin(c, s.settled, s.mode.entry, s.mode.fanout, s.expansions, outs[s.mode.cursor]);
    }
  }

  lemma ExpandFocused(c: Context, s: State)
    requires Sane(c, s) && Focused(s) && SettledOnce(s.order, s.settled, s.truncated) && s.mode.Expanding?
    ensures var s' := Expand(c, s);
            Sane(c, s') && Focused(s') && SettledOnce(s'.order, s'.settled, s'.truncated)
  {
  }

  /** An accepted edge had fan-out, expansions and hops to spare, and leads to an open resource that
      can receive, is covered by authority and has no ingress-refusing governing fence. */
  lemma DecideWithin(c: Context, settled: set<nat>, e: Entry, fanout: nat, expansions: nat, ei: nat)
    requires ei < |c.topo.edges| && c.Decide(settled, e, fanout, expansions, ei).Carry?
    ensures fanout < c.policy.maxFanout && expansions < c.policy.maxExpansions
    ensures e.depth + 1 <= c.HopBound(ei) <= c.AuthorityHops()
    ensures c.topo.Target(ei) < |c.topo.resources| && c.topo.Target(ei) !in settled
    ensures c.Barred(ei).None? && c.Forbidden(ei).None?
    ensures c.Decide(settled, e, fanout, expansions, ei) == c.Cross(ei, e.potential, e.gain, e.amplified)
  {
  }

  lemma StepBounded(c: Context, s: State, i: nat)
    requires Bounded(c, s) && !s.mode.Finished?
    requires s.mode.Selecting? && s.queue != [] ==> i < |s.queue|
    ensures Bounded(c, Step(c, s, i))
  {
    match s.mode
    case Selecting =>
      if s.queue != [] && |s.order| < c.policy.maxVisited {
        SelectSettledOnce(c, s, i);
        SelectWithin(c, s, i);
        SelectFocused(c, s, i);
      }
    case Expanding(_, _, _) =>
      ExpandWithin(c, s);
      ExpandFocused(c, s);
    case Refusing(_, _, _, _) =>
  }

  /** The selection behind a step of a run. */
  lemma PickOf(c: Context, s: State, s': State) returns (i: nat)
    requires Follows(c, s, s')
    ensures s.mode.Selecting? && s.queue != [] ==> Maximal(s.queue, i)
    ensures s' == Step(c, s, i)
  {
    if s.mode.Selecting? && s.queue != [] {
      i :| Maximal(s.queue, i) && s' == Step(c, s, i);
    } else {
      i := 0;
    }
  }

  /** The selection behind step k of a run. */
  lemma PickAt(c: Context, run: seq<State>, k: nat) returns (i: nat)
    requires IsRun(c, run) && 0 < k < |run|
    ensures Sane(c, run[k - 1]) && !run[k - 1].mode.Finished?
    ensures run[k - 1].mode.Selecting? && run[k - 1].queue != [] ==> Maximal(run[k - 1].queue, i)
    ensures run[k] == Step(c, run[k - 1], i)
  {
    assert FollowsAt(c, run, k);
    i := PickOf(c, run[k - 1], run[k]);
  }

  /** Every state of every run stays within its bounds. */
  lemma {:induction false} RunBounded(c: Context, run: seq<State>, k: nat)
    requires IsRun(c, run) && k < |run|
    ensures Bounded(c, run[k])
  {
    if k > 0 {
      RunBounded(c, run, k - 1);
      NextBounded(c, run, k - 1);
    } else {
      StartBounded(c);
    }
  }

  lemma StartBounded(c: Context)
    requires Start(c).Ok?
    ensures Bounded(c, Start(c).value)
  {
  }

  lemma NextBounded(c: Context, run: seq<State>, k: nat)
    requires IsRun(c, run) && k + 1 < |run| && Bounded(c, run[k])
    ensures Bounded(c, run[k + 1])
  {
    var i := PickAt(c, run, k + 1);
    StepBounded(c, run[k], i);
  }
}
