/** Settlements dominate accepted hops: a resource settles with at least the potential of every hop
    accepted into it, whether or not amplification was granted. */
module Dominance {
  import opened FixedPoint
  import opened Records
  import opened Traversal
  import opened RunBounds
  import opened BestFirst

  /** A hop's pressure waits for its target to settle, or its target settled at least as strongly, or the run ended
      when the record of its target's settlement found no room. */
  ghost predicate Honoured(c: Context, s: State, h: Hop) {
    var t := c.topo.IndexOf(h.target);
    || Brings(s.order, t, h.after)
    || (t !in s.settled && Brings(s.queue, t, h.after))
    || (t in s.settled && t !in Nodes(s.order) && s.mode.Finished?)
  }

  ghost predicate AllHonoured(c: Context, s: State) {
    forall k :: 0 <= k < |s.book.hops| ==> Honoured(c, s, s.book.hops[k])
  }

  lemma HonouredAfterSelect(c: Context, s: State, i: nat, h: Hop)
    requires Sane(c, s) && Honoured(c, s, h) && s.mode.Selecting? && Maximal(s.queue, i)
    requires Nodes(s.order) <= s.settled
    requires InRange(|c.topo.resources|, c.AuthorityHops(), s.queue)
    ensures Honoured(c, Select(c, s, i), h)
  {
    var s', e := Select(c, s, i), s.queue[i];
    var t := c.topo.IndexOf(h.target);
    SelectLists(c, s, i);
    if Brings(s.order, t, h.after) {
      var k :| 0 <= k < |s.order| && s.order[k].node == t && h.after <= s.order[k].potential;
      assert s'.order[k] == s.order[k];
    } else {
      WaitingAfterPick(s.queue, i, t, h.after);
      if e.node == t && s'.order == s.order + [e] { assert s'.order[|s.order|] == e; }
    }
  }

  /** What selecting does to the lists: the entry's resource gets a settlement record, or the run ends without. */
  lemma SelectLists(c: Context, s: State, i: nat)
    requires Sane(c, s) && s.mode.Selecting? && i < |s.queue| && s.queue[i].node < |c.topo.resources|
    ensures var s', e := Select(c, s, i), s.queue[i];
            && s.order <= s'.order && s'.queue == Without(s.queue, i) && s'.settled == s.settled + {e.node}
            && (e.node !in s.settled ==> s'.order == s.order + [e] || (s'.order == s.order && s'.mode.Finished?))
  {
  }

  /** The picked entry is the strongest for its resource; entries for other resources keep waiting. */
  lemma WaitingAfterPick(queue: seq<Entry>, i: nat, t: nat, p: Potential)
    requires Maximal(queue, i) && Brings(queue, t, p)
    ensures if queue[i].node == t then p <= queue[i].potential else Brings(Without(queue, i), t, p)
  {
    var k :| 0 <= k < |queue| && queue[k].node == t && p <= queue[k].potential;
    assert !Below(queue[i], queue[k]);
    assert k != i ==> Without(queue, i)[if k < i then k else k - 1] == queue[k];
  }

  lemma SelectHonoured(c: Context, s: State, i: nat)
    requires Sane(c, s) && Within(c, s) && Nodes(s.order) <= s.settled
    requires AllHonoured(c, s) && s.mode.Selecting? && Maximal(s.queue, i)
    ensures AllHonoured(c, Select(c, s, i))
  {
    assert Select(c, s, i).book.hops == s.book.hops;
    forall k | 0 <= k < |s.book.hops| ensures Honoured(c, Select(c, s, i), s.book.hops[k]) {
      HonouredAfterSelect(c, s, i, s.book.hops[k]);
    }
  }

  lemma HonouredGrows(c: Context, s: State, s': State, h: Hop)
    requires Honoured(c, s, h) && !s.mode.Finished?
    requires s'.order == s.order && s'.settled == s.settled && s.queue <= s'.queue
    ensures Honoured(c, s', h)
  {
    var t := c.topo.IndexOf(h.target);
    if !Brings(s.order, t, h.after) {
      var k :| 0 <= k < |s.queue| && s.queue[k].node == t && h.after <= s.queue[k].potential;
      assert s'.queue[k] == s.queue[k];
    }
  }

  /** Expanding records at most one hop, whose pressure it queues. */
  lemma ExpandHop(c: Context, s: State)
    requires Sane(c, s) && s.mode.Expanding?
    ensures var s' := Expand(c, s);
            && s'.order == s.order && s'.settled == s.settled && s.queue <= s'.queue
            && (s'.book.hops == s.book.hops
                || (exists h :: s'.book.hops == s.book.hops + [h] && Honoured(c, s', h)))
  {
    var s' := Expand(c, s);
    var e := s.mode.entry;
    var outs := c.topo.Outs(e.node);
    if s.mode.cursor < |outs| && outs[s.mode.cursor] < |c.topo.edges| {
      var ei := outs[s.mode.cursor];
      var d := c.Decide(s.settled, e, s.mode.fanout, s.expansions, ei);
      if d.Carry? && s.book.budget > 0 {
        DecideWithin(c, s.settled, e, s.mode.fanout, s.expansions, ei);
        assert s'.queue[|s.queue|].node == c.topo.Target(ei) && s'.queue[|s.queue|].potential == d.next;
        var h := s'.book.hops[|s.book.hops|];
        assert Brings(s'.queue, c.topo.Target(ei), d.next);
        assert s'.book.hops == s.book.hops + [h] && Honoured(c, s', h);
      }
    }
  }

  lemma ExpandHonoured(c: Context, s: State)
    requires Sane(c, s) && AllHonoured(c, s) && s.mode.Expanding?
    ensures AllHonoured(c, Expand(c, s))
  {
    ExpandHop(c, s);
    var s' := Expand(c, s);
    forall k | 0 <= k < |s'.book.hops| ensures Honoured(c, s', s'.book.hops[k]) {
      if k < |s.book.hops| { HonouredGrows(c, s, s', s.book.hops[k]); }
    }
  }

  lemma OtherHonoured(c: Context, s: State, s': State)
    requires AllHonoured(c, s) && !s.mode.Finished?
    requires s'.order == s.order && s'.settled == s.settled && s'.queue == s.queue && s'.book.hops == s.book.hops
    ensures AllHonoured(c, s')
  {
    forall k | 0 <= k < |s.book.hops| ensures Honoured(c, s', s.book.hops[k]) {
      HonouredGrows(c, s, s', s.book.hops[k]);
    }
  }

  lemma StepHonoured(c: Context, s: State, i: nat)
    requires Bounded(c, s) && AllHonoured(c, s) && !s.mode.Finished?
    requires s.mode.Selecting? && s.queue != [] ==> Maximal(s.queue, i)
    ensures AllHonoured(c, Step(c, s, i))
  {
    match s.mode
    case Selecting =>
      if s.queue != [] && |s.order| < c.policy.maxVisited { SelectHonoured(c, s, i); }
      else { OtherHonoured(c, s, Step(c, s, i)); }
    case Expanding(_, _, _) => ExpandHonoured(c, s);
    case Refusing(_, _, _, _) => OtherHonoured(c, s, Shut(c, s));
  }

  /** In every state of every run each accepted hop is honoured. */
  lemma {:induction false} RunHonoured(c: Context, run: seq<State>, k: nat)
    requires IsRun(c, run) && k < |run|
    ensures AllHonoured(c, run[k])
  {
    if k > 0 {
      RunHonoured(c, run, k - 1);
      NextHonoured(c, run, k - 1);
    }
  }

  lemma NextHonoured(c: Context, run: seq<State>, k: nat)
    requires IsRun(c, run) && k + 1 < |run| && AllHonoured(c, run[k])
    ensures AllHonoured(c, run[k + 1])
  {
    RunBounded(c, run, k);
    var i := PickAt(c, run, k + 1);
    StepHonoured(c, run[k], i);
  }

  /** A resource settles with at least the potential of every hop accepted into it, amplified or not, truncated or
      not. */
  lemma SettledDominatesHops(c: Context, run: seq<State>, k: nat, m: nat)
    requires IsRun(c, run) && k < |Final(run).book.hops| && m < |Final(run).order|
    requires c.topo.IndexOf(Final(run).book.hops[k].target) == Final(run).order[m].node
    ensures Final(run).book.hops[k].after <= Final(run).order[m].potential
  {
    var s := Final(run);
    RunHonoured(c, run, |run| - 1);
    RunBounded(c, run, |run| - 1);
    assert Honoured(c, s, s.book.hops[k]);
    NodesOf(s.order, s.order[m].node);
    assert s.order[m].node in s.settled;
    var j :| 0 <= j < |s.order| && s.order[j].node == s.order[m].node && s.book.hops[k].after <= s.order[j].potential;
    assert j == m;
  }
}
