/** Best-first optimality: without granted amplification, a run that drains its queue with no hop,
    fan-out or budget refusal settles exactly the resources some admissible walk reaches, each with the
    maximum potential over all such walks. */
module BestFirst {
  import opened Wrappers
  import opened FixedPoint
  import opened Model
  import opened Records
  import opened Traversal
  import opened RunBounds
  import opened Paths

  // ----- crossing an edge is monotone and never gains

  lemma CrossFalls(c: Context, ei: nat, p: Potential, gain: nat, amplified: bool)
    requires ei < |c.topo.edges| && !c.Granted() && c.Cross(ei, p, gain, amplified).Carry?
    ensures c.Cross(ei, p, gain, amplified) == Carry(Attenuated(p, c.topo.edges[ei].attenuation), gain, amplified)
    ensures c.Cross(ei, p, gain, amplified).next <= p
  {
  }

  lemma CrossMonotone(c: Context, ei: nat, p: Potential, q: Potential, gain: nat, amplified: bool)
    requires ei < |c.topo.edges| && !c.Granted() && p <= q && c.Cross(ei, p, gain, amplified).Carry?
    ensures c.Cross(ei, q, gain, amplified).Carry?
    ensures c.Cross(ei, p, gain, amplified).next <= c.Cross(ei, q, gain, amplified).next
  {
    var att := c.topo.edges[ei].attenuation;
    AttenuatedMonotone(p, q, att);
    ToMagnitudeMonotone(Attenuated(p, att), Attenuated(q, att));
  }

  // ----- potentials only fall along a run

  ghost predicate Plain(entries: seq<Entry>) {
    forall j :: 0 <= j < |entries| ==> entries[j].gain == UNITY && !entries[j].amplified
  }

  ghost predicate Descending(order: seq<Entry>) {
    forall j, k :: 0 <= j < k < |order| ==> order[k].potential <= order[j].potential
  }

  ghost predicate Under(queue: seq<Entry>, order: seq<Entry>) {
    order != [] ==> forall j :: 0 <= j < |queue| ==> queue[j].potential <= Last(order).potential
  }

  ghost predicate Falling(s: State) {
    Plain(s.queue) && Plain(s.order) && Descending(s.order) && Under(s.queue, s.order)
  }

  lemma SelectFalling(c: Context, s: State, i: nat)
    requires Bounded(c, s) && Falling(s) && s.mode.Selecting? && Maximal(s.queue, i)
    ensures Falling(Select(c, s, i))
  {
    var e := s.queue[i];
    var rest := Without(s.queue, i);
    assert forall j :: 0 <= j < |rest| ==> rest[j] == s.queue[if j < i then j else j + 1];
    assert forall j :: 0 <= j < |rest| ==> rest[j].potential <= e.potential;
    assert Plain(rest) && Under(rest, s.order);
    assert Plain(s.order + [e]) && Descending(s.order + [e]) && Under(rest, s.order + [e]);
  }

  lemma ExpandFalling(c: Context, s: State)
    requires !c.Granted() && Bounded(c, s) && Opened(c, s.mode) && Falling(s) && s.mode.Expanding?
    ensures Falling(Expand(c, s))
  {
    var pushed := ExpandPushes(c, s);
    if pushed.Some? {
      var e := s.order[|s.order| - 1];
      CrossFalls(c, pushed.value.link.edge, e.potential, e.gain, e.amplified);
    }
  }

  lemma StepFalling(c: Context, s: State, i: nat)
    requires !c.Granted() && Bounded(c, s) && Opened(c, s.mode) && Falling(s) && !s.mode.Finished?
    requires s.mode.Selecting? && s.queue != [] ==> Maximal(s.queue, i)
    ensures Falling(Step(c, s, i))
  {
    match s.mode
    case Selecting =>
      if s.queue != [] && |s.order| < c.policy.maxVisited { SelectFalling(c, s, i); }
    case Expanding(_, _, _) => ExpandFalling(c, s);
    case Refusing(_, _, _, _) =>
  }

  /** Without granted amplification potentials never rise along the settlement order. */
  lemma RunFalling(c: Context, run: seq<State>, k: nat)
    requires !c.Granted() && IsRun(c, run) && k < |run|
    ensures Falling(run[k]) && Bounded(c, run[k]) && Traced(c, run[k])
  {
    AlwaysFalling(c, run, k);
    RunBounded(c, run, k);
    RunTraced(c, run, k);
  }

  lemma {:induction false} AlwaysFalling(c: Context, run: seq<State>, k: nat)
    requires !c.Granted() && IsRun(c, run) && k < |run|
    ensures Falling(run[k])
  {
    if k > 0 {
      AlwaysFalling(c, run, k - 1);
      NextFalling(c, run, k - 1);
    } else {
      StartFalling(c);
    }
  }

  lemma NextFalling(c: Context, run: seq<State>, k: nat)
    requires !c.Granted() && IsRun(c, run) && k + 1 < |run| && Falling(run[k])
    ensures Falling(run[k + 1])
  {
    RunBounded(c, run, k);
    RunTraced(c, run, k);
    assert FollowsAt(c, run, k + 1);
    FollowsFalling(c, run[k], run[k + 1]);
  }

  lemma StartFalling(c: Context)
    requires Start(c).Ok?
    ensures Falling(Start(c).value)
  {
  }

  lemma FollowsFalling(c: Context, s: State, s': State)
    requires !c.Granted() && Follows(c, s, s') && Bounded(c, s) && Opened(c, s.mode) && Falling(s)
    ensures Falling(s')
  {
    var i := PickOf(c, s, s');
    StepFalling(c, s, i);
  }

  // ----- nothing an explored edge could carry is lost

  /** The outcome shows that a limit, not the graph, stopped some pressure. */
  ghost predicate Limited(book: Book, truncated: bool)
    requires book.Valid()
  {
    truncated || book.Shows(MAX_HOPS) || book.Shows(MAX_FANOUT) || book.Shows(EXPANSION_BUDGET)
  }

  /** Some entry brings at least potential p to the resource. */
  ghost predicate Brings(entries: seq<Entry>, node: nat, p: Potential) {
    exists k :: 0 <= k < |entries| && entries[k].node == node && p <= entries[k].potential
  }

  ghost predicate Kept(order: seq<Entry>, queue: seq<Entry>, limited: bool, y: Option<Entry>) {
    y.Some? && !limited ==>
      Brings(order, y.value.node, y.value.potential) || Brings(queue, y.value.node, y.value.potential)
  }

  /** How many edges of settlement record k have been considered. */
  function Explored(c: Context, m: Mode, order: seq<Entry>, k: nat): nat
    requires k < |order|
  {
    if k + 1 == |order| && m.Expanding? then m.cursor
    else if k + 1 == |order| && m.Refusing? then m.cursor
    else |c.topo.Outs(order[k].node)|
  }

  ghost predicate RecordKept(c: Context, s: State, limited: bool, k: nat)
    requires k < |s.order|
  {
    forall j :: 0 <= j < Explored(c, s.mode, s.order, k) && j < |c.topo.Outs(s.order[k].node)| ==>
      Kept(s.order, s.queue, limited, Hopped(c, s.order[k], c.topo.Outs(s.order[k].node)[j]))
  }

  ghost predicate AllKept(c: Context, s: State)
    requires s.book.Valid()
  {
    var limited := Limited(s.book, s.truncated);
    forall k :: 0 <= k < |s.order| ==> RecordKept(c, s, limited, k)
  }

  lemma RejectShows(b: Book, e: Edge, depth: nat, r: Reason, q: Reason)
    requires b.Valid()
    ensures Reject(b, e, depth, r).Shows(r)
    ensures b.Shows(q) ==> Reject(b, e, depth, r).Shows(q)
  {
  }

  lemma FlushLimited(b: Book, truncated: bool)
    requires b.Valid() && Limited(b, truncated)
    ensures Limited(Flush(b).book, truncated || !Flush(b).ok)
  {
    if !truncated && Flush(b).ok {
      if b.Shows(MAX_HOPS) { FlushKeepsReasons(b, 0, MAX_HOPS); }
      else if b.Shows(MAX_FANOUT) { FlushKeepsReasons(b, 0, MAX_FANOUT); }
      else { FlushKeepsReasons(b, 0, EXPANSION_BUDGET); }
    }
  }

  lemma RejectLimited(b: Book, truncated: bool, e: Edge, depth: nat, r: Reason)
    requires b.Valid() && (Limited(b, truncated) || r in {MAX_HOPS, MAX_FANOUT, EXPANSION_BUDGET})
    ensures Limited(Reject(b, e, depth, r), truncated)
  {
    RejectShows(b, e, depth, r, MAX_HOPS);
    RejectShows(b, e, depth, r, MAX_FANOUT);
    RejectShows(b, e, depth, r, EXPANSION_BUDGET);
  }

  lemma ExpandLimited(c: Context, s: State)
    requires Sane(c, s) && s.mode.Expanding? && Limited(s.book, s.truncated)
    ensures Limited(Expand(c, s).book, Expand(c, s).truncated)
  {
    var Expanding(e, cursor, fanout) := s.mode;
    var outs := c.topo.Outs(e.node);
    if cursor >= |outs| {
      FlushLimited(s.book, s.truncated);
    } else if outs[cursor] < |c.topo.edges| {
      var d := c.Decide(s.settled, e, fanout, s.expansions, outs[cursor]);
      if d.Refuse? { RejectLimited(s.book, s.truncated, c.topo.edges[outs[cursor]], e.depth, d.reason); }
    }
  }

  lemma ShutLimited(c: Context, s: State)
    requires Sane(c, s) && s.mode.Refusing?
    requires Limited(s.book, s.truncated) ||
             (s.mode.reason == MAX_HOPS && s.mode.cursor < |c.topo.Outs(s.mode.node)|
              && c.topo.Outs(s.mode.node)[s.mode.cursor] < |c.topo.edges|)
    ensures Limited(Shut(c, s).book, Shut(c, s).truncated)
  {
    var Refusing(node, depth, reason, cursor) := s.mode;
    var outs := c.topo.Outs(node);
    if cursor >= |outs| {
      FlushLimited(s.book, s.truncated);
    } else if outs[cursor] < |c.topo.edges| {
      RejectLimited(s.book, s.truncated, c.topo.edges[outs[cursor]], depth, reason);
    }
  }

  lemma KeptExtends(order: seq<Entry>, queue: seq<Entry>, limited: bool, y: Option<Entry>,
                    queue': seq<Entry>, limited': bool)
    requires Kept(order, queue, limited, y) && queue <= queue' && (limited ==> limited')
    ensures Kept(order, queue', limited', y)
  {
    if y.Some? && !limited' && !Brings(order, y.value.node, y.value.potential) {
      var k :| 0 <= k < |queue| && queue[k].node == y.value.node && y.value.potential <= queue[k].potential;
      assert queue'[k] == queue[k];
    }
  }

  /** Settled resources dominate whatever is still queued for them. */
  lemma SettledBrings(s: State, node: nat, p: Potential)
    requires SettledOnce(s.order, s.settled, s.truncated) && Descending(s.order)
    requires !s.truncated && node in s.settled && p <= Last(s.order).potential
    ensures Brings(s.order, node, p)
  {
    NodesOf(s.order, node);
  }

  /** Removing queue position i loses nothing when the settlements already bring what it held. */
  lemma KeptWithout(order: seq<Entry>, queue: seq<Entry>, limited: bool, y: Option<Entry>, i: nat,
                    order': seq<Entry>, limited': bool)
    requires Kept(order, queue, limited, y) && i < |queue| && order <= order' && (limited ==> limited')
    requires !limited' ==> Brings(order', queue[i].node, queue[i].potential)
    ensures Kept(order', Without(queue, i), limited', y)
  {
    if y.Some? && !limited' {
      var node, p := y.value.node, y.value.potential;
      if Brings(order, node, p) {
        var k :| 0 <= k < |order| && order[k].node == node && p <= order[k].potential;
        assert order'[k] == order[k];
      } else {
        var k :| 0 <= k < |queue| && queue[k].node == node && p <= queue[k].potential;
        if k != i {
          assert Without(queue, i)[if k < i then k else k - 1] == queue[k];
        } else {
          var m :| 0 <= m < |order'| && order'[m].node == node && queue[i].potential <= order'[m].potential;
          assert p <= order'[m].potential;
        }
      }
    }
  }

  /** Selecting keeps visible limits, and settles the chosen entry unless its resource already is. */
  lemma SelectBrings(c: Context, s: State, i: nat)
    requires Bounded(c, s) && Falling(s) && s.mode.Selecting? && i < |s.queue|
    ensures var s' := Select(c, s, i);
            && s'.book.Valid() && s'.queue == Without(s.queue, i) && s.order <= s'.order
            && (Limited(s.book, s.truncated) ==> Limited(s'.book, s'.truncated))
            && (!s'.truncated ==> Brings(s'.order, s.queue[i].node, s.queue[i].potential))
  {
    var e := s.queue[i];
    var s' := Select(c, s, i);
    if Limited(s.book, s.truncated) { FlushLimited(s.book, s.truncated); }
    if e.node in s.settled {
      if !s.truncated { SettledBrings(s, e.node, e.potential); }
    } else if !s'.truncated {
      assert s'.order[|s.order|] == e;
    }
  }

  lemma SelectKept(c: Context, s: State, i: nat)
    requires Bounded(c, s) && Falling(s) && AllKept(c, s) && s.mode.Selecting? && i < |s.queue|
    ensures AllKept(c, Select(c, s, i))
  {
    var s' := Select(c, s, i);
    var limited, limited' := Limited(s.book, s.truncated), Limited(s'.book, s'.truncated);
    SelectBrings(c, s, i);
    forall k | 0 <= k < |s'.order| ensures RecordKept(c, s', limited', k) {
      if k < |s.order| {
        assert s'.order[k] == s.order[k] && RecordKept(c, s, limited, k);
        var outs := c.topo.Outs(s.order[k].node);
        forall j | 0 <= j < |outs| ensures Kept(s'.order, s'.queue, limited', Hopped(c, s.order[k], outs[j])) {
          KeptWithout(s.order, s.queue, limited, Hopped(c, s.order[k], outs[j]), i, s'.order, limited');
        }
      } else if !s'.mode.Finished? {
        assert Explored(c, s'.mode, s'.order, k) == 0;
      }
    }
  }

  /** The edge under the cursor: what it could carry is queued, already settled at least as strongly, or
      stopped by a visible limit. */
  lemma CursorKept(c: Context, s: State)
    requires !c.Granted() && Bounded(c, s) && Falling(s) && Opened(c, s.mode)
    requires s.mode.Expanding? && s.mode.cursor < |c.topo.Outs(s.mode.entry.node)|
    ensures var s' := Expand(c, s);
            var y := Hopped(c, s.mode.entry, c.topo.Outs(s.mode.entry.node)[s.mode.cursor]);
            Kept(s'.order, s'.queue, Limited(s'.book, s'.truncated), y)
  {
    var e := s.mode.entry;
    var ei := c.topo.Outs(e.node)[s.mode.cursor];
    var s' := Expand(c, s);
    var y := Hopped(c, e, ei);
    if y.Some? && !Limited(s'.book, s'.truncated) {
      CrossFalls(c, ei, e.potential, e.gain, e.amplified);
      var d := c.Decide(s.settled, e, s.mode.fanout, s.expansions, ei);
      if d.Refuse? {
        if d.reason in {MAX_HOPS, MAX_FANOUT, EXPANSION_BUDGET} {
          RejectLimited(s.book, s.truncated, c.topo.edges[ei], e.depth, d.reason);
        } else {
          assert c.topo.Target(ei) in s.settled;
          SettledBrings(s, y.value.node, y.value.potential);
        }
      } else {
        assert s'.queue[|s.queue|] == y.value;
      }
    }
  }

  lemma EarlierKept(c: Context, s: State, y: Option<Entry>)
    requires Bounded(c, s) && Opened(c, s.mode) && s.mode.Expanding?
    requires Kept(s.order, s.queue, Limited(s.book, s.truncated), y)
    ensures Expand(c, s).book.Valid()
    ensures Kept(s.order, Expand(c, s).queue, Limited(Expand(c, s).book, Expand(c, s).truncated), y)
  {
    if Limited(s.book, s.truncated) { ExpandLimited(c, s); }
    var pushed := ExpandPushes(c, s);
    var s' := Expand(c, s);
    KeptExtends(s.order, s.queue, Limited(s.book, s.truncated), y, s'.queue, Limited(s'.book, s'.truncated));
  }

  /** Expanding advances the cursor by one edge, leaves a finished row, or ends truncated. */
  lemma ExpandCursor(c: Context, s: State)
    requires Sane(c, s) && s.mode.Expanding?
    ensures var s' := Expand(c, s);
            || (s'.mode.Expanding? && s'.mode.cursor == s.mode.cursor + 1)
            || s.mode.cursor == |c.topo.Outs(s.mode.entry.node)|
            || s'.truncated
    ensures !Expand(c, s).mode.Refusing?
  {
  }

  lemma ExpandKeptAt(c: Context, s: State, s': State, k: nat, j: nat)
    requires !c.Granted() && Bounded(c, s) && Falling(s) && Opened(c, s.mode) && AllKept(c, s) && s.mode.Expanding?
    requires s' == Expand(c, s) && s'.book.Valid()
    requires k < |s.order| && j < |c.topo.Outs(s.order[k].node)| && j < Explored(c, s'.mode, s.order, k)
    ensures Kept(s.order, s'.queue, Limited(s'.book, s'.truncated),
                 Hopped(c, s.order[k], c.topo.Outs(s.order[k].node)[j]))
  {
    ExpandCursor(c, s);
    if j < Explored(c, s.mode, s.order, k) {
      assert RecordKept(c, s, Limited(s.book, s.truncated), k);
      EarlierKept(c, s, Hopped(c, s.order[k], c.topo.Outs(s.order[k].node)[j]));
    } else if !s'.truncated {
      assert k + 1 == |s.order| && j == s.mode.cursor;
      CursorKept(c, s);
    }
  }

  lemma ExpandKept(c: Context, s: State)
    requires !c.Granted() && Bounded(c, s) && Falling(s) && Opened(c, s.mode) && AllKept(c, s) && s.mode.Expanding?
    ensures AllKept(c, Expand(c, s))
  {
    var s' := Expand(c, s);
    var pushed := ExpandPushes(c, s);
    forall k | 0 <= k < |s.order| ensures RecordKept(c, s', Limited(s'.book, s'.truncated), k) {
      forall j | 0 <= j < Explored(c, s'.mode, s.order, k) && j < |c.topo.Outs(s.order[k].node)|
        ensures Kept(s.order, s'.queue, Limited(s'.book, s'.truncated),
                     Hopped(c, s.order[k], c.topo.Outs(s.order[k].node)[j]))
      {
        ExpandKeptAt(c, s, s', k, j);
      }
    }
  }

  /** A closed resource is closed for a reason the graph explains, or its edges are refused for hops. */
  ghost predicate ShutRight(c: Context, s: State)
    requires s.book.Valid()
  {
    s.mode.Refusing? ==>
      || s.order == []
      || (s.mode.reason != MAX_HOPS && !Passable(c, s.mode.node))
      || (s.mode.reason == MAX_HOPS && (s.mode.cursor > 0 ==> Limited(s.book, s.truncated)))
  }

  lemma ShutStaysRight(c: Context, s: State)
    requires c.Valid() && Bounded(c, s) && ShutRight(c, s) && s.mode.Refusing?
    ensures ShutRight(c, Shut(c, s))
    ensures Shut(c, s).book.Valid()
    ensures Limited(s.book, s.truncated) ==> Limited(Shut(c, s).book, Shut(c, s).truncated)
  {
    var n := |c.topo.Outs(s.mode.node)|;
    if s.order != [] && s.mode.cursor < n { OutInRange(c, s.mode.node, s.mode.cursor); }
    if Limited(s.book, s.truncated) || (s.order != [] && s.mode.reason == MAX_HOPS && s.mode.cursor < n) {
      ShutLimited(c, s);
    }
  }

  lemma ShutKept(c: Context, s: State, s': State, k: nat)
    requires s.book.Valid() && s'.book.Valid() && k < |s.order| && s.order == s'.order && s.queue == s'.queue
    requires s.mode.Refusing? && ShutRight(c, s) && Focused(s) && RecordKept(c, s, Limited(s.book, s.truncated), k)
    requires s'.mode == Selecting || (s'.mode == s.mode.(cursor := s.mode.cursor + 1) && ShutRight(c, s'))
    requires s'.mode == Selecting ==> s.mode.cursor >= |c.topo.Outs(s.mode.node)|
    requires Limited(s.book, s.truncated) ==> Limited(s'.book, s'.truncated)
    ensures RecordKept(c, s', Limited(s'.book, s'.truncated), k)
  {
    var outs := c.topo.Outs(s.order[k].node);
    var limited, limited' := Limited(s.book, s.truncated), Limited(s'.book, s'.truncated);
    forall j | 0 <= j < Explored(c, s'.mode, s.order, k) && j < |outs|
      ensures Kept(s.order, s.queue, limited', Hopped(c, s.order[k], outs[j]))
    {
      if j < Explored(c, s.mode, s.order, k) {
        KeptExtends(s.order, s.queue, limited, Hopped(c, s.order[k], outs[j]), s.queue, limited');
      }
    }
  }

  ghost predicate Exploring(c: Context, s: State)
    requires s.book.Valid()
  {
    AllKept(c, s) && ShutRight(c, s)
  }

  lemma ShutExploring(c: Context, s: State)
    requires c.Valid() && Bounded(c, s) && Exploring(c, s) && s.mode.Refusing?
    ensures Shut(c, s).book.Valid() && Exploring(c, Shut(c, s))
  {
    ShutStaysRight(c, s);
    forall k | 0 <= k < |s.order| ensures RecordKept(c, Shut(c, s), Limited(Shut(c, s).book, Shut(c, s).truncated), k) {
      ShutKept(c, s, Shut(c, s), k);
    }
  }

  lemma FinishKept(c: Context, s: State, ending: Ending)
    requires Bounded(c, s) && AllKept(c, s) && s.mode.Selecting?
    ensures AllKept(c, Finish(s, ending))
  {
    var s' := Finish(s, ending);
    if Limited(s.book, s.truncated) { FlushLimited(s.book, s.truncated); }
    forall k | 0 <= k < |s.order| ensures RecordKept(c, s', Limited(s'.book, s'.truncated), k) {
      assert RecordKept(c, s, Limited(s.book, s.truncated), k);
    }
  }

  lemma SelectShutRight(c: Context, s: State, i: nat)
    requires Sane(c, s) && s.mode.Selecting? && i < |s.queue|
    ensures Select(c, s, i).book.Valid() && ShutRight(c, Select(c, s, i))
  {
  }

  lemma SelectExploring(c: Context, s: State, i: nat)
    requires c.Valid() && !c.Granted() && Bounded(c, s) && Falling(s) && Traced(c, s) && Exploring(c, s)
    requires s.mode.Selecting? && i < |s.queue|
    ensures Select(c, s, i).book.Valid() && Exploring(c, Select(c, s, i))
  {
    SelectKept(c, s, i);
    SelectShutRight(c, s, i);
  }

  lemma ExpandExploring(c: Context, s: State)
    requires c.Valid() && !c.Granted() && Bounded(c, s) && Falling(s) && Traced(c, s) && Exploring(c, s)
             && s.mode.Expanding?
    ensures Expand(c, s).book.Valid() && Exploring(c, Expand(c, s))
  {
    ExpandKept(c, s);
    ExpandShutRight(c, s);
  }

  lemma ExpandShutRight(c: Context, s: State)
    requires Sane(c, s) && s.mode.Expanding?
    ensures Expand(c, s).book.Valid() && ShutRight(c, Expand(c, s))
  {
    ExpandCursor(c, s);
  }

  lemma StepExploring(c: Context, s: State, i: nat)
    requires c.Valid() && !c.Granted() && Bounded(c, s) && Falling(s) && Traced(c, s) && Exploring(c, s)
    requires !s.mode.Finished? && (s.mode.Selecting? && s.queue != [] ==> i < |s.queue|)
    ensures Step(c, s, i).book.Valid() && Exploring(c, Step(c, s, i))
  {
    match s.mode
    case Selecting =>
      if s.queue == [] { FinishKept(c, s, Drained); }
      else if |s.order| >= c.policy.maxVisited { FinishKept(c, s, VisitedBudget); }
      else { SelectExploring(c, s, i); }
    case Expanding(_, _, _) => ExpandExploring(c, s);
    case Refusing(_, _, _, _) => ShutExploring(c, s);
  }

  lemma {:induction false} RunExploring(c: Context, run: seq<State>, k: nat)
    requires c.Valid() && !c.Granted() && IsRun(c, run) && k < |run|
    ensures run[k].book.Valid() && Exploring(c, run[k])
  {
    if k > 0 {
      RunExploring(c, run, k - 1);
      NextExploring(c, run, k - 1);
    } else {
      StartExploring(c);
    }
  }

  lemma NextExploring(c: Context, run: seq<State>, k: nat)
    requires c.Valid() && !c.Granted() && IsRun(c, run) && k + 1 < |run|
    requires run[k].book.Valid() && Exploring(c, run[k])
    ensures run[k + 1].book.Valid() && Exploring(c, run[k + 1])
  {
    RunFalling(c, run, k);
    assert FollowsAt(c, run, k + 1);
    FollowsExploring(c, run[k], run[k + 1]);
  }

  lemma StartExploring(c: Context)
    requires Start(c).Ok?
    ensures Start(c).value.book.Valid() && Exploring(c, Start(c).value)
  {
  }

  lemma FollowsExploring(c: Context, s: State, s': State)
    requires c.Valid() && !c.Granted() && Follows(c, s, s')
    requires Bounded(c, s) && Falling(s) && Traced(c, s) && Exploring(c, s)
    ensures s'.book.Valid() && Exploring(c, s')
  {
    var i := PickOf(c, s, s');
    StepExploring(c, s, i);
  }

  // ----- the theorem

  /** The run ended because nothing was left to do, and no refusal names a limit. */
  ghost predicate Unlimited(s: State) {
    && s.mode == Finished(Drained) && !s.truncated
    && forall k :: 0 <= k < |s.book.suppressed| ==>
         s.book.suppressed[k].reason !in {MAX_HOPS, MAX_FANOUT, EXPANSION_BUDGET}
  }

  /** Settled resources dominate every walk that reaches them. */
  lemma {:induction false} WalksAreDominated(c: Context, s: State, w: seq<nat>)
    requires c.Valid() && !c.Granted() && Bounded(c, s) && Falling(s) && Exploring(c, s)
    requires s.queue == [] && !Limited(s.book, s.truncated) && s.mode.Finished?
    requires Brings(s.order, c.topo.IndexOf(c.signal.origin), c.Seed())
    requires Walk(c, w).Some?
    ensures Brings(s.order, Walk(c, w).value.node, Walk(c, w).value.potential)
    ensures Walk(c, w).value.gain == UNITY && !Walk(c, w).value.amplified
  {
    if w != [] {
      var front, ei := w[..|w| - 1], w[|w| - 1];
      WalksAreDominated(c, s, front);
      var x := Walk(c, front).value;
      var k :| 0 <= k < |s.order| && s.order[k].node == x.node && x.potential <= s.order[k].potential;
      CrossFalls(c, ei, x.potential, x.gain, x.amplified);
      CrossMonotone(c, ei, x.potential, s.order[k].potential, UNITY, false);
      var outs := c.topo.Outs(x.node);
      var j :| 0 <= j < |outs| && outs[j] == ei;
      assert RecordKept(c, s, false, k);
      var y := Hopped(c, s.order[k], outs[j]);
      assert Kept(s.order, s.queue, false, y);
      var m :| 0 <= m < |s.order| && s.order[m].node == y.value.node && y.value.potential <= s.order[m].potential;
      assert s.order[m].node == Walk(c, w).value.node && Walk(c, w).value.potential <= s.order[m].potential;
    }
  }
}
