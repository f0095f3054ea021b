/** Limits a caller can check before the call under which no limit is ever met, so that the best-first
    theorem holds of every run. */
module Roomy {
  import opened FixedPoint
  import opened Model
  import opened Records
  import opened Traversal
  import opened RunBounds
  import opened Paths
  import opened BestFirst
  import opened RunRecords
  import opened Optimality

  /** The resources a walk visits, the origin first. */
  function Visits(c: Context, w: seq<nat>): (r: seq<nat>)
    ensures |r| == |w| + 1
  {
    if w == [] then [Origin(c)]
    else
      var ei := w[|w| - 1];
      Visits(c, w[..|w| - 1]) + [if ei < |c.topo.edges| then c.topo.Target(ei) else |c.topo.resources|]
  }

  /** An admissible walk that visits no resource twice. */
  predicate Simple(c: Context, w: seq<nat>) {
    Walk(c, w).Some? && NoRepeats(Visits(c, w))
  }

  predicate NoRepeats(nodes: seq<nat>) { forall i, j :: 0 <= i < j < |nodes| ==> nodes[i] != nodes[j] }

  /** The hop limits leave room to go on from the end of the walk. */
  predicate RoomBehind(c: Context, w: seq<nat>)
    requires Walk(c, w).Some?
  {
    && |w| < c.AuthorityHops()
    && forall e <- c.topo.Outs(Walk(c, w).value.node) :: e < |c.topo.edges| ==> |w| < c.HopBound(e)
  }

  /** Every limit exceeds what the topology could ask for; `width` bounds the out-degrees. The hop limits need only
      exceed the longest admissible walk that visits no resource twice. */
  ghost predicate Spacious(c: Context, width: nat) {
    var n := |c.topo.resources|;
    && AmpleBudget(c) && n < c.policy.maxVisited
    && width <= c.policy.maxFanout && n * width <= c.policy.maxExpansions
    && (forall i :: 0 <= i < n ==> |c.topo.Outs(i)| <= width)
    && (forall w :: Simple(c, w) ==> RoomBehind(c, w))
  }

  lemma {:induction false} DistinctIsShort(n: nat, order: seq<Entry>)
    requires Distinct(order) && forall k :: 0 <= k < |order| ==> order[k].node < n
    ensures |order| == |Nodes(order)| <= n
  {
    SizeOfNodes(order);
    Numbering(n);
    forall x | x in Nodes(order) ensures x in Numbers(n) { NodesOf(order, x); }
    SubsetSize(Nodes(order), Numbers(n));
  }

  lemma {:induction false} SizeOfNodes(order: seq<Entry>)
    requires Distinct(order)
    ensures |Nodes(order)| == |order|
  {
    if order != [] {
      var front := order[..|order| - 1];
      SizeOfNodes(front);
      NodesOf(front, Last(order).node);
    }
  }

  function Numbers(n: nat): set<nat> { if n == 0 then {} else Numbers(n - 1) + {n - 1} }

  lemma {:induction false} Numbering(n: nat)
    ensures |Numbers(n)| == n && forall x: nat :: x in Numbers(n) <==> x < n
  {
    if n > 0 { Numbering(n - 1); }
  }

  lemma SubsetSize(a: set<nat>, b: set<nat>)
    requires a <= b
    ensures |a| <= |b|
  {
    assert b == a + (b - a);
  }

  /** The walk to a settled resource visits only resources that settled before it, and then the resource itself. */
  lemma {:induction false} PathVisits(c: Context, order: seq<Entry>, k: nat)
    requires Chained(c, order) && Distinct(order) && k < |order|
    ensures var w := PathTo(order, k);
            && Simple(c, w) && Visits(c, w)[|w|] == order[k].node
            && forall i :: 0 <= i <= |w| ==> AmongFirst(order, k, Visits(c, w)[i])
    decreases k
  {
    var e := order[k];
    PathReconstructs(c, order, k);
    assert Grounded(c, order[..k], e);
    if e.link.Via? {
      var j :| 0 <= j < k && Descends(c, order[..k][j], e);
      assert Position(order, e.link.node) == j;
      PathVisits(c, order, j);
      var v := PathTo(order, j);
      assert PathTo(order, k) == v + [e.link.edge] && (v + [e.link.edge])[..|v|] == v;
      VisitsOnce(c, order, v, e.link.edge, j, k);
    }
  }

  predicate AmongFirst(order: seq<Entry>, k: nat, node: nat) {
    exists m :: 0 <= m <= k < |order| && order[m].node == node
  }

  lemma VisitsOnce(c: Context, order: seq<Entry>, v: seq<nat>, ei: nat, j: nat, k: nat)
    requires j < k < |order| && Distinct(order) && Simple(c, v) && Walk(c, v + [ei]).Some?
    requires forall i :: 0 <= i <= |v| ==> AmongFirst(order, j, Visits(c, v)[i])
    requires ei < |c.topo.edges| && c.topo.Target(ei) == order[k].node
    ensures Simple(c, v + [ei]) && Visits(c, v + [ei])[|v| + 1] == order[k].node
    ensures forall i :: 0 <= i <= |v| + 1 ==> AmongFirst(order, k, Visits(c, v + [ei])[i])
  {
    VisitsSnoc(c, v, ei);
    FirstVisit(order, Visits(c, v), j, k);
  }

  lemma FirstVisit(order: seq<Entry>, nodes: seq<nat>, j: nat, k: nat)
    requires j < k < |order| && Distinct(order)
    requires forall i :: 0 <= i < |nodes| ==> AmongFirst(order, j, nodes[i])
    requires NoRepeats(nodes)
    ensures NoRepeats(nodes + [order[k].node])
    ensures forall i :: 0 <= i <= |nodes| ==> AmongFirst(order, k, (nodes + [order[k].node])[i])
  {
    forall i | 0 <= i < |nodes| ensures AmongFirst(order, k, nodes[i]) && nodes[i] != order[k].node {
      SettledEarlier(order, nodes[i], j, k);
    }
    assert AmongFirst(order, k, order[k].node);
  }

  lemma VisitsSnoc(c: Context, v: seq<nat>, ei: nat)
    requires ei < |c.topo.edges|
    ensures Visits(c, v + [ei]) == Visits(c, v) + [c.topo.Target(ei)]
  {
    assert (v + [ei])[..|v|] == v;
  }

  lemma SettledEarlier(order: seq<Entry>, node: nat, j: nat, k: nat)
    requires j < k < |order| && Distinct(order) && AmongFirst(order, j, node)
    ensures AmongFirst(order, k, node) && node != order[k].node
  {
    var m :| 0 <= m <= j && order[m].node == node;
  }

  lemma {:induction false} VisitsDeclared(c: Context, w: seq<nat>, i: nat)
    requires Walk(c, w).Some? && i <= |w|
    ensures Visits(c, w)[i] < |c.topo.resources|
  {
    WalkStartsOpen(c, w);
    if w != [] {
      if i < |w| { VisitsDeclared(c, w[..|w| - 1], i); } else { WalkAdmits(c, w, i - 1); }
    }
  }

  lemma {:induction false} DistinctNumbers(xs: seq<nat>) returns (s: set<nat>)
    requires NoRepeats(xs)
    ensures |s| == |xs| && forall x :: x in s <==> x in xs
  {
    s := {};
    if xs != [] {
      var m := |xs| - 1;
      var front := DistinctNumbers(xs[..m]);
      assert xs == xs[..m] + [xs[m]];
      s := front + {xs[m]};
    }
  }

  lemma SimpleIsShort(c: Context, w: seq<nat>)
    requires Simple(c, w)
    ensures |w| < |c.topo.resources|
  {
    var n := |c.topo.resources|;
    var nodes := Visits(c, w);
    var s := DistinctNumbers(nodes);
    Numbering(n);
    forall x | x in s ensures x in Numbers(n) {
      var i :| 0 <= i < |nodes| && nodes[i] == x;
      VisitsDeclared(c, w, i);
    }
    SubsetSize(s, Numbers(n));
  }

  /** Hop limits of at least the number of resources leave room in any case. */
  lemma ManyHopsSuffice(c: Context)
    requires |c.topo.resources| <= c.AuthorityHops()
    requires forall e :: 0 <= e < |c.topo.edges| ==> |c.topo.resources| <= c.HopBound(e)
    ensures forall w :: Simple(c, w) ==> RoomBehind(c, w)
  {
    forall w | Simple(c, w) ensures RoomBehind(c, w) { SimpleIsShort(c, w); }
  }

  /** The hop limits leave room behind every settlement. */
  lemma DepthRoom(c: Context, order: seq<Entry>, k: nat)
    requires Chained(c, order) && Distinct(order) && k < |order|
    requires forall w :: Simple(c, w) ==> RoomBehind(c, w)
    ensures order[k].depth < c.AuthorityHops()
    ensures forall e <- c.topo.Outs(order[k].node) :: e < |c.topo.edges| ==> order[k].depth < c.HopBound(e)
  {
    PathReconstructs(c, order, k);
    PathVisits(c, order, k);
    assert RoomBehind(c, PathTo(order, k));
  }

  /** Expansions are paid for by settled resources, at most `width` each. */
  ghost predicate Thrifty(s: State, width: nat) {
    && (s.mode.Expanding? ==> s.order != [] && s.expansions <= (|s.order| - 1) * width + s.mode.fanout)
    && (!s.mode.Expanding? ==> s.expansions <= |s.order| * width)
  }

  ghost predicate Clear(s: State, width: nat)
    requires s.book.Valid()
  {
    !Limited(s.book, s.truncated) && !s.budgetStop && Thrifty(s, width)
    && (s.mode.Refusing? ==> s.mode.reason !in {MAX_HOPS, MAX_FANOUT, EXPANSION_BUDGET})
    && (s.mode.Finished? ==> s.mode.ending == Drained)
  }

  lemma {:induction false} FlushInventsNothing(b: Book, slot: nat, r: Reason)
    requires b.Valid() && slot <= REASON_COUNT && !b.Shows(r)
    ensures !FlushFrom(b, slot).book.Shows(r)
    decreases REASON_COUNT - slot
  {
    if slot < REASON_COUNT {
      assert !FlushSlot(b, slot).book.Shows(r);
      FlushInventsNothing(FlushSlot(b, slot).book, slot + 1, r);
    }
  }

  lemma FlushStaysClear(c: Context, s: State)
    requires Bounded(c, s) && Accounted(c, s) && AmpleBudget(c) && !Limited(s.book, s.truncated)
    ensures Flush(s.book).ok && !Limited(Flush(s.book).book, s.truncated)
  {
    RoomToFlush(c, s);
    FlushInventsNothing(s.book, 0, MAX_HOPS);
    FlushInventsNothing(s.book, 0, MAX_FANOUT);
    FlushInventsNothing(s.book, 0, EXPANSION_BUDGET);
  }

  lemma RejectStaysClear(b: Book, e: Edge, depth: nat, r: Reason)
    requires b.Valid() && !Limited(b, false) && r !in {MAX_HOPS, MAX_FANOUT, EXPANSION_BUDGET}
    ensures !Limited(Reject(b, e, depth, r), false)
  {
    var b' := Reject(b, e, depth, r);
    assert b'.pending[MAX_HOPS] == b.pending[MAX_HOPS];
    assert b'.pending[MAX_FANOUT] == b.pending[MAX_FANOUT];
    assert b'.pending[EXPANSION_BUDGET] == b.pending[EXPANSION_BUDGET];
  }

  ghost predicate Sound(c: Context, s: State) {
    Bounded(c, s) && Traced(c, s) && Accounted(c, s) && FocusInRange(c, s)
  }

  lemma FewSettled(c: Context, s: State)
    requires Bounded(c, s)
    ensures |s.order| <= |c.topo.resources|
  {
    DistinctIsShort(|c.topo.resources|, s.order);
  }

  /** The entry about to settle is less deep than the hop limits. */
  lemma NextDepth(c: Context, s: State, i: nat)
    requires Bounded(c, s) && Traced(c, s) && i < |s.queue| && s.queue[i].node !in s.settled
    requires forall w :: Simple(c, w) ==> RoomBehind(c, w)
    ensures s.queue[i].depth < c.AuthorityHops()
  {
    var e := s.queue[i];
    SettleTraced(c, s.order, [], e);
    Snoc(s.order, e);
    DepthRoom(c, s.order + [e], |s.order|);
  }

  lemma SelectClear(c: Context, s: State, i: nat, width: nat)
    requires Sound(c, s) && Spacious(c, width) && Clear(s, width) && s.mode.Selecting? && i < |s.queue|
    ensures Select(c, s, i).book.Valid() && Clear(Select(c, s, i), width)
  {
    FlushStaysClear(c, s);
    if s.queue[i].node !in s.settled { NextDepth(c, s, i); }
    SettleClear(c, s.(queue := Without(s.queue, i)), s.queue[i], width);
  }

  lemma SettleClear(c: Context, s: State, e: Entry, width: nat)
    requires s.book.Valid() && Clear(s, width) && s.mode.Selecting?
    requires Flush(s.book).ok && !Limited(Flush(s.book).book, s.truncated)
    requires e.node < |c.topo.resources| ==> e.node in s.settled || e.depth < c.AuthorityHops()
    ensures e.node < |c.topo.resources| && e.node !in s.settled ==>
              Settle(c, s, e).book.Valid() && Clear(Settle(c, s, e), width)
  {
    assert |s.order + [e]| - 1 == |s.order|;
    MulMonotone(|s.order|, |s.order| + 1, width);
  }

  lemma RoomForOne(len: nat, n: nat, width: nat, fanout: nat, expansions: nat)
    requires 0 < len <= n && fanout < width && expansions <= (len - 1) * width + fanout
    ensures expansions < n * width
  {
    MulMonotone(len, n, width);
    assert (len - 1) * width + width == len * width;
  }

  lemma DepthClear(c: Context, order: seq<Entry>, j: nat)
    requires Chained(c, order) && Distinct(order) && order != [] && j < |c.topo.Outs(Last(order).node)|
    requires c.topo.Outs(Last(order).node)[j] < |c.topo.edges|
    requires forall w :: Simple(c, w) ==> RoomBehind(c, w)
    ensures Last(order).depth + 1 <= c.HopBound(c.topo.Outs(Last(order).node)[j])
  {
    DepthRoom(c, order, |order| - 1);
  }

  /** No limit applies to the edge under the cursor. */
  lemma DecideClear(c: Context, s: State, width: nat, ei: nat)
    requires Sound(c, s) && Spacious(c, width) && Thrifty(s, width) && s.mode.Expanding?
    requires s.mode.cursor < |c.topo.Outs(s.mode.entry.node)| && ei < |c.topo.edges|
    requires ei == c.topo.Outs(s.mode.entry.node)[s.mode.cursor]
    ensures s.mode.fanout < c.policy.maxFanout && s.expansions < c.policy.maxExpansions
    ensures s.mode.entry.depth + 1 <= c.HopBound(ei) && s.mode.fanout < width
  {
    FewSettled(c, s);
    DepthClear(c, s.order, s.mode.cursor);
    assert s.mode.fanout < width by { assert |c.topo.Outs(s.mode.entry.node)| <= width; }
    RoomForOne(|s.order|, |c.topo.resources|, width, s.mode.fanout, s.expansions);
  }

  /** A verdict that no limit forced names another reason. */
  lemma DecideNamesOther(c: Context, settled: set<nat>, e: Entry, fanout: nat, expansions: nat, ei: nat)
    requires ei < |c.topo.edges| && fanout < c.policy.maxFanout && expansions < c.policy.maxExpansions
    requires e.depth + 1 <= c.HopBound(ei)
    ensures var d := c.Decide(settled, e, fanout, expansions, ei);
            d.Refuse? ==> d.reason !in {MAX_HOPS, MAX_FANOUT, EXPANSION_BUDGET}
  {
  }

  lemma ConsiderClear(c: Context, s: State, width: nat, ei: nat)
    requires Sane(c, s) && Clear(s, width) && s.mode.Expanding? && s.mode.cursor < |c.topo.Outs(s.mode.entry.node)|
    requires ei < |c.topo.edges| && s.book.budget > 0
    requires s.mode.fanout < c.policy.maxFanout && s.expansions < c.policy.maxExpansions
    requires s.mode.entry.depth + 1 <= c.HopBound(ei)
    ensures Consider(c, s, ei).book.Valid() && Clear(Consider(c, s, ei), width)
  {
    var e := s.mode.entry;
    DecideNamesOther(c, s.settled, e, s.mode.fanout, s.expansions, ei);
    var d := c.Decide(s.settled, e, s.mode.fanout, s.expansions, ei);
    if d.Refuse? { RejectStaysClear(s.book, c.topo.edges[ei], e.depth, d.reason); }
  }

  lemma LeaveClear(s: State, width: nat)
    requires s.book.Valid() && Clear(s, width) && s.mode.Expanding? && s.mode.fanout <= width
    ensures Clear(s.(mode := Selecting), width)
  {
    MulMonotone(s.mode.fanout, width, 1);
    assert (|s.order| - 1) * width + width == |s.order| * width;
  }

  lemma ExpandClear(c: Context, s: State, width: nat)
    requires c.Valid() && Sound(c, s) && Spacious(c, width) && Clear(s, width) && s.mode.Expanding?
    ensures Expand(c, s).book.Valid() && Clear(Expand(c, s), width)
  {
    var outs := c.topo.Outs(s.mode.entry.node);
    if s.mode.cursor < |outs| {
      OutInRange(c, s.mode.entry.node, s.mode.cursor);
      DecideClear(c, s, width, outs[s.mode.cursor]);
      RoomToFlush(c, s);
      ConsiderClear(c, s, width, outs[s.mode.cursor]);
    } else {
      LeaveClear(s, width);
    }
  }

  lemma StepClear(c: Context, s: State, i: nat, width: nat)
    requires c.Valid() && Sound(c, s) && Spacious(c, width) && Clear(s, width) && !s.mode.Finished?
    requires s.mode.Selecting? && s.queue != [] ==> i < |s.queue|
    ensures Step(c, s, i).book.Valid() && Clear(Step(c, s, i), width)
  {
    match s.mode
    case Selecting =>
      FewSettled(c, s);
      if s.queue == [] { FlushStaysClear(c, s); } else { SelectClear(c, s, i, width); }
    case Expanding(_, _, _) => ExpandClear(c, s, width);
    case Refusing(node, depth, reason, cursor) =>
      if cursor < |c.topo.Outs(node)| {
        OutInRange(c, node, cursor);
        RejectStaysClear(s.book, c.topo.edges[c.topo.Outs(node)[cursor]], depth, reason);
      } else {
        FlushStaysClear(c, s);
      }
  }

  ghost predicate SoundAt(c: Context, run: seq<State>, k: nat)
    requires k < |run|
  {
    Sound(c, run[k])
  }

  ghost predicate AllSound(c: Context, run: seq<State>) { forall k :: 0 <= k < |run| ==> SoundAt(c, run, k) }

  lemma RunSound(c: Context, run: seq<State>)
    requires c.Valid() && IsRun(c, run)
    ensures AllSound(c, run)
  {
    forall k | 0 <= k < |run| ensures SoundAt(c, run, k) {
      RunBounded(c, run, k);
      RunTraced(c, run, k);
      RunAccounted(c, run, k);
    }
  }

  lemma StartClear(c: Context, width: nat)
    requires Start(c).Ok?
    ensures Start(c).value.book.Valid() && Clear(Start(c).value, width)
  {
  }

  lemma NextClear(c: Context, run: seq<State>, k: nat, width: nat)
    requires c.Valid() && 0 < k < |run| && FollowsAt(c, run, k) && Spacious(c, width) && AllSound(c, run)
    requires run[k - 1].book.Valid() && Clear(run[k - 1], width)
    ensures run[k].book.Valid() && Clear(run[k], width)
  {
    assert SoundAt(c, run, k - 1);
    FollowsClear(c, run[k - 1], run[k], width);
  }

  lemma FollowsClear(c: Context, s: State, s': State, width: nat)
    requires c.Valid() && Follows(c, s, s') && Spacious(c, width) && Sound(c, s) && Clear(s, width)
    ensures s'.book.Valid() && Clear(s', width)
  {
    var i := PickOf(c, s, s');
    StepClear(c, s, i, width);
  }

  lemma {:induction false} RunClear(c: Context, run: seq<State>, k: nat, width: nat)
    requires c.Valid() && IsRun(c, run) && Spacious(c, width) && k < |run|
    ensures run[k].book.Valid() && Clear(run[k], width)
  {
    if k > 0 {
      RunClear(c, run, k - 1, width);
      RunSound(c, run);
      NextClear(c, run, k, width);
    } else {
      StartClear(c, width);
    }
  }

  /** Under spacious limits every complete run settles exactly the reachable resources, each with the
      strongest pressure any admissible walk brings it. */
  lemma SpaciousRunIsOptimal(c: Context, run: seq<State>, width: nat)
    requires c.Valid() && !c.Granted() && IsCompleteRun(c, run) && Spacious(c, width)
    ensures forall node :: node in Final(run).settled <==> Reachable(c, node)
    ensures forall k :: 0 <= k < |Final(run).order| ==>
            IsBest(c, Final(run).order[k].node, Final(run).order[k].potential)
  {
    RunClear(c, run, |run| - 1, width);
    var book := Final(run).book;
    forall k | 0 <= k < |book.suppressed|
      ensures book.suppressed[k].reason !in {MAX_HOPS, MAX_FANOUT, EXPANSION_BUDGET}
    {
      assert book.Shows(book.suppressed[k].reason);
    }
    BestFirstOptimal(c, run);
  }
}
