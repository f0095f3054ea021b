/** Record accounting over whole runs: the record budget is conserved, an untruncated run accounts for
    every edge it considered, and a stated budget makes truncation impossible. */
module RunRecords {
  import opened Wrappers
  import opened FixedPoint
  import opened Model
  import opened Records
  import opened Traversal
  import opened RunBounds

  lemma {:induction false} IncreasingIsShort(s: seq<nat>, bound: nat)
    requires forall j, k :: 0 <= j < k < |s| ==> s[j] < s[k]
    requires forall j :: 0 <= j < |s| ==> s[j] < bound
    ensures |s| <= bound
  {
    if s != [] {
      var n := |s| - 1;
      IncreasingIsShort(s[..n], s[n]);
    }
  }

  lemma RowIsShort(c: Context, node: nat)
    requires c.Valid() && node < |c.topo.resources|
    ensures |c.topo.Outs(node)| <= |c.topo.edges| < COUNT_MAX
  {
    assert c.topo.RowExact(node);
    IncreasingIsShort(c.topo.Outs(node), |c.topo.edges|);
  }

  /** Edges considered so far at the resource in focus. */
  function Cursor(m: Mode): nat {
    match m
    case Expanding(_, cursor, _) => cursor
    case Refusing(_, _, _, cursor) => cursor
    case _ => 0
  }

  predicate AtResource(m: Mode) { m.Expanding? || m.Refusing? }

  function AtLeastOne(n: nat): nat { if n == 0 then 1 else n }

  /** Budget, refusal counts and considered edges all balance. */
  ghost predicate Balanced(c: Context, s: State)
    requires s.book.Valid()
  {
    && s.book.Capacity() == c.budget
    && (!s.truncated ==> Written(s.book.suppressed) + Waiting(s.book.pending, 0) == s.refused)
    && s.refused + s.expansions <= s.considered
    && (!s.truncated ==> s.considered == s.refused + s.expansions)
    && Waiting(s.book.pending, 0) <= (if AtResource(s.mode) then Cursor(s.mode) else |c.topo.edges|)
    && (s.mode.Finished? ==> Quiet(s.book.pending, 0))
    && (s.mode == Finished(Drained) ==> s.queue == [])
  }

  /** At most one suppression record per reason and settled resource. */
  ghost predicate Frugal(s: State)
    requires s.book.Valid()
  {
    && |s.book.suppressed| + Occupied(s.book.pending, 0) <= REASON_COUNT * AtLeastOne(|s.order|)
    && (AtResource(s.mode) ==> |s.book.suppressed| <= REASON_COUNT * (AtLeastOne(|s.order|) - 1))
    && (s.order == [] && s.queue != [] ==> |s.book.suppressed| + Occupied(s.book.pending, 0) == 0)
  }

  ghost predicate Accounted(c: Context, s: State)
    requires s.book.Valid()
  {
    Balanced(c, s) && Frugal(s)
  }

  /** What a flush does to the totals. */
  lemma FlushTotals(b: Book)
    requires b.Valid()
    ensures var f := Flush(b);
            && f.book.Capacity() == b.Capacity() && Quiet(f.book.pending, 0)
            && Waiting(f.book.pending, 0) == 0 && Occupied(f.book.pending, 0) == 0
            && |f.book.suppressed| <= |b.suppressed| + Occupied(b.pending, 0)
            && (f.ok <==> Occupied(b.pending, 0) <= b.budget)
            && (f.ok ==> Written(f.book.suppressed) == Written(b.suppressed) + Waiting(b.pending, 0))
  {
    FlushAccounts(b, 0);
    QuietTotals(Flush(b).book.pending, 0);
  }

  lemma FinishAccounted(c: Context, s: State, ending: Ending)
    requires s.book.Valid() && Balanced(c, s) && Frugal(s) && (ending == Drained ==> s.queue == [])
    ensures Accounted(c, Finish(s, ending))
  {
    FlushTotals(s.book);
  }

  lemma SettleAccounted(c: Context, s: State, e: Entry)
    requires s.book.Valid() && Balanced(c, s) && Frugal(s) && s.mode.Selecting?
    requires e.node < |c.topo.resources| && s.window != Some(e.node)
    requires s.order == [] ==> |s.book.suppressed| + Occupied(s.book.pending, 0) == 0
    ensures Accounted(c, Settle(c, s, e))
  {
    FlushTotals(s.book);
    var f := Flush(s.book);
    var s1 := s.(settled := s.settled + {e.node}, book := f.book, window := Some(e.node));
    if f.ok {
      assert Settle(c, s, e).book == f.book;
    } else {
      FinishAccounted(c, s1.(truncated := true), RecordBudget);
    }
  }

  lemma SelectAccounted(c: Context, s: State, i: nat)
    requires Bounded(c, s) && Accounted(c, s) && s.mode.Selecting? && i < |s.queue|
    ensures Select(c, s, i).book.Valid() && Accounted(c, Select(c, s, i))
  {
    var s1 := s.(queue := Without(s.queue, i));
    assert Balanced(c, s1) && Frugal(s1);
    if s.queue[i].node !in s.settled {
      SettleAccounted(c, s1, s.queue[i]);
    }
  }

  /** One refused edge at the resource in focus. */
  lemma RefuseAccounted(c: Context, s: State, edge: Edge, depth: nat, r: Reason, m: Mode)
    requires s.book.Valid() && Accounted(c, s) && AtResource(s.mode) && AtResource(m)
             && (s.order == [] ==> s.queue == [])
    requires Cursor(m) == Cursor(s.mode) + 1 && Cursor(s.mode) < COUNT_MAX
    ensures Refused(s, edge, depth, r).book.Valid() && Accounted(c, Refused(s, edge, depth, r).(mode := m))
  {
    RejectTotals(s.book, edge, depth, r, 0);
  }

  lemma AcceptAccounted(c: Context, s: State, ei: nat, d: Decision, m: Mode)
    requires s.book.Valid() && Accounted(c, s) && s.mode.Expanding? && m.Expanding? && s.order != []
    requires ei < |c.topo.edges| && s.mode.entry.node < |c.topo.resources| && d.Carry? && s.book.budget > 0
    requires Cursor(m) == Cursor(s.mode) + 1
    ensures Accounted(c, Accept(c, s, s.mode.entry, ei, d).(mode := m))
  {
  }

  lemma ConsiderAccounted(c: Context, s: State, ei: nat)
    requires Bounded(c, s) && Accounted(c, s) && s.mode.Expanding? && ei < |c.topo.edges| && Cursor(s.mode) < COUNT_MAX
    ensures Consider(c, s, ei).book.Valid() && Accounted(c, Consider(c, s, ei))
  {
    var Expanding(e, cursor, fanout) := s.mode;
    var d := c.Decide(s.settled, e, fanout, s.expansions, ei);
    if d.Refuse? {
      RefuseAccounted(c, s, c.topo.edges[ei], e.depth, d.reason, Expanding(e, cursor + 1, fanout));
    } else if s.book.budget == 0 {
      FinishAccounted(c, s.(considered := s.considered + 1, truncated := true), RecordBudget);
    } else {
      AcceptAccounted(c, s, ei, d, Expanding(e, cursor + 1, fanout + 1));
    }
  }

  lemma ExpandAccounted(c: Context, s: State)
    requires c.Valid() && Bounded(c, s) && Accounted(c, s) && s.mode.Expanding?
    ensures Expand(c, s).book.Valid() && Accounted(c, Expand(c, s))
  {
    var Expanding(e, cursor, fanout) := s.mode;
    RowIsShort(c, e.node);
    var outs := c.topo.Outs(e.node);
    if cursor < |outs| {
      OutInRange(c, e.node, cursor);
      ConsiderAccounted(c, s, outs[cursor]);
    } else if s.budgetStop {
      FinishAccounted(c, s, ExpansionBudget);
    }
  }

  lemma ShutAccounted(c: Context, s: State)
    requires c.Valid() && Bounded(c, s) && Accounted(c, s) && s.mode.Refusing? && s.mode.node < |c.topo.resources|
    ensures Shut(c, s).book.Valid() && Accounted(c, Shut(c, s))
  {
    var Refusing(node, depth, reason, cursor) := s.mode;
    RowIsShort(c, node);
    var outs := c.topo.Outs(node);
    if cursor < |outs| {
      OutInRange(c, node, cursor);
      RefuseAccounted(c, s, c.topo.edges[outs[cursor]], depth, reason, Refusing(node, depth, reason, cursor + 1));
    } else {
      FlushTotals(s.book);
    }
  }

  /** A blocked origin is refused at its own index. */
  ghost predicate FocusInRange(c: Context, s: State) {
    s.mode.Refusing? ==> s.mode.node < |c.topo.resources|
  }

  lemma StepAccounted(c: Context, s: State, i: nat)
    requires c.Valid() && Bounded(c, s) && Accounted(c, s) && FocusInRange(c, s) && !s.mode.Finished?
    requires s.mode.Selecting? && s.queue != [] ==> i < |s.queue|
    ensures Step(c, s, i).book.Valid() && Accounted(c, Step(c, s, i)) && FocusInRange(c, Step(c, s, i))
  {
    match s.mode
    case Selecting =>
      if s.queue == [] { FinishAccounted(c, s, Drained); }
      else if |s.order| >= c.policy.maxVisited { FinishAccounted(c, s, VisitedBudget); }
      else { SelectAccounted(c, s, i); }
    case Expanding(_, _, _) => ExpandAccounted(c, s);
    case Refusing(_, _, _, _) => ShutAccounted(c, s);
  }

  /** At every point of every run: hops + suppressions + remaining budget is the initial budget, at most
      one suppression record exists per settled resource and reason, and until a record is lost the
      refusals written and waiting add up to the refused edges, and refused plus accepted edges to the
      considered ones. */
  lemma {:induction false} RunAccounted(c: Context, run: seq<State>, k: nat)
    requires c.Valid() && IsRun(c, run) && k < |run|
    ensures run[k].book.Valid() && Accounted(c, run[k]) && FocusInRange(c, run[k])
  {
    if k == 0 {
      StartAccounted(c);
    } else {
      RunAccounted(c, run, k - 1);
      NextAccounted(c, run, k - 1);
    }
  }

  lemma NextAccounted(c: Context, run: seq<State>, k: nat)
    requires c.Valid() && IsRun(c, run) && k + 1 < |run|
    requires run[k].book.Valid() && Accounted(c, run[k]) && FocusInRange(c, run[k])
    ensures run[k + 1].book.Valid() && Accounted(c, run[k + 1]) && FocusInRange(c, run[k + 1])
  {
    RunBounded(c, run, k);
    var i := PickAt(c, run, k + 1);
    StepAccounted(c, run[k], i);
  }

  lemma StartAccounted(c: Context)
    requires Start(c).Ok?
    ensures var s := Start(c).value; s.book.Valid() && Accounted(c, s) && FocusInRange(c, s)
  {
    QuietTotals(Start(c).value.book.pending, 0);
  }

  // ----- a budget that rules truncation out

  /** Room for one hop record per expansion and one suppression record per settled resource and reason. */
  predicate AmpleBudget(c: Context) {
    c.policy.maxExpansions + REASON_COUNT * c.policy.maxVisited <= c.budget && c.policy.maxVisited > 0
  }

  lemma RoomToFlush(c: Context, s: State)
    requires Bounded(c, s) && Accounted(c, s) && AmpleBudget(c)
    ensures Occupied(s.book.pending, 0) <= s.book.budget
    ensures Flush(s.book).ok
    ensures s.expansions < c.policy.maxExpansions ==> s.book.budget > 0
  {
    FlushTotals(s.book);
    MulMonotone(AtLeastOne(|s.order|), c.policy.maxVisited, REASON_COUNT);
  }

  lemma StepUntruncated(c: Context, s: State, i: nat)
    requires Bounded(c, s) && Accounted(c, s) && AmpleBudget(c) && !s.mode.Finished? && !s.truncated
    requires s.mode.Selecting? && s.queue != [] ==> i < |s.queue|
    ensures !Step(c, s, i).truncated
  {
    RoomToFlush(c, s);
    if s.mode.Expanding? {
      var outs := c.topo.Outs(s.mode.entry.node);
      if s.mode.cursor < |outs| && outs[s.mode.cursor] < |c.topo.edges| {
        var d := c.Decide(s.settled, s.mode.entry, s.mode.fanout, s.expansions, outs[s.mode.cursor]);
        if d.Carry? { DecideWithin(c, s.settled, s.mode.entry, s.mode.fanout, s.expansions, outs[s.mode.cursor]); }
      }
    }
  }

  /** With an ample budget no run on any topology is ever truncated. */
  lemma {:induction false} AmpleBudgetNeverTruncates(c: Context, run: seq<State>, k: nat)
    requires c.Valid() && IsRun(c, run) && AmpleBudget(c) && k < |run|
    ensures !run[k].truncated
  {
    if k > 0 {
      AmpleBudgetNeverTruncates(c, run, k - 1);
      NextUntruncated(c, run, k - 1);
    }
  }

  lemma NextUntruncated(c: Context, run: seq<State>, k: nat)
    requires c.Valid() && IsRun(c, run) && AmpleBudget(c) && k + 1 < |run| && !run[k].truncated
    ensures !run[k + 1].truncated
  {
    RunAccounted(c, run, k);
    RunBounded(c, run, k);
    var i := PickAt(c, run, k + 1);
    StepUntruncated(c, run[k], i);
  }
}
