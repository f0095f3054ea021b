/** Two promises of the documentation that the engine does not keep, each with a concrete run. */
module Shortfalls {
  import opened Wrappers
  import opened FixedPoint
  import opened Model
  import opened Graph
  import opened Records
  import opened Traversal
  import opened Paths

  function PlainPolicy(hops: nat, expansions: nat, visited: nat, records: nat): Policy {
    Policy(1, 1, hops, 8, expansions, visited, 1, records, 1, 0, 1, Max, UNITY, false, UNITY, 0, 0,
           Decay(UNITY, 1, 0, 1), 1, 2, 3, 4, true)
  }

  function PlainEdge(id: nat, source: nat, target: nat, att: Q16, recovery: bool): Edge {
    Edge(id, source, target, att, UNITY, 0, 1, 0, id, false, recovery, false)
  }

  function PlainContext(topo: Topology, policy: Policy): Context {
    Context(topo, policy, [], map[], 0, map[],
            Signal(1, 1, 0, UNITY, Authority(Global, 1, {}, 0, false, UNITY), 1, 0, UNITY), policy.maxRecords)
  }

  // ----- a valid policy can fail to afford its own explanation

  /** One resource with three self-loops that are refused for three different reasons. */
  const LOOPS := Topology([Resource(0, Unprotected, true, 1)],
                          [PlainEdge(0, 0, 0, 0, false), PlainEdge(1, 0, 0, UNITY, true),
                           PlainEdge(2, 0, 0, UNITY, false)],
                          map[0 := 0], [0, 3], [0, 1, 2])
  const TIGHT := PlainPolicy(1, 1, 1, 2)
  const LOOPING := PlainContext(LOOPS, TIGHT)

  lemma LoopsRows()
    ensures LOOPS.Outs(0) == [0, 1, 2] && LOOPING.Valid() && TIGHT.Valid()
  {
    assert LOOPS.Outs(0) == LOOPS.outgoing[0..3] == [0, 1, 2];
    assert LOOPS.RowExact(0);
  }

  const SEED0 := Entry(POTENTIAL_ONE, 0, 0, UNITY, false, Root)

  /** State after the origin settled and j of its edges were refused. */
  function Looped(j: nat, book: Book): State {
    State(Expanding(SEED0, j, 0), [], {0}, [SEED0], {}, book, Some(0), 0, j, j, false, false)
  }

  lemma LoopSelect(s: State)
    requires Start(LOOPING) == Ok(s)
    ensures s.mode.Selecting? && Maximal(s.queue, 0) && s.book == EmptyBook(2)
    ensures Step(LOOPING, s, 0) == Looped(0, Flush(s.book).book)
    ensures Follows(LOOPING, s, Looped(0, Flush(s.book).book))
  {
    LoopsRows();
    FlushAccounts(s.book, 0);
    QuietTotals(s.book.pending, 0);
  }

  function LoopReason(j: nat): Reason
    requires j < 3
  {
    [ZERO_ATTENUATION, RECOVERY_ONLY, NODE_ALREADY_SETTLED][j]
  }

  lemma LoopRefuse(j: nat, book: Book)
    requires j < 3 && book.Valid()
    ensures Follows(LOOPING, Looped(j, book), Looped(j + 1, Reject(book, LOOPS.edges[j], 0, LoopReason(j))))
  {
    LoopsRows();
    assert LOOPS.Target(j) == 0;
    assert LOOPING.Decide({0}, SEED0, 0, 0, j) == Refuse(LoopReason(j));
  }

  lemma LoopLeave(book: Book)
    requires book.Valid() && book.budget < Occupied(book.pending, 0)
    ensures var s := Looped(3, book).(mode := Selecting);
            && Follows(LOOPING, Looped(3, book), s)
            && Follows(LOOPING, s, Finish(s, Drained)) && Finish(s, Drained).truncated
  {
    LoopsRows();
    FlushAccounts(book, 0);
  }

  function LoopBook(j: nat): (b: Book)
    requires j <= 3
    ensures b.Valid()
  {
    if j == 0 then Flush(EmptyBook(2)).book else Reject(LoopBook(j - 1), LOOPS.edges[j - 1], 0, LoopReason(j - 1))
  }

  lemma LoopBookFills()
    ensures LoopBook(3).budget < Occupied(LoopBook(3).pending, 0)
  {
    var b := LoopBook(0);
    FlushAccounts(EmptyBook(2), 0);
    QuietTotals(EmptyBook(2).pending, 0);
    QuietTotals(b.pending, 0);
    RejectOccupies(b, LOOPS.edges[0], 0, LoopReason(0), 0);
    RejectOccupies(LoopBook(1), LOOPS.edges[1], 0, LoopReason(1), 0);
    RejectOccupies(LoopBook(2), LOOPS.edges[2], 0, LoopReason(2), 0);
  }

  lemma {:induction false} LoopRun(j: nat) returns (run: seq<State>)
    requires j <= 3
    ensures IsRun(LOOPING, run) && Final(run) == Looped(j, LoopBook(j))
  {
    if j == 0 {
      var s := Start(LOOPING).value;
      LoopSelect(s);
      assert IsRun(LOOPING, [s]);
      RunGrows(LOOPING, [s], Looped(0, LoopBook(0)));
      run := [s] + [Looped(0, LoopBook(0))];
    } else {
      run := LoopRun(j - 1);
      LoopRefuse(j - 1, LoopBook(j - 1));
      RunGrows(LOOPING, run, Looped(j, LoopBook(j)));
      run := run + [Looped(j, LoopBook(j))];
    }
  }

  /** The documentation promises that `max_records >= max_expansions + max_visited`, which validation
      enforces, makes every explanation complete. It does not: refusals are recorded per (resource,
      reason), so three reasons at one resource overflow a valid policy's budget of two. */
  lemma ValidPolicyCanTruncate() returns (run: seq<State>)
    ensures TIGHT.Valid() && LOOPING.Valid() && LOOPING.policy == TIGHT && LOOPING.budget == TIGHT.maxRecords
    ensures IsCompleteRun(LOOPING, run) && Final(run).truncated
  {
    LoopsRows();
    LoopBookFills();
    LoopLeave(LoopBook(3));
    var left := Looped(3, LoopBook(3)).(mode := Selecting);
    run := LoopRun(3);
    RunGrows(LOOPING, run, left);
    RunGrows(LOOPING, run + [left], Finish(left, Drained));
    run := run + [left] + [Finish(left, Drained)];
  }

  // ----- the strongest arrival can be the deeper one, and lose its descendants

  const HALF: Potential := 0x8000_0000
  /** 0 reaches 2 weakly in one hop and strongly in two; 3 lies one hop behind 2. */
  const DIAMOND := Topology(
    [Resource(0, Unprotected, true, 1), Resource(1, Unprotected, true, 1), Resource(2, Unprotected, true, 1),
     Resource(3, Unprotected, true, 1)],
    [PlainEdge(0, 0, 1, UNITY, false), PlainEdge(1, 0, 2, 0x8000, false), PlainEdge(2, 1, 2, UNITY, false),
     PlainEdge(3, 2, 3, UNITY, false)],
    map[0 := 0, 1 := 1, 2 := 2, 3 := 3], [0, 2, 3, 4, 4], [0, 1, 2, 3])
  const TWO_HOPS := PlainContext(DIAMOND, PlainPolicy(2, 8, 8, 64))

  lemma DiamondRows()
    ensures DIAMOND.Outs(0) == [0, 1] && DIAMOND.Outs(1) == [2] && DIAMOND.Outs(2) == [3] && DIAMOND.Outs(3) == []
  {
    assert DIAMOND.outgoing[0..2] == [0, 1] && DIAMOND.outgoing[2..3] == [2] && DIAMOND.outgoing[3..4] == [3];
  }

  lemma DiamondIndexed()
    ensures DIAMOND.Indexed()
  {
  }

  lemma DiamondRow(i: nat)
    requires i < 4 && DIAMOND.Indexed()
    ensures DIAMOND.RowExact(i)
  {
    DiamondRows();
    if i == 0 { assert DIAMOND.Outs(0) == [0, 1]; }
    else if i == 1 { assert DIAMOND.Outs(1) == [2]; }
    else if i == 2 { assert DIAMOND.Outs(2) == [3]; }
  }

  lemma DiamondValid()
    ensures TWO_HOPS.Valid() && TWO_HOPS.policy.Valid()
  {
    DiamondIndexed();
    forall i | 0 <= i < |DIAMOND.resources| ensures DIAMOND.RowExact(i) { DiamondRow(i); }
  }

  const ONE_HOP := Entry(POTENTIAL_ONE, 1, 1, UNITY, false, Via(0, 0))
  const WEAK := Entry(HALF, 2, 1, UNITY, false, Via(0, 1))
  const STRONG := Entry(POTENTIAL_ONE, 2, 2, UNITY, false, Via(1, 2))

  /** A state of the diamond run with nothing refused so far. */
  predicate Smooth(s: State, mode: Mode, queue: seq<Entry>, order: seq<Entry>, settled: set<nat>) {
    && s.mode == mode && s.queue == queue && s.order == order && s.settled == settled
    && s.book.Valid() && Quiet(s.book.pending, 0) && s.book.budget + |s.book.hops| == 64
    && |s.book.hops| == s.expansions <= 4
    && !s.budgetStop && (s.window.Some? ==> s.window.value in settled)
  }

  lemma DiamondSelect(s: State, i: nat, rest: seq<Entry>, order: seq<Entry>, settled: set<nat>) returns (s': State)
    requires Smooth(s, Selecting, s.queue, order, settled) && Maximal(s.queue, i) && rest == Without(s.queue, i)
    requires s.queue[i].node < 3 && s.queue[i].node !in settled && s.queue[i].depth <= 2 && |order| < 8
    ensures Follows(TWO_HOPS, s, s')
    ensures s'.expansions == s.expansions
    ensures var e := s.queue[i];
            Smooth(s', if e.depth < 2 then Expanding(e, 0, 0) else Refusing(e.node, e.depth, MAX_HOPS, 0), rest,
                   order + [e], settled + {e.node})
  {
    s' := Step(TWO_HOPS, s, i);
    FlushQuiet(s.book, 0);
  }

  lemma DiamondCross(s: State, e: Entry, j: nat, y: Entry) returns (s': State)
    requires Smooth(s, Expanding(e, j, j), s.queue, s.order, s.settled) && e.node < 2 && s.expansions < 4
    requires e.gain == UNITY && !e.amplified && e.depth < 2
    requires j < |DIAMOND.Outs(e.node)| && Hopped(TWO_HOPS, e, DIAMOND.Outs(e.node)[j]) == Some(y)
             && y.node !in s.settled
    ensures Follows(TWO_HOPS, s, s')
    ensures Smooth(s', Expanding(e, j + 1, j + 1), s.queue + [y], s.order, s.settled)
            && s'.expansions == s.expansions + 1
  {
    DiamondRows();
    s' := Step(TWO_HOPS, s, 0);
  }

  lemma DiamondLeave(s: State, e: Entry, j: nat) returns (s': State)
    requires Smooth(s, Expanding(e, j, j), s.queue, s.order, s.settled) && e.node < 2 && j == |DIAMOND.Outs(e.node)|
    ensures Follows(TWO_HOPS, s, s') && Smooth(s', Selecting, s.queue, s.order, s.settled)
            && s'.expansions == s.expansions
  {
    s' := Step(TWO_HOPS, s, 0);
  }

  lemma DiamondHops()
    ensures Hopped(TWO_HOPS, SEED0, 0) == Some(ONE_HOP)
    ensures Hopped(TWO_HOPS, SEED0, 1) == Some(WEAK)
    ensures Hopped(TWO_HOPS, ONE_HOP, 2) == Some(STRONG)
    ensures Hopped(TWO_HOPS, WEAK, 3) == Some(Entry(HALF, 3, 2, UNITY, false, Via(2, 3)))
  {
    DiamondRows();
  }

  lemma DiamondStart() returns (run: seq<State>)
    ensures IsRun(TWO_HOPS, run) && Smooth(Final(run), Expanding(SEED0, 0, 0), [], [SEED0], {0})
    ensures Final(run).expansions == 0
  {
    var s := Start(TWO_HOPS).value;
    assert IsRun(TWO_HOPS, [s]) && Maximal(s.queue, 0);
    var s' := DiamondSelect(s, 0, [], [], {});
    run := Grown([s], s');
  }

  /** The entries behind the edges of an entry, in row order. */
  predicate Behind(e: Entry, ys: seq<Entry>, settled: set<nat>) {
    && e.node < 2 && e.gain == UNITY && !e.amplified && e.depth < 2 && |ys| == |DIAMOND.Outs(e.node)| <= 2
    && forall j :: 0 <= j < |ys| ==> BehindAt(e, j, ys[j], settled)
  }

  predicate BehindAt(e: Entry, j: nat, y: Entry, settled: set<nat>) {
    j < |DIAMOND.Outs(e.node)| && Hopped(TWO_HOPS, e, DIAMOND.Outs(e.node)[j]) == Some(y) && y.node !in settled
  }

  lemma DiamondCrossAt(
    run: seq<State>, e: Entry, ys: seq<Entry>, j: nat, queue: seq<Entry>, order: seq<Entry>, settled: set<nat>)
    returns (run': seq<State>)
    requires j < |ys| && Behind(e, ys, settled)
    requires IsRun(TWO_HOPS, run) && Final(run).expansions <= 2 + j
             && Smooth(Final(run), Expanding(e, j, j), queue, order, settled)
    ensures IsRun(TWO_HOPS, run') && Smooth(Final(run'), Expanding(e, j + 1, j + 1), queue + [ys[j]], order, settled)
    ensures Final(run').expansions == Final(run).expansions + 1
  {
    assert BehindAt(e, j, ys[j], settled);
    var s' := DiamondCross(Final(run), e, j, ys[j]);
    run' := Grown(run, s');
  }

  lemma Regrouped<T>(a: seq<T>, b: seq<T>, j: nat)
    requires j < |b|
    ensures a + [b[j]] + b[j + 1..] == a + b[j..]
  {
  }

  lemma {:induction false} DiamondCrossAll(
    run: seq<State>, e: Entry, ys: seq<Entry>, j: nat, queue: seq<Entry>, order: seq<Entry>, settled: set<nat>)
    returns (run': seq<State>)
    requires j <= |ys| && Behind(e, ys, settled)
    requires IsRun(TWO_HOPS, run) && Final(run).expansions <= 2 + j
             && Smooth(Final(run), Expanding(e, j, j), queue, order, settled)
    ensures IsRun(TWO_HOPS, run') && Smooth(Final(run'), Expanding(e, |ys|, |ys|), queue + ys[j..], order, settled)
    ensures Final(run').expansions == Final(run).expansions + |ys| - j
    decreases |ys| - j
  {
    run' := run;
    if j < |ys| {
      run' := DiamondCrossAt(run', e, ys, j, queue, order, settled);
      run' := DiamondCrossAll(run', e, ys, j + 1, queue + [ys[j]], order, settled);
      Regrouped(queue, ys, j);
    } else {
      assert queue + ys[j..] == queue;
    }
  }

  lemma DiamondExpand(
    run: seq<State>, e: Entry, ys: seq<Entry>, queue: seq<Entry>, order: seq<Entry>, settled: set<nat>)
    returns (run': seq<State>)
    requires Behind(e, ys, settled)
    requires IsRun(TWO_HOPS, run) && Final(run).expansions <= 2
             && Smooth(Final(run), Expanding(e, 0, 0), queue, order, settled)
    ensures IsRun(TWO_HOPS, run') && Smooth(Final(run'), Selecting, queue + ys, order, settled)
    ensures Final(run').expansions == Final(run).expansions + |ys|
  {
    run' := DiamondCrossAll(run, e, ys, 0, queue, order, settled);
    var s' := DiamondLeave(Final(run'), e, |ys|);
    run' := Grown(run', s');
  }

  lemma DiamondLeft() returns (run: seq<State>)
    ensures IsRun(TWO_HOPS, run) && Smooth(Final(run), Selecting, [ONE_HOP, WEAK], [SEED0], {0})
            && Final(run).expansions == 2
  {
    run := DiamondStart();
    DiamondRows();
    DiamondHops();
    run := DiamondExpand(run, SEED0, [ONE_HOP, WEAK], [], [SEED0], {0});
    assert [] + [ONE_HOP, WEAK] == [ONE_HOP, WEAK];
  }

  lemma DiamondTop() returns (run: seq<State>)
    ensures IsRun(TWO_HOPS, run) && Final(run).expansions == 2
    ensures Smooth(Final(run), Expanding(ONE_HOP, 0, 0), [WEAK], [SEED0] + [ONE_HOP], {0} + {1})
  {
    run := DiamondLeft();
    assert Without([ONE_HOP, WEAK], 0) == [WEAK];
    var s := DiamondSelect(Final(run), 0, [WEAK], [SEED0], {0});
    run := Grown(run, s);
  }

  lemma DiamondRight() returns (run: seq<State>)
    ensures IsRun(TWO_HOPS, run) && Smooth(Final(run), Selecting, [WEAK, STRONG], [SEED0] + [ONE_HOP], {0} + {1})
  {
    run := DiamondTop();
    DiamondRows();
    DiamondHops();
    run := DiamondExpand(run, ONE_HOP, [STRONG], [WEAK], [SEED0] + [ONE_HOP], {0} + {1});
    assert [WEAK] + [STRONG] == [WEAK, STRONG];
  }

  lemma DiamondHead() returns (run: seq<State>)
    ensures IsRun(TWO_HOPS, run)
    ensures Smooth(Final(run), Refusing(2, 2, MAX_HOPS, 0), [WEAK], [SEED0] + [ONE_HOP] + [STRONG], {0} + {1} + {2})
  {
    run := DiamondRight();
    assert Without([WEAK, STRONG], 1) == [WEAK];
    var s := DiamondSelect(Final(run), 1, [WEAK], [SEED0] + [ONE_HOP], {0} + {1});
    run := Grown(run, s);
  }

  lemma Grown(run: seq<State>, s: State) returns (run': seq<State>)
    requires IsRun(TWO_HOPS, run) && Follows(TWO_HOPS, Final(run), s)
    ensures IsRun(TWO_HOPS, run') && Final(run') == s
  {
    RunGrows(TWO_HOPS, run, s);
    run' := run + [s];
  }

  lemma DiamondTail(s: State) returns (a: State, b: State, d: State, e: State)
    requires Smooth(s, Refusing(2, 2, MAX_HOPS, 0), [WEAK], s.order, {0} + {1} + {2}) && |s.order| == 3
    ensures Follows(TWO_HOPS, s, a) && Follows(TWO_HOPS, a, b) && Follows(TWO_HOPS, b, d) && Follows(TWO_HOPS, d, e)
    ensures e.mode.Finished? && e.settled == {0, 1, 2}
  {
    DiamondRows();
    a := Step(TWO_HOPS, s, 0);
    b := Step(TWO_HOPS, a, 0);
    assert b.mode == Selecting && b.queue == [WEAK] && Maximal(b.queue, 0);
    d := Step(TWO_HOPS, b, 0);
    assert d.queue == [];
    e := Step(TWO_HOPS, d, 0);
  }

  lemma DiamondFinishes() returns (run: seq<State>)
    ensures IsCompleteRun(TWO_HOPS, run) && 3 !in Final(run).settled
  {
    run := DiamondHead();
    var a, b, d, e := DiamondTail(Final(run));
    run := Grown(run, a);
    run := Grown(run, b);
    run := Grown(run, d);
    run := Grown(run, e);
  }

  /** The documentation promises that the worklist settles each resource with the highest potential that
      reaches it. When the hop limit binds it does not: here an admissible walk of two hops, within every
      hop bound, carries half pressure to resource 3, yet the run never settles it, because resource 2
      settled along the stronger walk and has no hops left. */
  lemma HopLimitLosesDescendants() returns (run: seq<State>)
    ensures TWO_HOPS.Valid() && TWO_HOPS.policy.Valid() && !TWO_HOPS.Granted()
    ensures IsCompleteRun(TWO_HOPS, run) && 3 !in Final(run).settled
    ensures WithinHops(TWO_HOPS, [1, 3]) && Walk(TWO_HOPS, [1, 3]).Some?
    ensures Walk(TWO_HOPS, [1, 3]).value.node == 3 && Walk(TWO_HOPS, [1, 3]).value.potential == HALF
  {
    DiamondValid();
    run := DiamondFinishes();
    WeakWalk();
  }

  lemma WeakWalk()
    ensures WithinHops(TWO_HOPS, [1, 3]) && Walk(TWO_HOPS, [1, 3]) == Some(Entry(HALF, 3, 2, UNITY, false, Via(2, 3)))
  {
    DiamondHops();
    assert [1, 3][..1] == [1] && [1][..0] == [];
    assert Walk(TWO_HOPS, [1]) == Some(WEAK);
  }
}
