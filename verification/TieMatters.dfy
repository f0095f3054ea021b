/** With granted amplification the choice among tied entries matters: one context, two complete runs, different
    records. */
module TieMatters {
  import opened FixedPoint
  import opened Model
  import opened Graph
  import opened Records
  import opened Traversal

  const DOUBLE: Gain := 2 * UNITY
  const HALF: Potential := 0x8000_0000

  function Plain(id: nat): Edge { Edge(id, 0, 1, UNITY, UNITY, 0, 1, 0, id, false, false, false) }

  function Doubling(id: nat, source: nat, target: nat): Edge {
    Edge(id, source, target, 0x8000, DOUBLE, 0, 1, 0, id, true, false, false)
  }

  /** 0 reaches 1 over a plain edge, and over one that halves and doubles; a doubling edge leads on to 2. */
  const FORK := Topology(
    [Resource(0, Unprotected, true, 1), Resource(1, Unprotected, true, 1), Resource(2, Unprotected, true, 1)],
    [Plain(0), Doubling(1, 0, 1), Doubling(2, 1, 2)],
    map[0 := 0, 1 := 1, 2 := 2], [0, 2, 3, 3], [0, 1, 2])

  /** Half pressure at 0, gain of two granted, two visits. */
  const GRANTED := Context(
    FORK,
    Policy(1, 1, 8, 8, 8, 2, 1, 16, 1, 0, 1, Max, UNITY, true, DOUBLE, 0, 0, Decay(UNITY, 1, 0, 1), 1, 2, 3, 4, true),
    [], map[], 0, map[],
    Signal(1, 1, 0, 0x8000, Authority(Global, 1, {}, 0, true, DOUBLE), 1, 0, UNITY), 16)

  const SEED := Entry(HALF, 0, 0, UNITY, false, Root)
  const PLAINLY := Entry(HALF, 1, 1, UNITY, false, Via(0, 0))
  const DOUBLED := Entry(HALF, 1, 1, DOUBLE, true, Via(0, 1))

  lemma Rows()
    ensures FORK.Outs(0) == [0, 1] && FORK.Outs(1) == [2]
  {
    assert FORK.outgoing[0..2] == [0, 1] && FORK.outgoing[2..3] == [2];
  }

  lemma ForkIndexed()
    ensures FORK.Indexed() && FORK.Shaped()
  {
  }

  lemma ForkRow(i: nat)
    requires i < 3 && FORK.Indexed()
    ensures FORK.RowExact(i)
  {
    Rows();
    if i == 0 { assert FORK.Outs(0) == [0, 1]; } else if i == 1 { assert FORK.Outs(1) == [2]; }
  }

  lemma ForkValid()
    ensures GRANTED.Valid()
  {
    ForkIndexed();
    forall i | 0 <= i < |FORK.resources| ensures FORK.RowExact(i) { ForkRow(i); }
  }

  /** A state with no refusal so far. */
  predicate Now(s: State, mode: Mode, queue: seq<Entry>, order: seq<Entry>, settled: set<nat>, hops: nat) {
    && s.mode == mode && s.queue == queue && s.order == order && s.settled == settled
    && s.book.Valid() && Quiet(s.book.pending, 0) && |s.book.hops| == s.expansions == hops && s.book.budget + hops == 16
    && !s.budgetStop && (s.window.Some? ==> s.window.value in settled)
  }

  lemma Fresh()
    ensures Start(GRANTED).Ok? && Now(Start(GRANTED).value, Selecting, [SEED], [], {}, 0)
  {
  }

  lemma Settled(s: State, i: nat, order: seq<Entry>, settled: set<nat>, hops: nat) returns (t: State)
    requires Now(s, Selecting, s.queue, order, settled, hops) && Maximal(s.queue, i) && |order| < 2
    requires var e := s.queue[i]; e.node < 2 && e.node !in settled && e.depth < 8
    ensures Follows(GRANTED, s, t)
    ensures Now(t, Expanding(s.queue[i], 0, 0), Without(s.queue, i), order + [s.queue[i]],
                settled + {s.queue[i].node}, hops)
  {
    t := Step(GRANTED, s, i);
    FlushQuiet(s.book, 0);
  }

  /** What crossing each edge comes to. */
  lemma Crossings()
    ensures GRANTED.Cross(0, HALF, UNITY, false) == Carry(HALF, UNITY, false)
    ensures GRANTED.Cross(1, HALF, UNITY, false) == Carry(HALF, DOUBLE, true)
    ensures GRANTED.Cross(2, HALF, UNITY, false) == Carry(HALF, DOUBLE, true)
    ensures GRANTED.Cross(2, HALF, DOUBLE, true) == Refuse(AMPLIFICATION_BUDGET)
  {
  }

  lemma Taken(s: State, e: Entry, j: nat, ei: nat, d: Decision, hops: nat) returns (t: State)
    requires Now(s, Expanding(e, j, j), s.queue, s.order, s.settled, hops) && hops < 8 && j < 8 && e.node < 2
             && e.depth < 7
    requires j < |FORK.Outs(e.node)| && FORK.Outs(e.node)[j] == ei < 3 && FORK.Target(ei) !in s.settled
    requires GRANTED.Cross(ei, e.potential, e.gain, e.amplified) == d && d.Carry?
    ensures Follows(GRANTED, s, t)
    ensures Now(t, Expanding(e, j + 1, j + 1),
                s.queue + [Entry(d.next, FORK.Target(ei), e.depth + 1, d.gain, d.amplified, Via(e.node, ei))],
                s.order, s.settled, hops + 1)
  {
    t := Step(GRANTED, s, 0);
  }

  lemma Left(s: State, e: Entry, j: nat, hops: nat) returns (t: State)
    requires Now(s, Expanding(e, j, j), s.queue, s.order, s.settled, hops) && e.node < 2 && j == |FORK.Outs(e.node)|
    ensures Follows(GRANTED, s, t) && Now(t, Selecting, s.queue, s.order, s.settled, hops)
  {
    t := Step(GRANTED, s, 0);
  }

  lemma Grown(run: seq<State>, s: State) returns (run': seq<State>)
    requires IsRun(GRANTED, run) && Follows(GRANTED, Final(run), s)
    ensures IsRun(GRANTED, run') && Final(run') == s
  {
    run' := run + [s];
    RunGrows(GRANTED, run, s);
  }

  lemma Opened() returns (run: seq<State>)
    ensures IsRun(GRANTED, run) && Now(Final(run), Expanding(SEED, 0, 0), [], [SEED], {0}, 0)
  {
    Fresh();
    var s0 := Start(GRANTED).value;
    run := [s0];
    assert Maximal(s0.queue, 0) && Without(s0.queue, 0) == [] && [] + [SEED] == [SEED] && {} + {0} == {0};
    var s1 := Settled(s0, 0, [], {}, 0);
    run := Grown(run, s1);
  }

  lemma TakenPlainly(s: State) returns (t: State)
    requires Now(s, Expanding(SEED, 0, 0), [], [SEED], {0}, 0)
    ensures Follows(GRANTED, s, t) && Now(t, Expanding(SEED, 1, 1), [PLAINLY], [SEED], {0}, 1)
  {
    Rows();
    Crossings();
    t := Taken(s, SEED, 0, 0, Carry(HALF, UNITY, false), 0);
    assert [] + [PLAINLY] == [PLAINLY];
  }

  lemma TakenDoubled(s: State) returns (t: State)
    requires Now(s, Expanding(SEED, 1, 1), [PLAINLY], [SEED], {0}, 1)
    ensures Follows(GRANTED, s, t) && Now(t, Expanding(SEED, 2, 2), [PLAINLY, DOUBLED], [SEED], {0}, 2)
  {
    Rows();
    Crossings();
    t := Taken(s, SEED, 1, 1, Carry(HALF, DOUBLE, true), 1);
    assert [PLAINLY] + [DOUBLED] == [PLAINLY, DOUBLED];
  }

  /** Both ways into 1 are queued, and neither outranks the other. */
  lemma Forked() returns (run: seq<State>)
    ensures IsRun(GRANTED, run) && Now(Final(run), Selecting, [PLAINLY, DOUBLED], [SEED], {0}, 2)
  {
    Rows();
    run := Opened();
    var s2 := TakenPlainly(Final(run));
    run := Grown(run, s2);
    var s3 := TakenDoubled(s2);
    run := Grown(run, s3);
    var s4 := Left(s3, SEED, 2, 2);
    run := Grown(run, s4);
  }

  /** Two resources have settled and the next look at the queue ends the run. */
  predicate Late(s: State, hops: nat) {
    s.mode.Selecting? && s.book.Valid() && |s.order| == 2 && |s.book.hops| == hops && s.queue != []
      && Maximal(s.queue, 0)
  }

  lemma Ended(run: seq<State>, hops: nat) returns (run': seq<State>)
    requires IsRun(GRANTED, run) && Late(Final(run), hops)
    ensures IsCompleteRun(GRANTED, run') && |Final(run').book.hops| == hops
  {
    var s := Final(run);
    var t := Step(GRANTED, s, 0);
    assert t == Finish(s, VisitedBudget);
    run' := Grown(run, t);
  }

  const ONWARD := Entry(HALF, 2, 2, DOUBLE, true, Via(1, 2))

  lemma PlainTop() returns (run: seq<State>)
    ensures IsRun(GRANTED, run)
    ensures Now(Final(run), Expanding(PLAINLY, 0, 0), [DOUBLED], [SEED] + [PLAINLY], {0} + {1}, 2)
  {
    run := Forked();
    assert Without([PLAINLY, DOUBLED], 0) == [DOUBLED];
    var s := Settled(Final(run), 0, [SEED], {0}, 2);
    run := Grown(run, s);
  }

  lemma DoubledTop() returns (run: seq<State>)
    ensures IsRun(GRANTED, run)
    ensures Now(Final(run), Expanding(DOUBLED, 0, 0), [PLAINLY], [SEED] + [DOUBLED], {0} + {1}, 2)
  {
    run := Forked();
    assert Without([PLAINLY, DOUBLED], 1) == [PLAINLY];
    var s := Settled(Final(run), 1, [SEED], {0}, 2);
    run := Grown(run, s);
  }

  lemma TakenOnward(s: State) returns (t: State)
    requires Now(s, Expanding(PLAINLY, 0, 0), [DOUBLED], [SEED] + [PLAINLY], {0} + {1}, 2)
    ensures Follows(GRANTED, s, t)
            && Now(t, Expanding(PLAINLY, 1, 1), [DOUBLED, ONWARD], [SEED] + [PLAINLY], {0} + {1}, 3)
  {
    Rows();
    Crossings();
    t := Taken(s, PLAINLY, 0, 2, Carry(HALF, DOUBLE, true), 2);
    assert [DOUBLED] + [ONWARD] == [DOUBLED, ONWARD];
  }

  /** Taking the plain way leaves gain for the edge to 2. */
  lemma PlainRun() returns (run: seq<State>)
    ensures IsCompleteRun(GRANTED, run) && |Final(run).book.hops| == 3
  {
    Rows();
    run := PlainTop();
    var s2 := TakenOnward(Final(run));
    run := Grown(run, s2);
    var s3 := Left(s2, PLAINLY, 1, 3);
    run := Grown(run, s3);
    run := Ended(run, 3);
  }

  lemma Refused(s: State) returns (t: State)
    requires Now(s, Expanding(DOUBLED, 0, 0), [PLAINLY], s.order, s.settled, 2) && 2 !in s.settled
    ensures Follows(GRANTED, s, t)
    ensures t.mode == Expanding(DOUBLED, 1, 0) && t.queue == s.queue && t.order == s.order && t.book.Valid()
    ensures |t.book.hops| == 2 && !t.budgetStop
  {
    Rows();
    Crossings();
    t := Step(GRANTED, s, 0);
  }

  lemma LeftRefused(s: State) returns (t: State)
    requires s.mode == Expanding(DOUBLED, 1, 0) && s.book.Valid() && !s.budgetStop
    ensures Follows(GRANTED, s, t) && t == s.(mode := Selecting)
  {
    Rows();
    t := Step(GRANTED, s, 0);
  }

  /** Taking the doubled way uses the gain up. */
  lemma DoubledRun() returns (run: seq<State>)
    ensures IsCompleteRun(GRANTED, run) && |Final(run).book.hops| == 2
  {
    run := DoubledTop();
    var s2 := Refused(Final(run));
    run := Grown(run, s2);
    var s3 := LeftRefused(s2);
    run := Grown(run, s3);
    run := Ended(run, 2);
  }

  /** The documentation calls the queue order total. It is not: with amplification granted, one context has two complete
      runs, each popping only entries that none outranks, that record different hops. */
  lemma TiesCanMatter() returns (r: seq<State>, t: seq<State>)
    ensures GRANTED.Valid() && GRANTED.policy.Valid() && GRANTED.Granted()
    ensures IsCompleteRun(GRANTED, r) && IsCompleteRun(GRANTED, t) && Final(r).book.hops != Final(t).book.hops
  {
    ForkValid();
    r := PlainRun();
    t := DoubledRun();
  }
}
