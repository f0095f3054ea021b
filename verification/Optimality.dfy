/** The best-first theorem, and limits a caller can check beforehand that make it unconditional. */
module Optimality {
  import opened FixedPoint
  import opened Traversal
  import opened RunBounds
  import opened Paths
  import opened BestFirst
  import opened RunRecords

  /** The seed waits alone, was lost with a record, or has been settled first. */
  ghost predicate Seeded(c: Context, s: State) {
    if s.order == [] then
      || (s.mode.Finished? && (s.truncated || s.mode.ending == VisitedBudget))
      || (s.settled == {} && s.mode.Selecting? && s.queue == [SeedEntry(c, Origin(c))])
    else s.order[0] == SeedEntry(c, Origin(c))
  }

  lemma SelectSeeded(c: Context, s: State, i: nat)
    requires Sane(c, s) && OriginOpen(c) && Seeded(c, s) && s.mode.Selecting? && i < |s.queue|
    ensures Seeded(c, Select(c, s, i))
  {
    if s.order != [] {
      assert (s.order + [s.queue[i]])[0] == s.order[0];
    }
  }

  lemma StepSeeded(c: Context, s: State, i: nat)
    requires Sane(c, s) && Focused(s) && OriginOpen(c) && Seeded(c, s) && !s.mode.Finished?
    requires s.mode.Selecting? && s.queue != [] ==> i < |s.queue|
    ensures Seeded(c, Step(c, s, i))
  {
    match s.mode
    case Selecting =>
      if s.queue != [] && |s.order| < c.policy.maxVisited { SelectSeeded(c, s, i); }
    case Expanding(_, _, _) => assert Expand(c, s).order == s.order;
    case Refusing(_, _, _, _) => assert Shut(c, s).order == s.order;
  }

  lemma FollowsSeeded(c: Context, s: State, s': State)
    requires Follows(c, s, s') && Focused(s) && OriginOpen(c) && Seeded(c, s)
    ensures Seeded(c, s')
  {
    var i := PickOf(c, s, s');
    StepSeeded(c, s, i);
  }

  lemma {:induction false} RunSeeded(c: Context, run: seq<State>, k: nat)
    requires IsRun(c, run) && OriginOpen(c) && k < |run|
    ensures Seeded(c, run[k])
  {
    if k > 0 {
      RunSeeded(c, run, k - 1);
      RunBounded(c, run, k - 1);
      assert FollowsAt(c, run, k);
      FollowsSeeded(c, run[k - 1], run[k]);
    }
  }

  /** Some admissible walk from the origin carries pressure to the resource. */
  ghost predicate Reachable(c: Context, node: nat) {
    exists w :: Walk(c, w).Some? && Walk(c, w).value.node == node
  }

  /** The potential is carried by some admissible walk to the resource and no such walk carries more. */
  ghost predicate IsBest(c: Context, node: nat, p: Potential) {
    && (exists w :: Walk(c, w).Some? && Walk(c, w).value.node == node && Walk(c, w).value.potential == p)
    && (forall w :: Walk(c, w).Some? && Walk(c, w).value.node == node ==> Walk(c, w).value.potential <= p)
  }

  lemma UnlimitedIsNotLimited(c: Context, run: seq<State>)
    requires c.Valid() && IsCompleteRun(c, run) && Unlimited(Final(run))
    ensures Final(run).book.Valid() && !Limited(Final(run).book, Final(run).truncated) && Final(run).queue == []
  {
    RunAccounted(c, run, |run| - 1);
  }

  /** Any walk to a settled resource carries at most what the resource settled with, and every resource
      a walk reaches is settled. */
  lemma WalkSettled(c: Context, run: seq<State>, w: seq<nat>)
    requires c.Valid() && !c.Granted() && IsCompleteRun(c, run) && Unlimited(Final(run))
    requires Walk(c, w).Some?
    ensures Brings(Final(run).order, Walk(c, w).value.node, Walk(c, w).value.potential)
  {
    var s := Final(run);
    WalkStartsOpen(c, w);
    UnlimitedIsNotLimited(c, run);
    RunFalling(c, run, |run| - 1);
    RunExploring(c, run, |run| - 1);
    RunSeeded(c, run, |run| - 1);
    assert s.order[0] == SeedEntry(c, Origin(c));
    WalksAreDominated(c, s, w);
  }

  lemma SettledIsBest(c: Context, run: seq<State>, k: nat)
    requires c.Valid() && !c.Granted() && IsCompleteRun(c, run) && Unlimited(Final(run)) && k < |Final(run).order|
    ensures IsBest(c, Final(run).order[k].node, Final(run).order[k].potential)
  {
    var order := Final(run).order;
    RunPathReconstructs(c, run, k);
    forall w | Walk(c, w).Some? && Walk(c, w).value.node == order[k].node
      ensures Walk(c, w).value.potential <= order[k].potential
    {
      WalkSettled(c, run, w);
      BroughtOnce(c, run, k, Walk(c, w).value.potential);
    }
  }

  /** A resource settles once, so what was brought to it is bounded by that settlement. */
  lemma BroughtOnce(c: Context, run: seq<State>, k: nat, p: Potential)
    requires c.Valid() && IsCompleteRun(c, run) && k < |Final(run).order|
    requires Brings(Final(run).order, Final(run).order[k].node, p)
    ensures p <= Final(run).order[k].potential
  {
    var order := Final(run).order;
    RunBounded(c, run, |run| - 1);
    var m :| 0 <= m < |order| && order[m].node == order[k].node && p <= order[m].potential;
    assert m == k;
  }

  lemma SettledIffReachable(c: Context, run: seq<State>, node: nat)
    requires c.Valid() && !c.Granted() && IsCompleteRun(c, run) && Unlimited(Final(run))
    ensures node in Final(run).settled <==> Reachable(c, node)
  {
    RunBounded(c, run, |run| - 1);
    NodesOf(Final(run).order, node);
    if Reachable(c, node) { ReachedIsBrought(c, run, node); }
    if node in Final(run).settled { SettledIsReached(c, run, node); }
  }

  lemma ReachedIsBrought(c: Context, run: seq<State>, node: nat)
    requires c.Valid() && !c.Granted() && IsCompleteRun(c, run) && Unlimited(Final(run)) && Reachable(c, node)
    ensures exists p :: Brings(Final(run).order, node, p)
  {
    var w :| Walk(c, w).Some? && Walk(c, w).value.node == node;
    WalkSettled(c, run, w);
  }

  lemma SettledIsReached(c: Context, run: seq<State>, node: nat)
    requires IsCompleteRun(c, run) && exists k :: 0 <= k < |Final(run).order| && Final(run).order[k].node == node
    ensures Reachable(c, node)
  {
    var k :| 0 <= k < |Final(run).order| && Final(run).order[k].node == node;
    RunPathReconstructs(c, run, k);
  }

  /** Best-first optimality; nothing is reachable from an origin that may not take the pressure. */
  lemma BestFirstOptimal(c: Context, run: seq<State>)
    requires c.Valid() && !c.Granted() && IsCompleteRun(c, run) && Unlimited(Final(run))
    ensures forall node :: node in Final(run).settled <==> Reachable(c, node)
    ensures forall k :: 0 <= k < |Final(run).order| ==>
            IsBest(c, Final(run).order[k].node, Final(run).order[k].potential)
  {
    forall node ensures node in Final(run).settled <==> Reachable(c, node) { SettledIffReachable(c, run, node); }
    forall k | 0 <= k < |Final(run).order|
      ensures IsBest(c, Final(run).order[k].node, Final(run).order[k].potential)
    {
      SettledIsBest(c, run, k);
    }
  }
}
