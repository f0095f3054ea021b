/** Tie independence: the worklist order is total only up to the predecessor link, and without granted
    amplification the choice among tied entries changes nothing but predecessors. */
module Ties {
  import opened Traversal
  import opened RunBounds
  import opened BestFirst

  /** An entry without its predecessor. */
  function Strip(e: Entry): Entry { e.(link := Root) }

  /** A settlement sequence without predecessors. */
  function Strips(entries: seq<Entry>): (r: seq<Entry>)
    ensures |r| == |entries|
  {
    if entries == [] then [] else Strips(entries[..|entries| - 1]) + [Strip(entries[|entries| - 1])]
  }

  /** Queue contents without predecessors or order. */
  function Bag(entries: seq<Entry>): (r: multiset<Entry>)
    ensures |r| == |entries|
  {
    if entries == [] then multiset{} else Bag(entries[..|entries| - 1]) + multiset{Strip(entries[|entries| - 1])}
  }

  /** A state without its queue, its settlements and the predecessor of the entry in focus. */
  function Rest(s: State): State {
    var m := if s.mode.Expanding? then Expanding(Strip(s.mode.entry), s.mode.cursor, s.mode.fanout) else s.mode;
    s.(mode := m, queue := [], order := [])
  }

  /** Equal but for predecessors and the order of the queue. */
  ghost predicate Similar(a: State, b: State) {
    Rest(a) == Rest(b) && Bag(a.queue) == Bag(b.queue) && Strips(a.order) == Strips(b.order)
  }

  lemma Snoced(entries: seq<Entry>, e: Entry)
    ensures Strips(entries + [e]) == Strips(entries) + [Strip(e)]
    ensures Bag(entries + [e]) == Bag(entries) + multiset{Strip(e)}
  {
    assert (entries + [e])[..|entries|] == entries;
  }

  lemma {:induction false} StripsAt(entries: seq<Entry>, k: nat)
    requires k < |entries|
    ensures Strips(entries)[k] == Strip(entries[k])
  {
    if k < |entries| - 1 { StripsAt(entries[..|entries| - 1], k); }
  }

  lemma Commute<T>(m: multiset<T>, x: T, y: T)
    ensures m + multiset{x} + multiset{y} == m + multiset{y} + multiset{x}
  {
  }

  lemma Cancel<T>(a: multiset<T>, b: multiset<T>, x: T)
    requires a + multiset{x} == b + multiset{x}
    ensures a == b
  {
    assert a == (a + multiset{x}) - multiset{x};
    assert b == (b + multiset{x}) - multiset{x};
  }

  lemma WithoutSnoc<T>(s: seq<T>, i: nat)
    requires i < |s| - 1
    ensures Without(s, i) == Without(s[..|s| - 1], i) + [s[|s| - 1]]
  {
    var n := |s| - 1;
    assert s[..n][..i] == s[..i];
    assert s[..n][i + 1..] + [s[n]] == s[i + 1..];
  }

  lemma {:induction false} BagWithout(entries: seq<Entry>, i: nat)
    requires i < |entries|
    ensures Bag(entries) == Bag(Without(entries, i)) + multiset{Strip(entries[i])}
  {
    var n := |entries| - 1;
    if i == n {
      assert Without(entries, i) == entries[..n];
    } else {
      BagWithout(entries[..n], i);
      WithoutSnoc(entries, i);
      Snoced(Without(entries[..n], i), entries[n]);
      Commute(Bag(Without(entries[..n], i)), Strip(entries[i]), Strip(entries[n]));
    }
  }

  lemma {:induction false} BagMember(entries: seq<Entry>, x: Entry) returns (i: nat)
    requires x in Bag(entries)
    ensures i < |entries| && Strip(entries[i]) == x
  {
    var n := |entries| - 1;
    if Strip(entries[n]) == x { i := n; } else { i := BagMember(entries[..n], x); }
  }

  /** Positions that are maximal in queues with the same stripped contents hold the same stripped entry. */
  lemma SamePick(p: seq<Entry>, q: seq<Entry>, i: nat, j: nat)
    requires Bag(p) == Bag(q) && Plain(p) && Plain(q) && Maximal(p, i) && Maximal(q, j)
    ensures Strip(p[i]) == Strip(q[j])
  {
    BagWithout(p, i);
    BagWithout(q, j);
    var i' := BagMember(p, Strip(q[j]));
    var j' := BagMember(q, Strip(p[i]));
    Antisymmetric(p[i], q[j], p[i'], q[j']);
  }

  lemma Antisymmetric(a: Entry, b: Entry, b': Entry, a': Entry)
    requires !Below(a, b') && !Below(b, a') && Strip(b') == Strip(b) && Strip(a') == Strip(a)
    requires a.gain == b.gain && a.amplified == b.amplified
    ensures Strip(a) == Strip(b)
  {
  }

  /** Settling reads neither queue nor earlier settlements nor predecessors. */
  lemma SettleRest(c: Context, s: State, e: Entry)
    requires s.book.Valid() && e.node < |c.topo.resources|
    ensures Rest(Settle(c, s, e)) == Rest(Settle(c, Rest(s), Strip(e)))
    ensures Settle(c, s, e).queue == s.queue
    ensures Settle(c, s, e).order == if Settle(c, s, e).mode.Finished? then s.order else s.order + [e]
  {
  }

  lemma SettleSimilar(c: Context, a: State, b: State, e: Entry, f: Entry)
    requires Similar(a, b) && a.book.Valid() && b.book.Valid() && Strip(e) == Strip(f) && e.node < |c.topo.resources|
    ensures Similar(Settle(c, a, e), Settle(c, b, f))
  {
    SettleRest(c, a, e);
    SettleRest(c, b, f);
    SettleSame(a.order, b.order, e, f);
    assert Rest(Settle(c, a, e)).mode.Finished? == Rest(Settle(c, b, f)).mode.Finished?;
  }

  lemma SelectSimilar(c: Context, a: State, b: State, i: nat, j: nat)
    requires Similar(a, b) && Plain(a.queue) && Plain(b.queue) && a.book.Valid() && a.mode.Selecting?
    requires Maximal(a.queue, i) && Maximal(b.queue, j)
    ensures Similar(Select(c, a, i), Select(c, b, j))
  {
    SamePick(a.queue, b.queue, i, j);
    var p, q := Without(a.queue, i), Without(b.queue, j);
    assert Bag(p) == Bag(q) by {
      BagWithout(a.queue, i);
      BagWithout(b.queue, j);
      Cancel(Bag(p), Bag(q), Strip(a.queue[i]));
    }
    assert Rest(a.(queue := p)) == Rest(a) == Rest(b) == Rest(b.(queue := q));
    assert Rest(a).settled == Rest(b).settled && Rest(a).book == Rest(b).book;
    if a.queue[i].node < |c.topo.resources| {
      SettleSimilar(c, a.(queue := p), b.(queue := q), a.queue[i], b.queue[j]);
    }
  }

  lemma SettleSame(p: seq<Entry>, q: seq<Entry>, e: Entry, f: Entry)
    requires Strips(p) == Strips(q) && Strip(e) == Strip(f)
    ensures Strips(p + [e]) == Strips(q + [f])
  {
    Snoced(p, e);
    Snoced(q, f);
  }

  /** A verdict does not depend on the predecessor. */
  lemma DecideStripped(c: Context, settled: set<nat>, e: Entry, fanout: nat, expansions: nat, ei: nat)
    requires ei < |c.topo.edges|
    ensures c.Decide(settled, e, fanout, expansions, ei) == c.Decide(settled, Strip(e), fanout, expansions, ei)
  {
  }

  lemma AcceptRest(c: Context, s: State, ei: nat, d: Decision)
    requires Sane(c, s) && s.mode.Expanding? && ei < |c.topo.edges| && d.Carry? && s.book.budget > 0
    ensures var a := Accept(c, s, s.mode.entry, ei, d);
            var b := Accept(c, Rest(s), Strip(s.mode.entry), ei, d);
            b == a.(mode := Rest(s).mode, queue := b.queue, order := [])
            && |b.queue| == 1 && a.queue == s.queue + b.queue && a.order == s.order
  {
  }

  /** Considering the edge adds the same entry and changes everything else alike, whatever the predecessor. */
  ghost predicate ConsideredAlike(c: Context, s: State, ei: nat)
    requires Sane(c, s) && s.mode.Expanding?
  {
    && Sane(c, Rest(s)) && Rest(Consider(c, s, ei)) == Rest(Consider(c, Rest(s), ei))
    && Consider(c, s, ei).order == s.order
    && Consider(c, s, ei).queue == s.queue + Consider(c, Rest(s), ei).queue
    && |Consider(c, Rest(s), ei).queue| <= 1
  }

  lemma ConsiderRefuses(c: Context, s: State, ei: nat)
    requires Sane(c, s) && s.mode.Expanding?
    requires ei < |c.topo.edges| ==> c.Decide(s.settled, s.mode.entry, s.mode.fanout, s.expansions, ei).Refuse?
    ensures ConsideredAlike(c, s, ei)
  {
    if ei < |c.topo.edges| { DecideStripped(c, s.settled, s.mode.entry, s.mode.fanout, s.expansions, ei); }
  }

  lemma ConsiderCarries(c: Context, s: State, ei: nat)
    requires Sane(c, s) && s.mode.Expanding? && ei < |c.topo.edges|
    requires c.Decide(s.settled, s.mode.entry, s.mode.fanout, s.expansions, ei).Carry?
    ensures ConsideredAlike(c, s, ei)
  {
    DecideStripped(c, s.settled, s.mode.entry, s.mode.fanout, s.expansions, ei);
    if s.book.budget > 0 {
      AcceptRest(c, s, ei, c.Decide(s.settled, s.mode.entry, s.mode.fanout, s.expansions, ei));
    }
  }

  lemma ConsiderRest(c: Context, s: State, ei: nat)
    requires Sane(c, s) && s.mode.Expanding?
    ensures ConsideredAlike(c, s, ei)
  {
    if ei < |c.topo.edges| && c.Decide(s.settled, s.mode.entry, s.mode.fanout, s.expansions, ei).Carry? {
      ConsiderCarries(c, s, ei);
    } else {
      ConsiderRefuses(c, s, ei);
    }
  }

  /** Expanding reads neither queue nor settlements nor predecessors, and adds the same entry. */
  lemma ExpandRest(c: Context, s: State)
    requires Sane(c, s) && s.mode.Expanding?
    ensures Sane(c, Rest(s)) && Rest(Expand(c, s)) == Rest(Expand(c, Rest(s)))
    ensures Expand(c, s).order == s.order && Expand(c, s).queue == s.queue + Expand(c, Rest(s)).queue
    ensures |Expand(c, Rest(s)).queue| <= 1
  {
    var outs := c.topo.Outs(s.mode.entry.node);
    if s.mode.cursor < |outs| { ConsiderRest(c, s, outs[s.mode.cursor]); }
  }

  lemma BagAppend(p: seq<Entry>, q: seq<Entry>, r: seq<Entry>)
    requires Bag(p) == Bag(q) && |r| <= 1
    ensures Bag(p + r) == Bag(q + r)
  {
    if r == [] {
      assert p + r == p && q + r == q;
    } else {
      assert r == [r[0]];
      Snoced(p, r[0]);
      Snoced(q, r[0]);
    }
  }

  lemma ExpandSimilar(c: Context, a: State, b: State)
    requires Similar(a, b) && Sane(c, a) && Sane(c, b) && a.mode.Expanding? && b.mode.Expanding?
    ensures Similar(Expand(c, a), Expand(c, b))
  {
    ExpandRest(c, a);
    ExpandRest(c, b);
    BagAppend(a.queue, b.queue, Expand(c, Rest(a)).queue);
  }

  lemma ShutRest(c: Context, s: State)
    requires Sane(c, s) && s.mode.Refusing?
    ensures Rest(Shut(c, s)) == Rest(Shut(c, Rest(s)))
    ensures Shut(c, s).order == s.order && Shut(c, s).queue == s.queue
  {
  }

  lemma FinishRest(s: State, ending: Ending)
    requires s.book.Valid()
    ensures Rest(Finish(s, ending)) == Rest(Finish(Rest(s), ending))
    ensures Finish(s, ending).order == s.order && Finish(s, ending).queue == s.queue
  {
  }

  lemma SameSizes(a: State, b: State)
    requires Similar(a, b)
    ensures |a.queue| == |b.queue| && |a.order| == |b.order|
  {
    assert |Bag(a.queue)| == |Bag(b.queue)| && |Strips(a.order)| == |Strips(b.order)|;
  }

  lemma SameKind(a: State, b: State)
    requires Similar(a, b)
    ensures a.mode.Selecting? == b.mode.Selecting? && a.mode.Expanding? == b.mode.Expanding?
    ensures a.mode.Refusing? == b.mode.Refusing? && a.mode.Finished? == b.mode.Finished?
  {
    assert Rest(a).mode == Rest(b).mode;
  }

  lemma StepSimilar(c: Context, a: State, b: State, i: nat, j: nat)
    requires Similar(a, b) && Sane(c, a) && Sane(c, b) && Plain(a.queue) && Plain(b.queue)
    requires !a.mode.Finished? && !b.mode.Finished?
    requires a.mode.Selecting? && a.queue != [] ==> Maximal(a.queue, i)
    requires b.mode.Selecting? && b.queue != [] ==> Maximal(b.queue, j)
    ensures Similar(Step(c, a, i), Step(c, b, j))
  {
    SameSizes(a, b);
    SameKind(a, b);
    match a.mode
    case Selecting =>
      if a.queue != [] && |a.order| < c.policy.maxVisited {
        SelectSimilar(c, a, b, i, j);
      } else {
        var ending := if a.queue == [] then Drained else VisitedBudget;
        FinishRest(a, ending);
        FinishRest(b, ending);
      }
    case Expanding(_, _, _) => ExpandSimilar(c, a, b);
    case Refusing(_, _, _, _) => ShutRest(c, a); ShutRest(c, b);
  }

  lemma NextSimilar(c: Context, a: State, a': State, b: State, b': State)
    requires Similar(a, b) && Plain(a.queue) && Plain(b.queue) && Follows(c, a, a') && Follows(c, b, b')
    ensures Similar(a', b')
  {
    var i := PickOf(c, a, a');
    var j := PickOf(c, b, b');
    StepSimilar(c, a, b, i, j);
  }

  lemma NextOfRuns(c: Context, r: seq<State>, t: seq<State>, k: nat)
    requires IsRun(c, r) && IsRun(c, t) && 0 < k < |r| && k < |t|
    requires Similar(r[k - 1], t[k - 1]) && Plain(r[k - 1].queue) && Plain(t[k - 1].queue)
    ensures Similar(r[k], t[k])
  {
    assert FollowsAt(c, r, k) && FollowsAt(c, t, k);
    NextSimilar(c, r[k - 1], r[k], t[k - 1], t[k]);
  }

  /** Two runs of the same context agree, state by state, on everything but predecessors. */
  lemma {:induction false} RunsSimilar(c: Context, r: seq<State>, t: seq<State>, k: nat)
    requires !c.Granted() && IsRun(c, r) && IsRun(c, t) && k < |r| && k < |t|
    ensures Similar(r[k], t[k])
  {
    if k > 0 {
      RunsSimilar(c, r, t, k - 1);
      RunFalling(c, r, k - 1);
      RunFalling(c, t, k - 1);
      NextOfRuns(c, r, t, k);
    }
  }

  /** Every way of breaking ties gives a run of the same length with the same ending, the same settlement
      sequence of (resource, potential, depth), and the same hop and suppression records. */
  lemma TieIndependent(c: Context, r: seq<State>, t: seq<State>)
    requires !c.Granted() && IsCompleteRun(c, r) && IsCompleteRun(c, t)
    ensures |r| == |t|
    ensures Final(r).mode == Final(t).mode && Final(r).truncated == Final(t).truncated
    ensures Final(r).book == Final(t).book && Final(r).forwarded == Final(t).forwarded
    ensures Final(r).considered == Final(t).considered && Final(r).refused == Final(t).refused
    ensures Strips(Final(r).order) == Strips(Final(t).order) && |Final(r).order| == |Final(t).order|
    ensures forall k :: 0 <= k < |Final(r).order| ==>
              var x, y := Final(r).order[k], Final(t).order[k];
              x.node == y.node && x.potential == y.potential && x.depth == y.depth
  {
    var n := if |r| <= |t| then |r| else |t|;
    RunsSimilar(c, r, t, n - 1);
    SameKind(r[n - 1], t[n - 1]);
    assert n < |r| ==> FollowsAt(c, r, n);
    assert n < |t| ==> FollowsAt(c, t, n);
    SameSizes(Final(r), Final(t));
    assert Rest(Final(r)) == Rest(Final(t));
    forall k | 0 <= k < |Final(r).order|
      ensures Strip(Final(r).order[k]) == Strip(Final(t).order[k])
    {
      StripsAt(Final(r).order, k);
      StripsAt(Final(t).order, k);
    }
  }
}
