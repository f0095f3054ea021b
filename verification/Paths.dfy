/** Path reconstruction: every settled resource was reached along a walk of admissible edges, and
    following the recorded predecessors rebuilds that walk exactly. */
module Paths {
  import opened Wrappers
  import opened Traversal
  import opened RunBounds

  /** Pressure that settled here may travel on, hop limits aside. */
  predicate Passable(c: Context, node: nat) {
    && node < |c.topo.resources|
    && c.topo.resources[node].CanForward() && !c.EgressFenced(c.topo.resources[node].id)
  }

  /** The entry obtained by carrying entry `x` over edge `ei`, if the edge admits it. */
  function Hopped(c: Context, x: Entry, ei: nat): Option<Entry> {
    if !(Passable(c, x.node) && ei < |c.topo.edges| && ei in c.topo.Outs(x.node)) then None
    else if c.Barred(ei).Some? || c.Forbidden(ei).Some? then None
    else
      var d := c.Cross(ei, x.potential, x.gain, x.amplified);
      if d.Refuse? then None
      else Some(Entry(d.next, c.topo.Target(ei), x.depth + 1, d.gain, d.amplified, Via(x.node, ei)))
  }

  /** The entry at the end of a walk of edges from the origin, if the origin and every edge admit the pressure. */
  function Walk(c: Context, edges: seq<nat>): Option<Entry> {
    if edges == [] then (if OriginOpen(c) then Some(SeedEntry(c, Origin(c))) else None)
    else
      var x := Walk(c, edges[..|edges| - 1]);
      if x.None? then None else Hopped(c, x.value, edges[|edges| - 1])
  }

  lemma {:induction false} WalkStartsOpen(c: Context, w: seq<nat>)
    requires Walk(c, w).Some?
    ensures OriginOpen(c)
  {
    if w != [] { WalkStartsOpen(c, w[..|w| - 1]); }
  }

  /** Every hop of the walk respects its hop bound. */
  ghost predicate WithinHops(c: Context, edges: seq<nat>) {
    forall k :: 0 <= k < |edges| ==> edges[k] < |c.topo.edges| && k + 1 <= c.HopBound(edges[k])
  }

  // ----- each entry descends from an earlier settlement

  ghost predicate Descends(c: Context, parent: Entry, e: Entry) {
    && e.link.Via? && e.link.edge < |c.topo.edges|
    && Hopped(c, parent, e.link.edge) == Some(e)
    && e.depth <= c.HopBound(e.link.edge)
  }

  ghost predicate Grounded(c: Context, order: seq<Entry>, e: Entry) {
    || (OriginOpen(c) && e == SeedEntry(c, Origin(c)))
    || exists j :: 0 <= j < |order| && Descends(c, order[j], e)
  }

  ghost predicate AllGrounded(c: Context, order: seq<Entry>, entries: seq<Entry>) {
    forall j :: 0 <= j < |entries| ==> Grounded(c, order, entries[j])
  }

  ghost predicate Chained(c: Context, order: seq<Entry>) {
    forall k :: 0 <= k < |order| ==> Grounded(c, order[..k], order[k])
  }

  /** A resource being expanded passed its gate. */
  ghost predicate Opened(c: Context, m: Mode) {
    m.Expanding? ==> m.entry.node < |c.topo.resources| && c.Closed(m.entry.node, m.entry.depth).None?
  }

  ghost predicate Traced(c: Context, s: State) {
    Chained(c, s.order) && AllGrounded(c, s.order, s.queue) && Opened(c, s.mode)
  }

  lemma GroundedExtends(c: Context, order: seq<Entry>, more: seq<Entry>, e: Entry)
    requires Grounded(c, order, e) && order <= more
    ensures Grounded(c, more, e)
  {
    if !(OriginOpen(c) && e == SeedEntry(c, Origin(c))) {
      var j :| 0 <= j < |order| && Descends(c, order[j], e);
      assert Descends(c, more[j], e);
    }
  }

  lemma SettleTraced(c: Context, order: seq<Entry>, queue: seq<Entry>, e: Entry)
    requires Chained(c, order) && AllGrounded(c, order, queue) && Grounded(c, order, e)
    ensures Chained(c, order + [e]) && AllGrounded(c, order + [e], queue)
  {
    forall j | 0 <= j < |queue| ensures Grounded(c, order + [e], queue[j]) {
      GroundedExtends(c, order, order + [e], queue[j]);
    }
    forall k | 0 <= k < |order + [e]| ensures Grounded(c, (order + [e])[..k], (order + [e])[k]) {
      assert (order + [e])[..k] == order[..k];
      assert order[..|order|] == order;
    }
  }

  lemma WithoutGrounded(c: Context, order: seq<Entry>, queue: seq<Entry>, i: nat)
    requires AllGrounded(c, order, queue) && i < |queue|
    ensures AllGrounded(c, order, Without(queue, i))
  {
    forall j | 0 <= j < |queue| - 1 ensures Grounded(c, order, Without(queue, i)[j]) {
      assert Without(queue, i)[j] == queue[if j < i then j else j + 1];
    }
  }

  lemma SelectTraced(c: Context, s: State, i: nat)
    requires Sane(c, s) && Traced(c, s) && s.mode.Selecting? && i < |s.queue|
    ensures Traced(c, Select(c, s, i))
  {
    WithoutGrounded(c, s.order, s.queue, i);
    SettleTraced(c, s.order, Without(s.queue, i), s.queue[i]);
  }

  /** Expanding leaves the settlements alone and adds at most the entry the edge under the cursor yields. */
  lemma ExpandPushes(c: Context, s: State) returns (pushed: Option<Entry>)
    requires Bounded(c, s) && s.mode.Expanding? && Opened(c, s.mode)
    ensures var s' := Expand(c, s);
            s'.order == s.order && s'.settled == s.settled && (s'.mode.Expanding? ==> s'.mode.entry == s.mode.entry)
    ensures pushed.None? ==> Expand(c, s).queue == s.queue && Expand(c, s).book.hops == s.book.hops
    ensures pushed.Some? ==>
              && Expand(c, s).queue == s.queue + [pushed.value]
              && s.mode.cursor < |c.topo.Outs(s.mode.entry.node)|
              && pushed.value.link == Via(s.mode.entry.node, c.topo.Outs(s.mode.entry.node)[s.mode.cursor])
              && pushed.value.node !in s.settled
              && Descends(c, s.mode.entry, pushed.value)
  {
    pushed := None;
    var e := s.mode.entry;
    var outs := c.topo.Outs(e.node);
    if s.mode.cursor < |outs| && outs[s.mode.cursor] < |c.topo.edges| {
      var ei := outs[s.mode.cursor];
      var d := c.Decide(s.settled, e, s.mode.fanout, s.expansions, ei);
      if d.Carry? && s.book.budget > 0 {
        DecideWithin(c, s.settled, e, s.mode.fanout, s.expansions, ei);
        pushed := Some(Entry(d.next, c.topo.Target(ei), e.depth + 1, d.gain, d.amplified, Via(e.node, ei)));
      }
    }
  }

  lemma ExpandTraced(c: Context, s: State)
    requires Bounded(c, s) && Traced(c, s) && s.mode.Expanding?
    ensures Traced(c, Expand(c, s))
  {
    var pushed := ExpandPushes(c, s);
    if pushed.Some? {
      assert Descends(c, s.order[|s.order| - 1], pushed.value);
    }
  }

  lemma StepTraced(c: Context, s: State, i: nat)
    requires Bounded(c, s) && Traced(c, s) && !s.mode.Finished?
    requires s.mode.Selecting? && s.queue != [] ==> i < |s.queue|
    ensures Traced(c, Step(c, s, i))
  {
    match s.mode
    case Selecting =>
      if s.queue != [] && |s.order| < c.policy.maxVisited { SelectTraced(c, s, i); }
    case Expanding(_, _, _) => ExpandTraced(c, s);
    case Refusing(_, _, _, _) =>
  }

  lemma {:induction false} RunTraced(c: Context, run: seq<State>, k: nat)
    requires IsRun(c, run) && k < |run|
    ensures Traced(c, run[k])
  {
    if k > 0 {
      RunTraced(c, run, k - 1);
      NextTraced(c, run, k - 1);
    } else {
      StartTraced(c);
    }
  }

  lemma StartTraced(c: Context)
    requires Start(c).Ok?
    ensures Traced(c, Start(c).value)
  {
  }

  lemma NextTraced(c: Context, run: seq<State>, k: nat)
    requires IsRun(c, run) && k + 1 < |run| && Traced(c, run[k])
    ensures Traced(c, run[k + 1])
  {
    RunBounded(c, run, k);
    var i := PickAt(c, run, k + 1);
    StepTraced(c, run[k], i);
  }

  // ----- following the links back

  /** Position of a resource among the settlement records. */
  function Position(order: seq<Entry>, node: nat): (p: nat)
    ensures p <= |order|
    ensures p < |order| ==> order[p].node == node
    ensures forall j :: 0 <= j < p ==> order[j].node != node
  {
    if order == [] then 0
    else if order[0].node == node then 0
    else 1 + Position(order[1..], node)
  }

  /** Follow predecessor links from record k back to a record without one. */
  function PathTo(order: seq<Entry>, k: nat): seq<nat>
    requires k < |order|
    decreases k
  {
    match order[k].link
    case Root => []
    case Via(parent, edge) =>
      var j := Position(order, parent);
      if j >= k then [edge] else PathTo(order, j) + [edge]
  }

  /** Following the links from any settled resource reaches the origin in exactly its depth, over edges
      that respect their hop bounds, and replaying the walk reproduces the settled entry: its potential,
      cumulative gain, depth and predecessor. */
  lemma {:induction false} PathReconstructs(c: Context, order: seq<Entry>, k: nat)
    requires Chained(c, order) && Distinct(order) && k < |order|
    ensures var w := PathTo(order, k);
            Walk(c, w) == Some(order[k]) && |w| == order[k].depth && WithinHops(c, w)
    decreases k
  {
    var e := order[k];
    assert Grounded(c, order[..k], e);
    if e.link.Via? {
      var j :| 0 <= j < k && Descends(c, order[..k][j], e);
      assert order[j].node == e.link.node;
      assert Position(order, e.link.node) == j;
      PathReconstructs(c, order, j);
      assert PathTo(order, k) == PathTo(order, j) + [e.link.edge];
      WalkExtends(c, PathTo(order, j), order[j], e);
    }
  }

  lemma WalkExtends(c: Context, w: seq<nat>, from: Entry, e: Entry)
    requires Walk(c, w) == Some(from) && |w| == from.depth && WithinHops(c, w) && Descends(c, from, e)
    ensures var v := w + [e.link.edge]; Walk(c, v) == Some(e) && |v| == e.depth && WithinHops(c, v)
  {
    assert (w + [e.link.edge])[..|w|] == w;
  }

  /** Every prefix of an admitted walk is admitted, and each resource entered can receive, is covered by
      the signal's authority and has no ingress-refusing governing fence. */
  lemma {:induction false} WalkAdmits(c: Context, w: seq<nat>, k: nat)
    requires Walk(c, w).Some? && k < |w|
    ensures w[k] < |c.topo.edges| && Walk(c, w[..k]).Some? && Passable(c, Walk(c, w[..k]).value.node)
    ensures var edge := c.topo.edges[w[k]];
            && edge.attenuation != 0 && !edge.recoveryOnly
            && (w[k] in c.pins ==> c.pins[w[k]] == edge.generation)
            && c.topo.Target(w[k]) < |c.topo.resources| && c.topo.resources[c.topo.Target(w[k])].CanReceive()
            && c.signal.authority.Covers(edge.target) && !c.IngressFenced(edge.target)
    decreases |w|
  {
    var front := w[..|w| - 1];
    if k < |w| - 1 {
      WalkAdmits(c, front, k);
      assert front[..k] == w[..k];
    }
  }

  /** Path reconstruction for every settled resource of every run. */
  lemma RunPathReconstructs(c: Context, run: seq<State>, k: nat)
    requires IsRun(c, run) && k < |Final(run).order|
    ensures var order := Final(run).order;
            var w := PathTo(order, k);
            Walk(c, w) == Some(order[k]) && |w| == order[k].depth && WithinHops(c, w)
  {
    RunTraced(c, run, |run| - 1);
    RunBounded(c, run, |run| - 1);
    PathReconstructs(c, Final(run).order, k);
  }
}
