/** The traversal as the engine runs it: mutable queue, settlements, pending refusals and record budget,
    updated in nested loops. Every call produces a complete run of the state machine. */
module Worklist {
  import opened Wrappers
  import opened Model
  import opened Records
  import opened Traversal
  import opened Steering
  import opened Roomy

  function Then(ok: bool, f: Flushed): Flushed { Flushed(f.book, ok && f.ok) }

  class Engine {
    var queue: seq<Entry>
    var settled: set<nat>
    var order: seq<Entry>
    var forwarded: set<nat>
    var pending: seq<Aggregate>
    var suppressed: seq<Suppression>
    var hops: seq<Hop>
    var budget: nat
    var window: Option<nat>
    var expansions: nat
    var considered: nat
    var refused: nat
    var budgetStop: bool
    var truncated: bool
    /** Stands for the heap: what it yields among ties, and what it has held so far. */
    const pick: Picker
    var past: History

    function Ledger(): Book
      reads this
    {
      Book(pending, suppressed, hops, budget)
    }

    function View(m: Mode): State
      reads this
    {
      State(m, queue, settled, order, forwarded, Ledger(), window, expansions, considered, refused,
            budgetStop, truncated)
    }

    constructor (recordBudget: nat, pick: Picker)
      ensures this.pick == pick && past == []
      ensures forall c: Context :: c.budget == recordBudget ==> View(Selecting) == Blank(c)
    {
      this.pick := pick;
      past := [];
      queue, settled, order, forwarded := [], {}, [], {};
      pending, suppressed, hops, budget := seq(REASON_COUNT, _ => Aggregate(0, 0, 0, 0, 0)), [], [], recordBudget;
      window, expansions, considered, refused := None, 0, 0, 0;
      budgetStop, truncated := false, false;
    }

    /** Look at the top of the priority queue: some entry no other entry outranks. */
    method Top() returns (i: nat)
      requires queue != [] && Fair(pick)
      modifies this`past
      ensures past == old(past) + [queue] && i == pick(past) && Maximal(queue, i)
      ensures forall j :: 0 <= j < |queue| ==>
                && queue[j].potential <= queue[i].potential
                && (queue[j].potential == queue[i].potential ==> queue[j].depth >= queue[i].depth)
                && (queue[j].potential == queue[i].potential && queue[j].depth == queue[i].depth ==>
                      queue[j].node >= queue[i].node)
    {
      past := past + [queue];
      i := pick(past);
      assert forall j :: 0 <= j < |queue| ==> !Below(queue[i], queue[j]);
    }

    /** Emit the refusals pending in one slot. */
    method EmitSlot(slot: nat) returns (ok: bool)
      requires Ledger().Valid() && slot < REASON_COUNT
      modifies this`pending, this`suppressed, this`budget
      ensures Flushed(Ledger(), ok) == old(FlushSlot(Ledger(), slot))
    {
      ok := true;
      var a := pending[slot];
      if a.count != 0 {
        pending := pending[slot := a.(count := 0)];
        if budget == 0 {
          ok := false;
        } else {
          budget := budget - 1;
          suppressed := suppressed + [Suppression(a.source, a.target, a.edge, a.depth, a.count, slot)];
        }
      }
    }

    /** Emit the pending refusals, lowest slot first. */
    method FlushPending() returns (ok: bool)
      requires Ledger().Valid()
      modifies this`pending, this`suppressed, this`budget
      ensures Flushed(Ledger(), ok) == old(Flush(Ledger()))
    {
      ok := true;
      for slot := 0 to REASON_COUNT
        invariant Ledger().Valid()
        invariant old(Flush(Ledger())) == Then(ok, FlushFrom(Ledger(), slot))
      {
        var emitted := EmitSlot(slot);
        ok := ok && emitted;
      }
    }

    method RejectEdge(edge: Edge, depth: nat, r: Reason)
      requires Ledger().Valid()
      modifies this`pending, this`considered, this`refused
      ensures Ledger() == old(Reject(Ledger(), edge, depth, r))
      ensures considered == old(considered) + 1 && refused == old(refused) + 1
    {
      var a := pending[r];
      if a.count == 0 { a := Aggregate(edge.source, edge.target, edge.id, depth, 0); }
      if a.count != COUNT_MAX { a := a.(count := a.count + 1); }
      pending := pending[r := a];
      considered, refused := considered + 1, refused + 1;
    }

    /** Leave the traversal, emitting what is still pending. */
    method Leave(ending: Ending)
      requires Ledger().Valid()
      modifies this`pending, this`suppressed, this`budget, this`truncated
      ensures View(Finished(ending)) == old(Finish(View(Selecting), ending))
    {
      var ok := FlushPending();
      if !ok { truncated := true; }
    }

    /** Refuse the outgoing edge at position j of a closed resource. */
    method SuppressNext(c: Context, node: nat, depth: nat, reason: Reason, j: nat, ghost run: seq<State>)
      returns (ghost run': seq<State>)
      requires Steered(c, pick, run) && Final(run) == View(Refusing(node, depth, reason, j)) && Ledger().Valid()
               && j < |c.topo.Outs(node)|
      modifies this`pending, this`considered, this`refused
      ensures Steered(c, pick, run') && Final(run') == View(Refusing(node, depth, reason, j + 1)) && Ledger().Valid()
      ensures Seen(run') == Seen(run)
    {
      var outs := c.topo.Outs(node);
      if outs[j] < |c.topo.edges| {
        RejectEdge(c.topo.edges[outs[j]], depth, reason);
      } else {
        considered := considered + 1;
      }
      assert View(Refusing(node, depth, reason, j + 1)) == Shut(c, Final(run));
      run' := Shutting(c, pick, run, View(Refusing(node, depth, reason, j + 1)));
    }

    /** Refuse every outgoing edge of a closed resource, then emit the refusals. */
    method SuppressAll(c: Context, node: nat, depth: nat, reason: Reason, ghost run: seq<State>)
      returns (ghost run': seq<State>)
      requires Steered(c, pick, run) && Final(run) == View(Refusing(node, depth, reason, 0)) && Ledger().Valid()
      modifies this`pending, this`suppressed, this`budget, this`considered, this`refused, this`truncated
      ensures Steered(c, pick, run') && Final(run') == View(Selecting) && Ledger().Valid()
      ensures Seen(run') == Seen(run) + [queue]
    {
      run' := run;
      var outs := c.topo.Outs(node);
      for j := 0 to |outs|
        invariant Steered(c, pick, run') && Final(run') == View(Refusing(node, depth, reason, j)) && Ledger().Valid()
        invariant Seen(run') == Seen(run)
      {
        run' := SuppressNext(c, node, depth, reason, j, run');
      }
      run' := LeaveClosed(c, node, depth, reason, run');
    }

    /** Emit the refusals of a closed resource and go on. */
    method LeaveClosed(c: Context, node: nat, depth: nat, reason: Reason, ghost run: seq<State>)
      returns (ghost run': seq<State>)
      requires Steered(c, pick, run) && Final(run) == View(Refusing(node, depth, reason, |c.topo.Outs(node)|))
               && Ledger().Valid()
      modifies this`pending, this`suppressed, this`budget, this`truncated
      ensures Steered(c, pick, run') && Final(run') == View(Selecting) && Ledger().Valid()
      ensures Seen(run') == Seen(run) + [queue]
    {
      var ok := FlushPending();
      if !ok { truncated := true; }
      run' := Shutting(c, pick, run, View(Selecting));
    }

    /** Settle an entry of an open resource; `on` is false when its predecessor's refusals could not all
        be recorded. */
    method SettleEntry(c: Context, e: Entry) returns (on: bool, shut: Option<Reason>)
      requires Ledger().Valid() && e.node < |c.topo.resources|
      modifies this`settled, this`order, this`pending, this`suppressed, this`budget, this`window, this`truncated
      ensures View(Settlement(e, on, shut)) == Settle(c, old(View(Selecting)), e)
      ensures on ==> Ledger().Valid() && settled == old(settled) + {e.node}
    {
      ghost var s := View(Selecting);
      on, shut := true, None;
      if window != Some(e.node) { on := FlushPending(); }
      settled, window := settled + {e.node}, Some(e.node);
      if on {
        order := order + [e];
        shut := c.Closed(e.node, e.depth);
        SettledOn(c, s, e, Ledger());
      } else {
        truncated := true;
        SettledOff(c, s, e, View(Selecting));
        Leave(RecordBudget);
      }
    }

    /** Consider one outgoing edge; `on` is false when an accepted edge could not be recorded. */
    method ConsiderEdge(c: Context, e: Entry, ghost cursor: nat, fanout: nat, ei: nat) returns (on: bool, fanout': nat)
      requires Sane(c, View(Expanding(e, cursor, fanout)))
      modifies this`queue, this`forwarded, this`pending, this`suppressed, this`hops, this`budget, this`expansions,
               this`considered, this`refused, this`budgetStop, this`truncated
      ensures View(if on then Expanding(e, cursor + 1, fanout') else Finished(RecordBudget))
           == Consider(c, old(View(Expanding(e, cursor, fanout))), ei)
    {
      on, fanout' := true, fanout;
      if ei >= |c.topo.edges| {
        considered := considered + 1;
        return;
      }
      var edge := c.topo.edges[ei];
      var d := c.Decide(settled, e, fanout, expansions, ei);
      if d.Refuse? {
        RejectEdge(edge, e.depth, d.reason);
        if d.reason == EXPANSION_BUDGET { budgetStop := true; }
      } else if budget == 0 {
        considered, truncated := considered + 1, true;
        Leave(RecordBudget);
        on := false;
      } else {
        AcceptEdge(c, e, ei, d);
        fanout' := fanout + 1;
      }
    }

    /** Record an accepted edge and queue its target. */
    method AcceptEdge(c: Context, e: Entry, ei: nat, d: Decision)
      requires ei < |c.topo.edges| && e.node < |c.topo.resources| && d.Carry? && budget > 0
      modifies this`queue, this`forwarded, this`hops, this`budget, this`expansions, this`considered
      ensures View(Selecting) == Accept(c, old(View(Selecting)), e, ei, d)
    {
      var edge := c.topo.edges[ei];
      budget := budget - 1;
      hops := hops + [Hop(c.topo.resources[e.node].id, edge.target, edge.id, e.depth, edge.attenuation,
                          edge.amplification, e.potential, d.next, d.gain, d.amplified)];
      forwarded := forwarded + {e.node};
      queue := queue + [Entry(d.next, c.topo.Target(ei), e.depth + 1, d.gain, d.amplified, Via(e.node, ei))];
      expansions, considered := expansions + 1, considered + 1;
    }

    /** Expand a settled resource; `on` is false when the traversal ended inside. */
    method ExpandEntry(c: Context, e: Entry, ghost run: seq<State>) returns (on: bool, ghost run': seq<State>)
      requires Steered(c, pick, run) && Final(run) == View(Expanding(e, 0, 0)) && Ledger().Valid()
               && e.node < |c.topo.resources|
      modifies this`queue, this`forwarded, this`pending, this`suppressed, this`hops, this`budget, this`expansions,
               this`considered, this`refused, this`budgetStop, this`truncated
      ensures Steered(c, pick, run')
      ensures on ==> Final(run') == View(Selecting) && Ledger().Valid() && Seen(run') == Seen(run) + [queue]
      ensures !on ==> Final(run').mode.Finished? && Final(run') == View(Final(run').mode)
    {
      on, run' := true, run;
      var outs := c.topo.Outs(e.node);
      var j, fanout := 0, 0;
      while j < |outs|
        invariant 0 <= j <= |outs| && Ledger().Valid()
        invariant Steered(c, pick, run') && Final(run') == View(Expanding(e, j, fanout)) && Seen(run') == Seen(run)
      {
        on, fanout, run' := ExpandNext(c, e, j, fanout, outs[j], run');
        if !on { return; }
        j := j + 1;
      }
      on, run' := LeaveOpen(c, e, fanout, run');
    }

    /** Consider the edge at position j of the resource being expanded. */
    method ExpandNext(c: Context, e: Entry, ghost j: nat, fanout: nat, ei: nat, ghost run: seq<State>)
      returns (on: bool, fanout': nat, ghost run': seq<State>)
      requires Steered(c, pick, run) && Final(run) == View(Expanding(e, j, fanout)) && Ledger().Valid()
      requires e.node < |c.topo.resources| && j < |c.topo.Outs(e.node)| && ei == c.topo.Outs(e.node)[j]
      modifies this`queue, this`forwarded, this`pending, this`suppressed, this`hops, this`budget, this`expansions,
               this`considered, this`refused, this`budgetStop, this`truncated
      ensures Steered(c, pick, run') && Seen(run') == Seen(run)
      ensures on ==> Final(run') == View(Expanding(e, j + 1, fanout')) && Ledger().Valid()
      ensures !on ==> Final(run').mode.Finished? && Final(run') == View(Final(run').mode)
    {
      on, fanout' := ConsiderEdge(c, e, j, fanout, ei);
      run' := Expanded(c, pick, run, View(if on then Expanding(e, j + 1, fanout') else Finished(RecordBudget)));
    }

    /** Leave a resource whose edges have all been considered. */
    method LeaveOpen(c: Context, e: Entry, ghost fanout: nat, ghost run: seq<State>)
      returns (on: bool, ghost run': seq<State>)
      requires Steered(c, pick, run) && e.node < |c.topo.resources| && Ledger().Valid()
      requires Final(run) == View(Expanding(e, |c.topo.Outs(e.node)|, fanout))
      modifies this`pending, this`suppressed, this`budget, this`truncated
      ensures Steered(c, pick, run')
      ensures on ==> Final(run') == View(Selecting) && Ledger().Valid() && Seen(run') == Seen(run) + [queue]
      ensures !on ==> Final(run').mode.Finished? && Final(run') == View(Final(run').mode)
    {
      on := !budgetStop;
      if budgetStop { Leave(ExpansionBudget); }
      run' := Expanded(c, pick, run, View(if on then Selecting else Finished(ExpansionBudget)));
    }

    /** Take the top entry and deal with it; `on` is false when the traversal ended inside. */
    method Turn(c: Context, ghost run: seq<State>) returns (on: bool, ghost run': seq<State>)
      requires Steered(c, pick, run) && Final(run) == View(Selecting) && Ledger().Valid()
      requires Fair(pick) && Seen(run) == past + [queue]
      requires queue != [] && |order| < c.policy.maxVisited
      modifies this
      ensures Steered(c, pick, run')
      ensures on ==> Final(run') == View(Selecting) && Ledger().Valid() && Seen(run') == past + [queue]
      ensures on ==> (settled == old(settled) && |queue| < |old(queue)|)
                     || (exists x: nat :: x < |c.topo.resources| && x !in old(settled) && settled == old(settled) + {x})
      ensures !on ==> Final(run').mode.Finished? && Final(run') == View(Final(run').mode)
    {
      var e, i := Take(c, run);
      on := true;
      if e.node >= |c.topo.resources| || e.node in settled {
        run' := Selected(c, pick, run, i, View(Selecting));
      } else {
        on, run' := Open(c, e, i, run);
      }
    }

    /** Take the top entry off the queue. */
    method Take(c: Context, ghost run: seq<State>) returns (e: Entry, i: nat)
      requires run != [] && Final(run) == View(Selecting) && Ledger().Valid()
      requires Fair(pick) && Seen(run) == past + [queue]
      requires queue != [] && |order| < c.policy.maxVisited
      modifies this`queue, this`past
      ensures Taken(c, e, i, run) && Ledger().Valid()
      ensures Seen(run) == past && |queue| < |old(queue)|
    {
      i := Top();
      e := queue[i];
      queue := Without(queue, i);
    }

    /** Settle the entry just taken and expand or close its resource. */
    method Open(c: Context, e: Entry, ghost i: nat, ghost run: seq<State>) returns (on: bool, ghost run': seq<State>)
      requires Steered(c, pick, run) && Taken(c, e, i, run) && Ledger().Valid()
      requires e.node < |c.topo.resources| && e.node !in settled
      modifies this`queue, this`settled, this`order, this`forwarded, this`pending, this`suppressed, this`hops,
               this`budget, this`window, this`expansions, this`considered, this`refused, this`budgetStop, this`truncated
      ensures Steered(c, pick, run')
      ensures on ==> Final(run') == View(Selecting) && Ledger().Valid() && Seen(run') == Seen(run) + [queue]
      ensures on ==> settled == old(settled) + {e.node}
      ensures !on ==> Final(run').mode.Finished? && Final(run') == View(Final(run').mode)
    {
      var shut;
      on, shut := SettleEntry(c, e);
      run' := Selected(c, pick, run, i, View(Settlement(e, on, shut)));
      if !on { return; }
      if shut.Some? {
        run' := SuppressAll(c, e.node, e.depth, shut.value, run');
      } else {
        on, run' := ExpandEntry(c, e, run');
      }
    }

    /** The engine stands where the run does, with entry i taken off the queue. */
    ghost predicate Taken(c: Context, e: Entry, i: nat, run: seq<State>)
      reads this
      requires run != []
    {
      var s := Final(run);
      && Sane(c, s) && s.mode.Selecting? && Maximal(s.queue, i) && e == s.queue[i] && i == pick(Seen(run))
      && |s.order| < c.policy.maxVisited && View(Selecting) == s.(queue := Without(s.queue, i))
    }

    /** Queue the origin, or refuse its edges when it may not receive. */
    method Begin(c: Context, origin: nat) returns (ghost run: seq<State>)
      requires View(Selecting) == Blank(c) && past == [] && Start(c).Ok? && origin == c.topo.IndexOf(c.signal.origin)
      modifies this
      ensures Steered(c, pick, run) && Final(run) == View(Selecting) && Ledger().Valid()
      ensures Seen(run) == past + [queue]
    {
      var block := OriginBlock(c, origin);
      if block.Some? {
        run := [View(Refusing(origin, 0, block.value, 0))];
        run := SuppressAll(c, origin, 0, block.value, run);
      } else {
        queue := [SeedEntry(c, origin)];
        run := [View(Selecting)];
      }
    }

    /** Run one propagation. The ghost result is the complete run this execution followed. */
    method Run(c: Context) returns (status: Status, ghost run: seq<State>)
      requires View(Selecting) == Blank(c) && past == [] && Fair(pick)
      modifies this
      ensures Start(c).Err? ==> status == Failed(Start(c).error) && View(Selecting) == Blank(c)
      ensures Start(c).Ok? ==>
                status == Success && Steered(c, pick, run) && Final(run).mode.Finished?
                  && View(Final(run).mode) == Final(run)
    {
      run := [];
      var origin := c.topo.IndexOf(c.signal.origin);
      if origin >= |c.topo.resources| { return Failed(NotFound), run; }
      if c.Seed() == 0 { return Failed(UnknownPressure), run; }
      status := Success;
      run := Begin(c, origin);
      var on := true;
      while queue != []
        invariant Steered(c, pick, run) && Final(run) == View(Selecting) && Ledger().Valid()
        invariant Seen(run) == past + [queue]
        decreases Numbers(|c.topo.resources|) - settled, |queue|
      {
        if |order| >= c.policy.maxVisited {
          run := WindUp(c, VisitedBudget, run);
          return;
        }
        ghost var before, q := settled, |queue|;
        on, run := Turn(c, run);
        if !on { return; }
        Numbering(|c.topo.resources|);
      }
      run := WindUp(c, Drained, run);
    }

    /** End the traversal between two entries. */
    method WindUp(c: Context, ending: Ending, ghost run: seq<State>) returns (ghost run': seq<State>)
      requires Steered(c, pick, run) && Final(run) == View(Selecting) && Ledger().Valid()
      requires Fair(pick) && Seen(run) == past + [queue]
      requires if queue == [] then ending == Drained else ending == VisitedBudget && |order| >= c.policy.maxVisited
      modifies this`pending, this`suppressed, this`budget, this`truncated
      ensures Steered(c, pick, run') && Final(run').mode.Finished? && View(Final(run').mode) == Final(run')
    {
      Leave(ending);
      run' := Ended(c, pick, run, View(Finished(ending)), ending);
    }
  }

  // ----- each action of the engine is a step of the machine

  /** Where a settled entry leaves the machine. */
  function Settlement(e: Entry, on: bool, shut: Option<Reason>): Mode {
    if !on then Finished(RecordBudget)
    else if shut.Some? then Refusing(e.node, e.depth, shut.value, 0)
    else Expanding(e, 0, 0)
  }

  lemma SettledOn(c: Context, s: State, e: Entry, book: Book)
    requires s.book.Valid() && e.node < |c.topo.resources|
    requires if s.window == Some(e.node) then book == s.book else Flushed(book, true) == Flush(s.book)
    ensures Settle(c, s, e) == s.(settled := s.settled + {e.node}, book := book, window := Some(e.node),
                                  order := s.order + [e], mode := Settlement(e, true, c.Closed(e.node, e.depth)))
  {
  }

  lemma SettledOff(c: Context, s: State, e: Entry, s1: State)
    requires s.book.Valid() && e.node < |c.topo.resources| && s.window != Some(e.node)
    requires !Flush(s.book).ok && s1 == s.(settled := s.settled + {e.node}, book := Flush(s.book).book,
                                           window := Some(e.node), truncated := true)
    ensures Settle(c, s, e) == Finish(s1, RecordBudget)
  {
  }

  lemma Shutting(c: Context, pick: Picker, run: seq<State>, s: State) returns (run': seq<State>)
    requires Steered(c, pick, run) && Sane(c, Final(run)) && Final(run).mode.Refusing? && s == Shut(c, Final(run))
    ensures run' == run + [s] && Steered(c, pick, run') && Final(run') == s
    ensures Seen(run') == if s.mode.Selecting? then Seen(run) + [s.queue] else Seen(run)
  {
    run' := run + [s];
    SteeredGrows(c, pick, run, s);
    SeenSnoc(run, s);
  }

  lemma Expanded(c: Context, pick: Picker, run: seq<State>, s: State) returns (run': seq<State>)
    requires Steered(c, pick, run) && Sane(c, Final(run)) && Final(run).mode.Expanding? && s == Expand(c, Final(run))
    ensures run' == run + [s] && Steered(c, pick, run') && Final(run') == s
    ensures Seen(run') == if s.mode.Selecting? then Seen(run) + [s.queue] else Seen(run)
  {
    run' := run + [s];
    SteeredGrows(c, pick, run, s);
    SeenSnoc(run, s);
  }

  lemma Selected(c: Context, pick: Picker, run: seq<State>, i: nat, s: State) returns (run': seq<State>)
    requires Steered(c, pick, run) && Sane(c, Final(run)) && Final(run).mode.Selecting? && Maximal(Final(run).queue, i)
    requires i == pick(Seen(run)) && |Final(run).order| < c.policy.maxVisited && s == Select(c, Final(run), i)
    ensures run' == run + [s] && Steered(c, pick, run') && Final(run') == s
    ensures Seen(run') == if s.mode.Selecting? then Seen(run) + [s.queue] else Seen(run)
  {
    run' := run + [s];
    assert s == Step(c, Final(run), i);
    SteeredGrows(c, pick, run, s);
    SeenSnoc(run, s);
  }

  lemma Ended(c: Context, pick: Picker, run: seq<State>, s: State, ending: Ending) returns (run': seq<State>)
    requires Steered(c, pick, run) && Sane(c, Final(run)) && Final(run).mode.Selecting?
             && s == Finish(Final(run), ending)
    requires Fair(pick) && Seen(run) != [] && Seen(run)[|Seen(run)| - 1] == Final(run).queue
    requires if Final(run).queue == [] then ending == Drained
             else ending == VisitedBudget && |Final(run).order| >= c.policy.maxVisited
    ensures run' == run + [s] && Steered(c, pick, run') && Final(run') == s
  {
    run' := run + [s];
    if Final(run).queue != [] {
      var i := pick(Seen(run));
      assert Maximal(Final(run).queue, i) && s == Step(c, Final(run), i);
    }
    SteeredGrows(c, pick, run, s);
  }
}
