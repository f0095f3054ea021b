/** How jobs fare: a served job reports exactly what its publish amounts to, and each way of cancelling, refusing or
    discarding one has exactly its effect; a ticket is reported cancelled only when somebody cancelled it. */
module TicketRuns {
  import opened Tickets

  // ----- cancelled only on request

  predicate Flagged(s: State) {
    && (forall id :: id in s.tickets && s.tickets[id].cancelled ==> id in s.flags)
    && (forall id :: id in s.phases && s.phases[id].Decided? && s.phases[id].result.cancelled ==> id in s.flags)
  }

  lemma StepFlagged(cfg: Config, s: State, a: Action)
    requires Flagged(s)
    ensures Flagged(Next(cfg, s, a)) && s.flags <= Next(cfg, s, a).flags
    ensures forall id :: id in Next(cfg, s, a).flags && id !in s.flags ==> a == Cancel(id) && id in s.tickets
  {
    match a {
      case Admit => AdmitFlagged(cfg, s);
      case AbortPool =>
      case Publish(id, v) => PublishFlagged(s, id, v);
      case Complete(id) =>
      case Cancel(id) =>
      case _ => OtherFlagged(cfg, s, a);
    }
  }

  lemma AdmitFlagged(cfg: Config, s: State)
    requires Flagged(s)
    ensures Flagged(AdmitStep(cfg, s)) && AdmitStep(cfg, s).flags == s.flags
  {
  }

  lemma PublishFlagged(s: State, id: nat, v: Verdict)
    requires Flagged(s)
    ensures Flagged(PublishStep(s, id, v)) && PublishStep(s, id, v).flags == s.flags
  {
  }

  lemma OtherFlagged(cfg: Config, s: State, a: Action)
    requires Flagged(s) && !a.Admit? && !a.AbortPool? && !a.Publish? && !a.Complete? && !a.Cancel?
    ensures Flagged(Next(cfg, s, a)) && Next(cfg, s, a).flags == s.flags
  {
  }

  /** In every interleaving a ticket is reported cancelled only if its cancellation was asked for while it existed. */
  lemma {:induction false} CancelledOnRequest(cfg: Config, s: State, run: seq<Action>, id: nat)
    requires Flagged(s) && id !in s.flags
    ensures var t := End(cfg, s, run);
            id in t.flags || (id in t.tickets && t.tickets[id].cancelled) ==>
              exists i :: 0 <= i < |run| && run[i] == Cancel(id) && id in End(cfg, s, run[..i]).tickets
    decreases |run|
  {
    RunFlagged(cfg, s, run);
    if run != [] && id in End(cfg, s, run).flags {
      var t := Next(cfg, s, run[0]);
      StepFlagged(cfg, s, run[0]);
      assert run[..0] == [];
      if id !in t.flags {
        CancelledOnRequest(cfg, t, run[1..], id);
        var i :| 0 <= i < |run| - 1 && run[1..][i] == Cancel(id) && id in End(cfg, t, run[1..][..i]).tickets;
        assert run[..i + 1][1..] == run[1..][..i] && run[i + 1] == Cancel(id);
      }
    }
  }

  lemma {:induction false} RunFlagged(cfg: Config, s: State, run: seq<Action>)
    requires Flagged(s)
    ensures Flagged(End(cfg, s, run))
    decreases |run|
  {
    if run != [] {
      StepFlagged(cfg, s, run[0]);
      RunFlagged(cfg, Next(cfg, s, run[0]), run[1..]);
    }
  }

  // ----- lives of a job

  lemma {:induction false} EndConcat(cfg: Config, s: State, a: seq<Action>, b: seq<Action>)
    ensures End(cfg, s, a + b) == End(cfg, End(cfg, s, a), b)
    decreases |a|
  {
    if a == [] {
      assert a + b == b;
    } else {
      assert (a + b)[1..] == a[1..] + b;
      EndConcat(cfg, Next(cfg, s, a[0]), a[1..], b);
    }
  }

  lemma EndOne(cfg: Config, s: State, a: Action)
    ensures End(cfg, s, [a]) == Next(cfg, s, a)
  {
    assert End(cfg, Next(cfg, s, a), [a][1..]) == Next(cfg, s, a);
  }

  lemma EndMore(cfg: Config, s: State, run: seq<Action>, a: Action)
    ensures End(cfg, s, run + [a]) == Next(cfg, End(cfg, s, run), a)
  {
    EndConcat(cfg, s, run, [a]);
    EndOne(cfg, End(cfg, s, run), a);
  }

  /** Room for one more ticket, and a pool with nothing queued that takes jobs. */
  predicate Ready(cfg: Config, s: State) {
    && |s.tickets| < cfg.maxTickets && s.pool.queue == [] && !s.pool.stopping && !s.pool.discard && cfg.capacity > 0
    && s.next !in s.tickets && s.next !in s.phases && s.next !in s.flags
  }

  /** A new ticket, pending, at the end of the order; its job is queued behind the others. */
  lemma Admitted(cfg: Config, s: State)
    requires Ready(cfg, s)
    ensures var id, t := s.next, End(cfg, s, [Admit, Submit(s.next)]);
            && t == s.(tickets := s.tickets[id := Ticket(Pending, false, false)], order := s.order + [id],
                       next := id + 1, phases := s.phases[id := Queued],
                       pool := s.pool.(queue := [id], accepted := s.pool.accepted + 1))
  {
    var id := s.next;
    EndMore(cfg, s, [Admit], Submit(id));
    EndOne(cfg, s, Admit);
    assert [Admit] + [Submit(id)] == [Admit, Submit(id)];
    assert s.phases[id := Submitting][id := Queued] == s.phases[id := Queued];
  }

  /** The state with the job at this point and its ticket like this. */
  function Being(s: State, id: nat, phase: Phase, ticket: Ticket): State {
    s.(phases := s.phases[id := phase], tickets := s.tickets[id := ticket])
  }

  /** A queued job is taken, marked and given its flag. */
  lemma Started(cfg: Config, s: State, id: nat, ticket: Ticket)
    requires s.pool.queue == [id] && !s.pool.discard && id in s.phases && s.phases[id] == Queued
    requires id in s.tickets && s.tickets[id] == ticket
    ensures End(cfg, s, [Take, Mark(id), Fetch(id)]) ==
            Being(s, id, Fetched, ticket.(state := Running)).(
              pool := s.pool.(queue := [], running := s.pool.running + {id}, active := s.pool.active + 1))
  {
    EndOne(cfg, s, Take);
    EndMore(cfg, s, [Take], Mark(id));
    EndMore(cfg, s, [Take, Mark(id)], Fetch(id));
    assert [Take] + [Mark(id)] == [Take, Mark(id)] && [Take, Mark(id)] + [Fetch(id)] == [Take, Mark(id), Fetch(id)];
    Again(s.phases, id, Taken, Marked);
    Again(s.phases, id, Marked, Fetched);
    assert s.pool.queue[1..] == [];
  }

  /** A job that has decided writes its result and is accounted for. */
  lemma Concluded(cfg: Config, s: State, id: nat, result: Ticket)
    requires id in s.phases && s.phases[id] == Decided(result) && s.pool.active > 0
    ensures End(cfg, s, [Complete(id), Finish(id)]) ==
            Being(s, id, Done, result).(pool := s.pool.(running := s.pool.running - {id},
                                                        active := s.pool.active - 1, completed := s.pool.completed + 1))
  {
    EndOne(cfg, s, Complete(id));
    EndMore(cfg, s, [Complete(id)], Finish(id));
    assert [Complete(id)] + [Finish(id)] == [Complete(id), Finish(id)];
    assert s.phases[id := Returned][id := Done] == s.phases[id := Done];
  }

  lemma Again<T>(m: map<nat, T>, id: nat, x: T, y: T)
    ensures m[id := x][id := y] == m[id := y]
  {
  }

  /** A job that holds its flag: an unset one lets it publish, and it reports what the publish amounts to; one set in
      between counts only at the boundary; one set before cancels it. */
  lemma Decides(cfg: Config, s: State, id: nat, v: Verdict)
    requires id in s.phases && s.phases[id] == Fetched && id in s.tickets && s.tickets[id].state == Running
    requires v.Possible()
    ensures id in s.flags ==>
              End(cfg, s, [Check(id)]) == s.(phases := s.phases[id := Decided(Ticket(Cancelled, true, false))])
    ensures id !in s.flags ==>
              var result := Ticket(if v.succeeds then Completed else Failed, false, v.reportsCommitted);
              End(cfg, s, [Check(id), Publish(id, v)]) ==
              s.(phases := s.phases[id := Decided(result)],
                 changed := if v.changesLedger then s.changed + {id} else s.changed)
    ensures id !in s.flags ==>
              var late := End(cfg, s, [Check(id), Cancel(id), Publish(id, v)]);
              if v.crossed then
                late == s.(phases := s.phases[id := Decided(Ticket(Cancelled, true, false))], flags := s.flags + {id})
              else late == s.(phases := s.phases[id := Decided(Ticket(Failed, false, false))], flags := s.flags + {id})
  {
    EndOne(cfg, s, Check(id));
    EndMore(cfg, s, [Check(id)], Publish(id, v));
    EndMore(cfg, s, [Check(id)], Cancel(id));
    EndMore(cfg, s, [Check(id), Cancel(id)], Publish(id, v));
    assert [Check(id)] + [Publish(id, v)] == [Check(id), Publish(id, v)];
    assert [Check(id)] + [Cancel(id)] == [Check(id), Cancel(id)];
    assert [Check(id), Cancel(id)] + [Publish(id, v)] == [Check(id), Cancel(id), Publish(id, v)];
    Again(s.phases, id, Clear, Decided(Report(id in s.flags, v).0));
    Again(s.phases, id, Clear, Decided(Report(true, v).0));
  }

  /** What the books show of a job that has come and gone. */
  function Served(s: State, id: nat, result: Ticket): State {
    s.(tickets := s.tickets[id := result], order := s.order + [id], next := id + 1, phases := s.phases[id := Done],
       pool := s.pool.(queue := [], running := s.pool.running - {id}, accepted := s.pool.accepted + 1,
                       completed := s.pool.completed + 1))
  }

  /** The books after the last step depend only on what the last steps wrote. */
  lemma Settles(s: State, id: nat, t1: Ticket, t2: Ticket, t3: Ticket, p1: Phase, p2: Phase, p3: Phase)
    ensures s.tickets[id := t1][id := t2][id := t3] == s.tickets[id := t3]
    ensures s.phases[id := p1][id := p2][id := p3][id := Done] == s.phases[id := Done]
    ensures id !in s.pool.running ==> s.pool.running + {id} - {id} == s.pool.running - {id}
  {
  }

  /** A job that has its flag in hand. */
  function InHand(s: State, id: nat): State {
    s.(tickets := s.tickets[id := Ticket(Running, false, false)], order := s.order + [id], next := id + 1,
       phases := s.phases[id := Fetched],
       pool := s.pool.(queue := [], running := s.pool.running + {id}, active := s.pool.active + 1,
                       accepted := s.pool.accepted + 1))
  }

  lemma Halfway(cfg: Config, s: State)
    requires Ready(cfg, s)
    ensures var id := s.next; End(cfg, s, [Admit, Submit(id)] + [Take, Mark(id), Fetch(id)]) == InHand(s, id)
  {
    var id := s.next;
    Admitted(cfg, s);
    EndConcat(cfg, s, [Admit, Submit(id)], [Take, Mark(id), Fetch(id)]);
    Started(cfg, End(cfg, s, [Admit, Submit(id)]), id, Ticket(Pending, false, false));
    Again(s.phases, id, Queued, Fetched);
    Again(s.tickets, id, Ticket(Pending, false, false), Ticket(Running, false, false));
  }

  /** A job that nobody cancels is served: its ticket reports success, failure and commitment exactly as its publish
      ended, and it counts as having changed the ledger exactly when the publish did. */
  lemma ServedJob(cfg: Config, s: State, v: Verdict)
    requires Ready(cfg, s) && v.Possible() && s.next !in s.pool.running
    ensures var id := s.next;
            var result := Ticket(if v.succeeds then Completed else Failed, false, v.reportsCommitted);
            End(cfg, s, [Admit, Submit(id)] + [Take, Mark(id), Fetch(id)] + [Check(id), Publish(id, v)]
                        + [Complete(id), Finish(id)])
            == Served(s, id, result).(changed := if v.changesLedger then s.changed + {id} else s.changed)
  {
    var id := s.next;
    var a, b := [Admit, Submit(id)], [Take, Mark(id), Fetch(id)];
    var c, d := [Check(id), Publish(id, v)], [Complete(id), Finish(id)];
    var result := Ticket(if v.succeeds then Completed else Failed, false, v.reportsCommitted);
    Halfway(cfg, s);
    EndConcat(cfg, s, a + b, c);
    Decides(cfg, InHand(s, id), id, v);
    EndConcat(cfg, s, a + b + c, d);
    Concluded(cfg, End(cfg, s, a + b + c), id, result);
    Settles(s, id, result, Ticket(Running, false, false), result, Queued, Fetched, Decided(result));
    Again(s.tickets, id, Ticket(Running, false, false), result);
    Again(s.phases, id, Fetched, Decided(result));
    Again(s.phases, id, Decided(result), Done);
  }

  /** A job cancelled while pending never publishes. */
  lemma CancelledWhilePending(cfg: Config, s: State)
    requires Ready(cfg, s) && s.next !in s.pool.running
    ensures var id := s.next;
            End(cfg, s, [Admit, Submit(id)] + [Cancel(id)] + [Take, Mark(id), Fetch(id)] + [Check(id)]
                        + [Complete(id), Finish(id)])
            == Served(s, id, Ticket(Cancelled, true, false)).(flags := s.flags + {id}, early := s.early + {id})
  {
    var id := s.next;
    var a, b, c := [Admit, Submit(id)], [Take, Mark(id), Fetch(id)], [Complete(id), Finish(id)];
    Admitted(cfg, s);
    EndMore(cfg, s, a, Cancel(id));
    EndConcat(cfg, s, a + [Cancel(id)], b);
    Started(cfg, End(cfg, s, a + [Cancel(id)]), id, CANCELLED);
    EndConcat(cfg, s, a + [Cancel(id)] + b, [Check(id)]);
    Decides(cfg, End(cfg, s, a + [Cancel(id)] + b), id, Verdict(false, false, false, false));
    EndConcat(cfg, s, a + [Cancel(id)] + b + [Check(id)], c);
    Concluded(cfg, End(cfg, s, a + [Cancel(id)] + b + [Check(id)]), id, CANCELLED);
    Settles(s, id, Ticket(Pending, false, false), CANCELLED.(state := Running), CANCELLED, Queued, Fetched,
            Decided(CANCELLED));
    Again(s.tickets, id, Ticket(Pending, false, false), CANCELLED);
  }

  /** A full map forgets the oldest settled ticket for the new one; with every ticket in flight the identity is used up
      and nothing else happens. */
  lemma Reclaims(cfg: Config, s: State) returns (i: nat)
    requires |s.tickets| >= cfg.maxTickets
    ensures i <= |s.order|
    ensures forall j :: 0 <= j < i && s.order[j] in s.tickets ==> s.tickets[s.order[j]].state in {Pending, Running}
    ensures i == |s.order| ==> Next(cfg, s, Admit) == s.(next := s.next + 1)
    ensures i < |s.order| ==>
              && s.order[i] in s.tickets && s.tickets[s.order[i]].state !in {Pending, Running}
              && Next(cfg, s, Admit)
                 == s.(next := s.next + 1, phases := s.phases[s.next := Submitting],
                       tickets := (s.tickets - {s.order[i]})[s.next := Ticket(Pending, false, false)],
                       order := s.order[..i] + s.order[i + 1..] + [s.next])
  {
    i := OldestSettled(s.tickets, s.order);
  }

  /** A pool that is stopping or full turns the job away, and its ticket goes with it. */
  lemma TurnedAway(cfg: Config, s: State)
    requires |s.tickets| < cfg.maxTickets && s.next !in s.tickets && s.next !in s.order
    requires s.pool.stopping || |s.pool.queue| >= cfg.capacity
    ensures var id := s.next;
            End(cfg, s, [Admit, Submit(id), Withdraw(id)]) == s.(next := id + 1, phases := s.phases[id := Done])
  {
    var id := s.next;
    EndOne(cfg, s, Admit);
    EndMore(cfg, s, [Admit], Submit(id));
    EndMore(cfg, s, [Admit, Submit(id)], Withdraw(id));
    assert [Admit] + [Submit(id)] == [Admit, Submit(id)];
    assert [Admit, Submit(id)] + [Withdraw(id)] == [Admit, Submit(id), Withdraw(id)];
    WithoutLast(s.order, id);
    assert s.tickets[id := Ticket(Pending, false, false)] - {id} == s.tickets;
    assert s.phases[id := Submitting][id := Turned][id := Done] == s.phases[id := Done];
  }

  lemma {:induction false} WithoutLast(order: seq<nat>, id: nat)
    requires id !in order
    ensures Without(order + [id], id) == order
  {
    if order != [] {
      WithoutLast(order[1..], id);
      assert (order + [id])[1..] == order[1..] + [id];
    }
  }

  /** Jobs are taken in the order in which they were queued, and none once the pool discards. */
  lemma TakenInOrder(cfg: Config, s: State)
    ensures var t := Next(cfg, s, Take);
            if s.pool.discard || s.pool.queue == [] then t == s
            else
              && t.pool.queue == s.pool.queue[1..] && t.pool.running == s.pool.running + {s.pool.queue[0]}
              && t.pool.active == s.pool.active + 1 && t.phases == s.phases[s.pool.queue[0] := Taken]
  {
  }

  /** Shutting down only refuses later jobs; aborting discards every queued one, counts them, and touches no ticket. */
  lemma Stopping(cfg: Config, s: State)
    ensures Next(cfg, s, Shutdown) == s.(pool := s.pool.(stopping := true))
    ensures var t := Next(cfg, s, AbortPool);
            && t.pool == s.pool.(stopping := true, discard := true, queue := [],
                                 discarded := s.pool.discarded + |s.pool.queue|)
            && t == s.(phases := t.phases, pool := t.pool) && t.phases.Keys == s.phases.Keys
            && forall id :: id in s.phases ==> t.phases[id] == if id in s.pool.queue then Discarded else s.phases[id]
  {
  }

  /** Cancelling marks the flag of an existing ticket, and settles it only while pending; releasing forgets a settled
      ticket and no other. */
  lemma OnRequest(cfg: Config, s: State, id: nat)
    ensures var t := Next(cfg, s, Cancel(id));
            if id !in s.tickets then t == s
            else if s.tickets[id].state != Pending then t == s.(flags := s.flags + {id})
            else t == s.(flags := s.flags + {id}, early := s.early + {id},
                         tickets := s.tickets[id := Ticket(Cancelled, true, false)])
    ensures var t := Next(cfg, s, Release(id));
            if id in s.tickets && s.tickets[id].state != Pending && s.tickets[id].state != Running
            then t.tickets == s.tickets - {id} && t == s.(tickets := t.tickets, order := t.order)
            else t == s
  {
  }
}
