/** Asynchronous publishing: tickets, cancellation and the worker pool, as atomic steps between critical
    sections, in any interleaving. */
module Tickets {
  datatype TicketState = Pending | Running | Completed | Failed | Cancelled

  datatype Ticket = Ticket(state: TicketState, cancelled: bool, committed: bool)
  {
    predicate InFlight() { state == Pending || state == Running }
  }

  /** Where the job of a ticket is, between two critical sections. */
  datatype Phase =
    | Submitting            // ticket inserted, pool not yet asked
    | Turned                // refused by the pool, ticket not yet withdrawn
    | Queued
    | Discarded             // dropped from the queue by an abort
    | Taken                 // popped by a worker
    | Marked                // marked running
    | Fetched               // holds the cancellation flag
    | Clear                 // saw the flag unset
    | Decided(result: Ticket)
    | Returned              // the job is over, the worker has not accounted for it
    | Done

  /** How a publish ends when it is not cancelled: refused before its boundary, or past it; whether the ledger
      changed and what the ticket reports follow from the outcome. */
  datatype Verdict = Verdict(crossed: bool, succeeds: bool, changesLedger: bool, reportsCommitted: bool)
  {
    predicate Possible() {
      && (!crossed ==> !succeeds && !changesLedger && !reportsCommitted)
      && (succeeds ==> reportsCommitted)
    }
  }

  datatype Config = Config(maxTickets: nat, capacity: nat)

  datatype Pool = Pool(queue: seq<nat>, running: set<nat>, active: nat, stopping: bool, discard: bool,
                       accepted: nat, completed: nat, discarded: nat)

  /** The flags that are set and the jobs that changed the ledger outlive their tickets; `early` remembers which
      tickets were cancelled while pending. */
  datatype State = State(tickets: map<nat, Ticket>, order: seq<nat>, next: nat, phases: map<nat, Phase>,
                         flags: set<nat>, changed: set<nat>, early: set<nat>, pool: Pool)

  const INIT := State(map[], [], 0, map[], {}, {}, {}, Pool([], {}, 0, false, false, 0, 0, 0))

  datatype Action =
    | Admit
    | Submit(id: nat)
    | Withdraw(id: nat)
    | Take
    | Mark(id: nat)
    | Fetch(id: nat)
    | Check(id: nat)
    | Publish(id: nat, verdict: Verdict)
    | Complete(id: nat)
    | Finish(id: nat)
    | Cancel(id: nat)
    | Release(id: nat)
    | Shutdown
    | AbortPool
    | DropQueue

  // ----- ticket map and order

  /** Position of the oldest settled ticket, or the length of the order. */
  function OldestSettled(tickets: map<nat, Ticket>, order: seq<nat>): (i: nat)
    ensures i <= |order|
    ensures i < |order| ==> order[i] in tickets && !tickets[order[i]].InFlight()
    ensures forall j :: 0 <= j < i ==> order[j] in tickets ==> tickets[order[j]].InFlight()
  {
    if order == [] then 0
    else if order[0] in tickets && !tickets[order[0]].InFlight() then 0
    else 1 + OldestSettled(tickets, order[1..])
  }

  function Without(order: seq<nat>, id: nat): seq<nat> {
    if order == [] then [] else if order[0] == id then order[1..] else [order[0]] + Without(order[1..], id)
  }

  // ----- steps

  function AtPhase(s: State, id: nat, phase: Phase): State { s.(phases := s.phases[id := phase]) }

  predicate Is(s: State, id: nat, phase: Phase) { id in s.phases && s.phases[id] == phase }

  /** Make room by forgetting the oldest settled ticket; refuse when every ticket is in flight. */
  function AdmitStep(cfg: Config, s: State): State {
    var id := s.next;
    var full := |s.tickets| >= cfg.maxTickets;
    var i := OldestSettled(s.tickets, s.order);
    if full && i == |s.order| then s.(next := id + 1)
    else
      var kept := if full then s.tickets - {s.order[i]} else s.tickets;
      var order := if full then s.order[..i] + s.order[i + 1..] else s.order;
      AtPhase(s.(next := id + 1, tickets := kept[id := Ticket(Pending, false, false)], order := order + [id]), id,
        Submitting)
  }

  function SubmitStep(cfg: Config, s: State, id: nat): State {
    var p := s.pool;
    if !Is(s, id, Submitting) then s
    else if p.stopping || |p.queue| >= cfg.capacity then AtPhase(s, id, Turned)
    else AtPhase(s, id, Queued).(pool := p.(queue := p.queue + [id], accepted := p.accepted + 1))
  }

  function WithdrawStep(s: State, id: nat): State {
    if !Is(s, id, Turned) then s
    else AtPhase(s.(tickets := s.tickets - {id}, order := Without(s.order, id)), id, Done)
  }

  function TakeStep(s: State): State {
    var p := s.pool;
    if p.queue == [] || p.discard then s
    else
      var id := p.queue[0];
      AtPhase(s, id, Taken).(pool := p.(queue := p.queue[1..], running := p.running + {id}, active := p.active + 1))
  }

  function MarkStep(s: State, id: nat): State {
    if !Is(s, id, Taken) then s
    else if id in s.tickets then AtPhase(s.(tickets := s.tickets[id := s.tickets[id].(state := Running)]), id, Marked)
    else AtPhase(s, id, Marked)
  }

  /** A job whose ticket is gone returns without publishing. */
  function FetchStep(s: State, id: nat): State {
    if !Is(s, id, Marked) then s else AtPhase(s, id, if id in s.tickets then Fetched else Returned)
  }

  const CANCELLED := Ticket(Cancelled, true, false)

  function CheckStep(s: State, id: nat): State {
    if !Is(s, id, Fetched) then s else AtPhase(s, id, if id in s.flags then Decided(CANCELLED) else Clear)
  }

  /** The publish itself, under the fabric's lock; the flag is looked at once more at the boundary. */
  function PublishStep(s: State, id: nat, v: Verdict): State {
    if !Is(s, id, Clear) || !v.Possible() then s
    else
      var (result, changes) := Report(id in s.flags, v);
      AtPhase(s.(changed := if changes then s.changed + {id} else s.changed), id, Decided(result))
  }

  /** What the job reports and whether it changed the ledger, given the flag it sees at the boundary. */
  function Report(flag: bool, v: Verdict): (Ticket, bool) {
    if flag && v.crossed then (CANCELLED, false)
    else (Ticket(if v.succeeds then Completed else Failed, false, v.reportsCommitted), v.changesLedger)
  }

  function CompleteStep(s: State, id: nat): State {
    if !(id in s.phases && s.phases[id].Decided?) then s
    else AtPhase(s.(tickets := s.tickets[id := s.phases[id].result]), id, Returned)
  }

  function FinishStep(s: State, id: nat): State {
    var p := s.pool;
    if !Is(s, id, Returned) then s
    else
      var active := if p.active > 0 then p.active - 1 else p.active;
      AtPhase(s, id, Done).(pool := p.(running := p.running - {id}, active := active, completed := p.completed + 1))
  }

  function CancelStep(s: State, id: nat): State {
    if id !in s.tickets then s
    else
      var flagged := s.(flags := s.flags + {id});
      if s.tickets[id].state == Pending then
        flagged.(tickets := s.tickets[id := CANCELLED], early := s.early + {id})
      else flagged
  }

  function ReleaseStep(s: State, id: nat): State {
    if id !in s.tickets || s.tickets[id].InFlight() then s
    else s.(tickets := s.tickets - {id}, order := Without(s.order, id))
  }

  function AbortStep(s: State): State {
    var p := s.pool;
    var dropped := set i | 0 <= i < |p.queue| :: p.queue[i];
    s.(phases := map id | id in s.phases :: if id in dropped then Discarded else s.phases[id],
       pool := p.(stopping := true, discard := true, queue := [], discarded := p.discarded + |p.queue|))
  }

  /** The worker's own handling of a discarded queue counts one job however many it drops. */
  function DropStep(s: State): State {
    var p := s.pool;
    if !p.discard || p.queue == [] then s else s.(pool := p.(queue := [], discarded := p.discarded + 1))
  }

  function Next(cfg: Config, s: State, a: Action): State {
    match a
    case Admit => AdmitStep(cfg, s)
    case Submit(id) => SubmitStep(cfg, s, id)
    case Withdraw(id) => WithdrawStep(s, id)
    case Take => TakeStep(s)
    case Mark(id) => MarkStep(s, id)
    case Fetch(id) => FetchStep(s, id)
    case Check(id) => CheckStep(s, id)
    case Publish(id, v) => PublishStep(s, id, v)
    case Complete(id) => CompleteStep(s, id)
    case Finish(id) => FinishStep(s, id)
    case Cancel(id) => CancelStep(s, id)
    case Release(id) => ReleaseStep(s, id)
    case Shutdown => s.(pool := s.pool.(stopping := true))
    case AbortPool => AbortStep(s)
    case DropQueue => DropStep(s)
  }

  // ----- invariants

  /** A ticket that has been settled. */
  predicate Settled(t: Ticket, id: nat, s: State) {
    && !t.InFlight() && !(t.cancelled && t.committed) && (t.cancelled <==> t.state == Cancelled)
    && (t.cancelled ==> id !in s.changed) && (t.state == Completed ==> t.committed)
    && (id in s.early ==> t.state == Cancelled)
  }

  /** The job has not started: its ticket is pending, or cancelled, or cancelled and forgotten. */
  predicate Waiting(s: State, id: nat) {
    && id !in s.changed
    && (id in s.tickets ==>
          if id in s.early then s.tickets[id] == CANCELLED else s.tickets[id] == Ticket(Pending, false, false))
    && (id !in s.tickets ==> id in s.early)
  }

  predicate AtWork(s: State, id: nat) {
    id !in s.changed && id in s.tickets && s.tickets[id].state == Running && !s.tickets[id].committed
  }

  predicate JobOk(s: State, id: nat)
    requires id in s.phases
  {
    && (id in s.early ==> id in s.flags && id !in s.changed)
    && match s.phases[id]
       case Submitting => Waiting(s, id)
       case Turned => Waiting(s, id)
       case Queued => Waiting(s, id)
       case Discarded => Waiting(s, id)
       case Taken => Waiting(s, id)
       case Marked => id !in s.changed && (id in s.tickets ==> AtWork(s, id)) && (id !in s.tickets ==> id in s.early)
       case Fetched => AtWork(s, id)
       case Clear => AtWork(s, id) && id !in s.early
       case Decided(t) => Settled(t, id, s) && id in s.tickets && s.tickets[id].state == Running
         && !s.tickets[id].committed
       case Returned => id in s.tickets ==> Settled(s.tickets[id], id, s)
       case Done => id in s.tickets ==> Settled(s.tickets[id], id, s)
  }

  predicate InPool(p: Phase) {
    p.Taken? || p.Marked? || p.Fetched? || p.Clear? || p.Decided? || p.Returned?
  }

  /** The pool's own books. */
  ghost predicate PoolOk(s: State) {
    var p := s.pool;
    && (forall i :: 0 <= i < |p.queue| ==> Is(s, p.queue[i], Queued))
    && (forall i, j :: 0 <= i < j < |p.queue| ==> p.queue[i] != p.queue[j])
    && (forall id :: id in p.running <==> id in s.phases && InPool(s.phases[id]))
    && p.active == |p.running|
    && p.accepted == |p.queue| + p.active + p.completed + p.discarded
    && (p.discard ==> p.stopping && p.queue == [])
  }

  ghost predicate TicketsOk(cfg: Config, s: State) {
    && |s.tickets| <= cfg.maxTickets
    && (forall id :: id in s.tickets ==> id in s.phases && id in s.order)
    && (forall id :: id in s.phases ==> id < s.next)
    && (forall id :: id in s.early || id in s.changed ==> id in s.phases)
  }

  ghost predicate JobsOk(s: State) { forall id :: id in s.phases ==> JobOk(s, id) }

  ghost predicate Inv(cfg: Config, s: State) { TicketsOk(cfg, s) && JobsOk(s) && PoolOk(s) }

  // ----- preservation

  /** The two states agree on everything that concerns this job. */
  predicate SameJob(s: State, t: State, id: nat) {
    && id in s.phases && id in t.phases && s.phases[id] == t.phases[id]
    && (id in s.tickets <==> id in t.tickets) && (id in s.tickets ==> s.tickets[id] == t.tickets[id])
    && (id in s.flags <==> id in t.flags) && (id in s.changed <==> id in t.changed)
    && (id in s.early <==> id in t.early)
  }

  lemma SameJobOk(s: State, t: State, id: nat)
    requires SameJob(s, t, id) && JobOk(s, id)
    ensures JobOk(t, id)
  {
  }

  /** The job an action is about. */
  function Subject(s: State, a: Action): int {
    match a
    case Submit(id) => id
    case Withdraw(id) => id
    case Take => if s.pool.queue == [] then -1 else s.pool.queue[0]
    case Mark(id) => id
    case Fetch(id) => id
    case Check(id) => id
    case Publish(id, _) => id
    case Complete(id) => id
    case Finish(id) => id
    case Cancel(id) => id
    case Release(id) => id
    case _ => -1
  }

  predicate Wide(a: Action) { a.Admit? || a.AbortPool? }

  /** Actions about one job leave every other job alone. */
  lemma OthersSame(cfg: Config, s: State, a: Action, id: nat)
    requires id in s.phases && !Wide(a) && Subject(s, a) != id
    ensures SameJob(s, Next(cfg, s, a), id)
  {
  }

  lemma NoNewJobs(cfg: Config, s: State, a: Action, id: nat)
    requires Inv(cfg, s) && id !in s.phases && !Wide(a)
    ensures id !in Next(cfg, s, a).phases
  {
    if a.Take? && s.pool.queue != [] { assert Is(s, s.pool.queue[0], Queued); }
  }

  lemma ForgetSettled(s: State, t: State, id: nat)
    requires id in s.phases && JobOk(s, id) && id in s.tickets && !s.tickets[id].InFlight()
    requires id in t.phases && t.phases[id] == s.phases[id] && id !in t.tickets
    requires (id in s.flags <==> id in t.flags) && (id in s.changed <==> id in t.changed)
             && (id in s.early <==> id in t.early)
    ensures JobOk(t, id)
  {
  }

  lemma AdmitKeepsJobs(cfg: Config, s: State)
    requires Inv(cfg, s)
    ensures JobsOk(AdmitStep(cfg, s))
  {
    var t := AdmitStep(cfg, s);
    var id, i := s.next, OldestSettled(s.tickets, s.order);
    forall j | j in t.phases ensures JobOk(t, j) {
      if j in s.phases {
        if j in s.tickets && j !in t.tickets {
          ForgetSettled(s, t, j);
        } else {
          SameJobOk(s, t, j);
        }
      } else {
        assert j == id && id !in s.early;
        assert t.tickets[id] == Ticket(Pending, false, false);
      }
    }
  }

  lemma StartKeepsJob(cfg: Config, s: State, a: Action, id: nat)
    requires id in s.phases && JobOk(s, id) && (a == Submit(id) || a == Withdraw(id) || a == Mark(id) || a == Fetch(id))
    ensures id in Next(cfg, s, a).phases && JobOk(Next(cfg, s, a), id)
  {
  }

  lemma TakeKeepsJob(cfg: Config, s: State)
    requires s.pool.queue != [] && Is(s, s.pool.queue[0], Queued) && JobOk(s, s.pool.queue[0])
    ensures JobOk(Next(cfg, s, Take), s.pool.queue[0])
  {
  }

  lemma WorkKeepsJob(cfg: Config, s: State, a: Action, id: nat)
    requires id in s.phases && JobOk(s, id) && (a == Check(id) || a == Complete(id) || a == Finish(id))
    ensures id in Next(cfg, s, a).phases && JobOk(Next(cfg, s, a), id)
  {
  }

  lemma PublishKeepsJob(cfg: Config, s: State, id: nat, v: Verdict)
    requires id in s.phases && JobOk(s, id)
    ensures id in PublishStep(s, id, v).phases && JobOk(PublishStep(s, id, v), id)
  {
  }

  lemma CancelKeepsJob(cfg: Config, s: State, id: nat)
    requires id in s.phases && JobOk(s, id)
    ensures id in CancelStep(s, id).phases && JobOk(CancelStep(s, id), id)
  {
  }

  lemma ReleaseKeepsJob(cfg: Config, s: State, id: nat)
    requires id in s.phases && JobOk(s, id)
    ensures id in ReleaseStep(s, id).phases && JobOk(ReleaseStep(s, id), id)
  {
  }

  lemma SubjectKept(cfg: Config, s: State, a: Action, id: nat)
    requires Inv(cfg, s) && id in s.phases && !Wide(a) && Subject(s, a) == id
    ensures id in Next(cfg, s, a).phases && JobOk(Next(cfg, s, a), id)
  {
    assert JobOk(s, id);
    match a {
      case Take =>
        assert Is(s, s.pool.queue[0], Queued);
        TakeKeepsJob(cfg, s);
      case Publish(_, v) => PublishKeepsJob(cfg, s, id, v);
      case Cancel(_) => CancelKeepsJob(cfg, s, id);
      case Release(_) => ReleaseKeepsJob(cfg, s, id);
      case Check(_) => WorkKeepsJob(cfg, s, a, id);
      case Complete(_) => WorkKeepsJob(cfg, s, a, id);
      case Finish(_) => WorkKeepsJob(cfg, s, a, id);
      case _ => StartKeepsJob(cfg, s, a, id);
    }
  }

  lemma StepKeepsJobs(cfg: Config, s: State, a: Action)
    requires Inv(cfg, s)
    ensures JobsOk(Next(cfg, s, a))
  {
    if a.Admit? {
      AdmitKeepsJobs(cfg, s);
    } else if a.AbortPool? {
      AbortKeepsJobs(cfg, s);
    } else {
      forall id | id in Next(cfg, s, a).phases ensures JobOk(Next(cfg, s, a), id) {
        if id !in s.phases {
          NoNewJobs(cfg, s, a, id);
        } else if Subject(s, a) == id {
          SubjectKept(cfg, s, a, id);
        } else {
          OthersSame(cfg, s, a, id);
          SameJobOk(s, Next(cfg, s, a), id);
        }
      }
    }
  }

  lemma AbortKeepsJobs(cfg: Config, s: State)
    requires Inv(cfg, s)
    ensures JobsOk(AbortStep(s))
  {
    var t := AbortStep(s);
    forall id | id in t.phases ensures JobOk(t, id) {
      if t.phases[id] == s.phases[id] {
        SameJobOk(s, t, id);
      } else {
        assert Is(s, id, Queued);
      }
    }
  }

  /** Books whose keys are those of the old ones. */
  lemma SameBooks(cfg: Config, s: State, t: State)
    requires TicketsOk(cfg, s) && t.next == s.next && |t.tickets| <= |s.tickets|
    requires forall id :: id in t.tickets ==> id in s.tickets && id in t.order
    requires forall id :: id in t.phases <==> id in s.phases
    requires forall id :: id in t.early || id in t.changed ==> id in s.phases
    ensures TicketsOk(cfg, t)
  {
  }

  lemma ReportKeepsTickets(cfg: Config, s: State, id: nat, t: State)
    requires Inv(cfg, s) && (t == MarkStep(s, id) || t == CompleteStep(s, id) || t == CancelStep(s, id))
    ensures TicketsOk(cfg, t)
  {
    if id in s.phases { assert JobOk(s, id); }
    if id in s.tickets && id in t.tickets { SameKeys(s.tickets, id, t.tickets[id]); }
    SameBooks(cfg, s, t);
  }

  lemma RemovalKeepsTickets(cfg: Config, s: State, id: nat, t: State)
    requires Inv(cfg, s) && (t == WithdrawStep(s, id) || t == ReleaseStep(s, id))
    ensures TicketsOk(cfg, t)
  {
    FewerKeys(s.tickets, id);
    WithoutKeeps(s.order, id);
    SameBooks(cfg, s, t);
  }

  lemma PlainKeepsTickets(cfg: Config, s: State, id: nat, t: State)
    requires Inv(cfg, s) && (t == SubmitStep(cfg, s, id) || t == FetchStep(s, id) || t == FinishStep(s, id))
    ensures TicketsOk(cfg, t)
  {
    SameBooks(cfg, s, t);
  }

  lemma DecisionKeepsTickets(cfg: Config, s: State, id: nat, v: Verdict, t: State)
    requires Inv(cfg, s) && (t == CheckStep(s, id) || t == PublishStep(s, id, v))
    ensures TicketsOk(cfg, t)
  {
    SameBooks(cfg, s, t);
  }

  lemma StepKeepsTickets(cfg: Config, s: State, a: Action)
    requires Inv(cfg, s)
    ensures TicketsOk(cfg, Next(cfg, s, a))
  {
    var t := Next(cfg, s, a);
    var any := Verdict(false, false, false, false);
    match a {
      case Admit => AdmitKeepsBound(cfg, s);
      case Take => if s.pool.queue != [] { assert Is(s, s.pool.queue[0], Queued); }
      case Mark(id) => ReportKeepsTickets(cfg, s, id, t);
      case Complete(id) => ReportKeepsTickets(cfg, s, id, t);
      case Cancel(id) => ReportKeepsTickets(cfg, s, id, t);
      case Withdraw(id) => RemovalKeepsTickets(cfg, s, id, t);
      case Release(id) => RemovalKeepsTickets(cfg, s, id, t);
      case Submit(id) => PlainKeepsTickets(cfg, s, id, t);
      case Fetch(id) => PlainKeepsTickets(cfg, s, id, t);
      case Finish(id) => PlainKeepsTickets(cfg, s, id, t);
      case Check(id) => DecisionKeepsTickets(cfg, s, id, any, t);
      case Publish(id, v) => DecisionKeepsTickets(cfg, s, id, v, t);
      case _ =>
    }
  }

  lemma {:induction false} WithoutKeeps(order: seq<nat>, id: nat)
    ensures forall x :: x in order && x != id ==> x in Without(order, id)
  {
    if order != [] { WithoutKeeps(order[1..], id); }
  }

  lemma SameKeys(m: map<nat, Ticket>, id: nat, t: Ticket)
    requires id in m
    ensures |m[id := t]| == |m|
  {
    assert m[id := t].Keys == m.Keys;
    assert |m[id := t].Keys| == |m[id := t]| && |m.Keys| == |m|;
  }

  lemma FewerKeys(m: map<nat, Ticket>, id: nat)
    ensures |m - {id}| == if id in m then |m| - 1 else |m|
  {
    assert (m - {id}).Keys == m.Keys - {id};
    assert |(m - {id}).Keys| == |m - {id}| && |m.Keys| == |m|;
  }

  lemma MoreKeys(m: map<nat, Ticket>, id: nat, t: Ticket)
    requires id !in m
    ensures |m[id := t]| == |m| + 1
  {
    assert m[id := t].Keys == m.Keys + {id};
    assert |m[id := t].Keys| == |m[id := t]| && |m.Keys| == |m|;
  }

  /** The order without one place, and with a new ticket behind it, still holds every ticket that is kept. */
  lemma OrderCovers(order: seq<nat>, i: nat, x: nat)
    requires i < |order| && x in order && x != order[i]
    ensures x in order[..i] + order[i + 1..]
  {
    assert order == order[..i] + [order[i]] + order[i + 1..];
  }

  lemma AdmitKeepsBound(cfg: Config, s: State)
    requires Inv(cfg, s)
    ensures TicketsOk(cfg, AdmitStep(cfg, s))
  {
    var t := AdmitStep(cfg, s);
    var id, i := s.next, OldestSettled(s.tickets, s.order);
    var full := |s.tickets| >= cfg.maxTickets;
    if !(full && i == |s.order|) {
      var kept := if full then s.tickets - {s.order[i]} else s.tickets;
      if full { FewerKeys(s.tickets, s.order[i]); }
      MoreKeys(kept, id, Ticket(Pending, false, false));
      forall x | x in t.tickets ensures x in t.order {
        if x != id && full { OrderCovers(s.order, i, x); }
      }
    }
  }

  // ----- the pool

  /** The pool is left alone, and no job enters or leaves it. */
  lemma SamePool(s: State, t: State)
    requires PoolOk(s) && t.pool == s.pool
    requires forall id :: Is(s, id, Queued) ==> Is(t, id, Queued)
    requires forall id :: id in s.phases && InPool(s.phases[id]) <==> id in t.phases && InPool(t.phases[id])
    ensures PoolOk(t)
  {
  }

  lemma StartedKeepsPool(cfg: Config, s: State, id: nat, t: State)
    requires Inv(cfg, s) && (t == MarkStep(s, id) || t == FetchStep(s, id))
    ensures PoolOk(t)
  {
    SamePool(s, t);
  }

  lemma InsideKeepsPool(cfg: Config, s: State, id: nat, v: Verdict, t: State)
    requires Inv(cfg, s) && (t == CheckStep(s, id) || t == PublishStep(s, id, v))
    ensures PoolOk(t)
  {
    SamePool(s, t);
  }

  lemma ReportKeepsPool(cfg: Config, s: State, id: nat)
    requires Inv(cfg, s)
    ensures PoolOk(CompleteStep(s, id))
  {
    SamePool(s, CompleteStep(s, id));
  }

  lemma AdmitKeepsPool(cfg: Config, s: State)
    requires Inv(cfg, s)
    ensures PoolOk(AdmitStep(cfg, s))
  {
    SamePool(s, AdmitStep(cfg, s));
  }

  lemma WithdrawKeepsPool(cfg: Config, s: State, id: nat)
    requires Inv(cfg, s)
    ensures PoolOk(WithdrawStep(s, id))
  {
    if Is(s, id, Turned) {
      TurnedLeaves(s, id);
      PhasesOnly(AtPhase(s, id, Done), WithdrawStep(s, id));
    }
  }

  lemma TurnedLeaves(s: State, id: nat)
    requires PoolOk(s) && Is(s, id, Turned)
    ensures PoolOk(AtPhase(s, id, Done))
  {
    SamePool(s, AtPhase(s, id, Done));
  }

  /** The pool's books mention phases and the pool only. */
  lemma PhasesOnly(s: State, t: State)
    requires PoolOk(s) && t.phases == s.phases && t.pool == s.pool
    ensures PoolOk(t)
  {
  }

  lemma OutsideKeepsPool(cfg: Config, s: State, id: nat, t: State)
    requires Inv(cfg, s) && (t == CancelStep(s, id) || t == ReleaseStep(s, id))
    ensures PoolOk(t)
  {
    SamePool(s, t);
  }

  lemma SubmitKeepsPool(cfg: Config, s: State, id: nat)
    requires Inv(cfg, s)
    ensures PoolOk(SubmitStep(cfg, s, id))
  {
  }

  lemma TakeKeepsPool(cfg: Config, s: State)
    requires Inv(cfg, s)
    ensures PoolOk(TakeStep(s))
  {
    if s.pool.queue != [] {
      assert Is(s, s.pool.queue[0], Queued);
      assert s.pool.queue[0] !in s.pool.running;
    }
  }

  lemma FinishKeepsPool(cfg: Config, s: State, id: nat)
    requires Inv(cfg, s)
    ensures PoolOk(FinishStep(s, id))
  {
    if Is(s, id, Returned) { assert id in s.pool.running; }
  }

  lemma StepKeepsPool(cfg: Config, s: State, a: Action)
    requires Inv(cfg, s)
    ensures PoolOk(Next(cfg, s, a))
  {
    var t := Next(cfg, s, a);
    var any := Verdict(false, false, false, false);
    match a {
      case Admit => AdmitKeepsPool(cfg, s);
      case Withdraw(id) => WithdrawKeepsPool(cfg, s, id);
      case Cancel(id) => OutsideKeepsPool(cfg, s, id, t);
      case Release(id) => OutsideKeepsPool(cfg, s, id, t);
      case Mark(id) => StartedKeepsPool(cfg, s, id, t);
      case Fetch(id) => StartedKeepsPool(cfg, s, id, t);
      case Check(id) => InsideKeepsPool(cfg, s, id, any, t);
      case Publish(id, v) => InsideKeepsPool(cfg, s, id, v, t);
      case Complete(id) => ReportKeepsPool(cfg, s, id);
      case Submit(id) => SubmitKeepsPool(cfg, s, id);
      case Take => TakeKeepsPool(cfg, s);
      case Finish(id) => FinishKeepsPool(cfg, s, id);
      case AbortPool => AbortKeepsPool(cfg, s);
      case _ =>
    }
  }

  lemma AbortKeepsPool(cfg: Config, s: State)
    requires Inv(cfg, s)
    ensures PoolOk(AbortStep(s))
  {
    var t := AbortStep(s);
    forall id ensures id in t.pool.running <==> id in t.phases && InPool(t.phases[id]) {
      if id in s.phases && t.phases[id] != s.phases[id] { assert Is(s, id, Queued); }
    }
  }

  lemma StepKeeps(cfg: Config, s: State, a: Action)
    requires Inv(cfg, s)
    ensures Inv(cfg, Next(cfg, s, a))
  {
    StepKeepsJobs(cfg, s, a);
    StepKeepsTickets(cfg, s, a);
    StepKeepsPool(cfg, s, a);
  }

  function End(cfg: Config, s: State, run: seq<Action>): State
    decreases |run|
  {
    if run == [] then s else End(cfg, Next(cfg, s, run[0]), run[1..])
  }

  lemma {:induction false} RunKeeps(cfg: Config, s: State, run: seq<Action>)
    requires Inv(cfg, s)
    ensures Inv(cfg, End(cfg, s, run))
    decreases |run|
  {
    if run != [] {
      StepKeeps(cfg, s, run[0]);
      RunKeeps(cfg, Next(cfg, s, run[0]), run[1..]);
    }
  }

  /** In every interleaving: the ticket map stays within its bound; no ticket is both cancelled and committed; a
      ticket reported cancelled never changed the ledger; one cancelled while pending never completes and its job
      never changes the ledger; every accepted job is queued, active, completed or discarded. */
  lemma TicketSafety(cfg: Config, run: seq<Action>)
    ensures var s := End(cfg, INIT, run);
            && |s.tickets| <= cfg.maxTickets
            && (forall id :: id in s.tickets ==> !(s.tickets[id].cancelled && s.tickets[id].committed))
            && (forall id :: id in s.tickets && s.tickets[id].cancelled && !s.tickets[id].InFlight() ==>
               id !in s.changed)
            && (forall id :: id in s.early ==>
               id !in s.changed && (id in s.tickets ==> s.tickets[id].state != Completed))
            && s.pool.accepted == |s.pool.queue| + s.pool.active + s.pool.completed + s.pool.discarded
  {
    RunKeeps(cfg, INIT, run);
    var s := End(cfg, INIT, run);
    forall id | id in s.tickets ensures !(s.tickets[id].cancelled && s.tickets[id].committed) { assert JobOk(s, id); }
    forall id | id in s.tickets && s.tickets[id].cancelled && !s.tickets[id].InFlight() ensures id !in s.changed {
      assert JobOk(s, id);
    }
    forall id | id in s.early ensures id !in s.changed && (id in s.tickets ==> s.tickets[id].state != Completed) {
      assert JobOk(s, id);
    }
  }

  // ----- completion is final

  predicate Over(s: State, id: nat) { Is(s, id, Returned) || Is(s, id, Done) }

  /** A job that is over is never revived; its ticket stays as it is or goes, and does not come back. */
  lemma OverStep(cfg: Config, s: State, a: Action, id: nat)
    requires Inv(cfg, s) && Over(s, id)
    ensures var t := Next(cfg, s, a);
            Inv(cfg, t) && Over(t, id) && (id in t.tickets ==> id in s.tickets && t.tickets[id] == s.tickets[id])
  {
    StepKeeps(cfg, s, a);
    assert JobOk(s, id);
    if Wide(a) {
      OverWide(cfg, s, a, id);
    } else if Subject(s, a) == id {
      OverSubject(cfg, s, a, id);
    } else {
      OthersSame(cfg, s, a, id);
    }
  }

  lemma OverWide(cfg: Config, s: State, a: Action, id: nat)
    requires Inv(cfg, s) && Over(s, id) && Wide(a)
    ensures var t := Next(cfg, s, a);
            Over(t, id) && (id in t.tickets ==> id in s.tickets && t.tickets[id] == s.tickets[id])
  {
    if a.AbortPool? { assert forall i :: 0 <= i < |s.pool.queue| ==> Is(s, s.pool.queue[i], Queued); }
  }

  lemma OverSubject(cfg: Config, s: State, a: Action, id: nat)
    requires Inv(cfg, s) && Over(s, id) && JobOk(s, id) && !Wide(a) && Subject(s, a) == id
    ensures var t := Next(cfg, s, a);
            Over(t, id) && (id in t.tickets ==> id in s.tickets && t.tickets[id] == s.tickets[id])
  {
    FrontIsQueued(cfg, s);
  }

  lemma FrontIsQueued(cfg: Config, s: State)
    requires Inv(cfg, s)
    ensures s.pool.queue != [] ==> Is(s, s.pool.queue[0], Queued)
  {
  }

  lemma {:induction false} OverForever(cfg: Config, s: State, run: seq<Action>, id: nat)
    requires Inv(cfg, s) && Over(s, id)
    ensures var t := End(cfg, s, run);
            Over(t, id) && (id in t.tickets ==> id in s.tickets && t.tickets[id] == s.tickets[id])
    decreases |run|
  {
    if run != [] {
      OverStep(cfg, s, run[0], id);
      OverForever(cfg, Next(cfg, s, run[0]), run[1..], id);
    }
  }

  /** Completed is final: from then on the ticket is unchanged until it is forgotten, and never reappears changed. */
  lemma CompletedIsFinal(cfg: Config, s: State, run: seq<Action>, id: nat)
    requires Inv(cfg, s) && id in s.tickets && s.tickets[id].state == Completed
    ensures var t := End(cfg, s, run); id in t.tickets ==> t.tickets[id] == s.tickets[id]
  {
    assert JobOk(s, id);
    OverForever(cfg, s, run, id);
  }

  /** Admission makes room whenever it can: it is refused only when the map is full and every ticket in flight. */
  lemma AdmissionRefusedOnlyWhenBusy(cfg: Config, run: seq<Action>)
    ensures var s := End(cfg, INIT, run);
            AdmitStep(cfg, s).tickets == s.tickets ==>
              |s.tickets| == cfg.maxTickets && forall id :: id in s.tickets ==> s.tickets[id].InFlight()
  {
    RunKeeps(cfg, INIT, run);
    var s := End(cfg, INIT, run);
    var t := AdmitStep(cfg, s);
    if t.tickets == s.tickets {
      assert s.next !in s.tickets;
      var i := OldestSettled(s.tickets, s.order);
      forall id | id in s.tickets ensures s.tickets[id].InFlight() {
        var j :| 0 <= j < |s.order| && s.order[j] == id;
      }
    }
  }

  /** A job that reports always finds its ticket, and the worker never meets a queue it must drop. */
  lemma NoLostReports(cfg: Config, run: seq<Action>)
    ensures var s := End(cfg, INIT, run);
            && (forall id :: id in s.phases && s.phases[id].Decided? ==>
               id in s.tickets && s.tickets[id].state == Running)
            && DropStep(s) == s
  {
    RunKeeps(cfg, INIT, run);
    var s := End(cfg, INIT, run);
    forall id | id in s.phases && s.phases[id].Decided? ensures id in s.tickets && s.tickets[id].state == Running {
      assert JobOk(s, id);
    }
  }
}
