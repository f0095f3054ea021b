/** The publish inside an asynchronous job: what the ticket protocol takes for granted about its outcome is what the
    publish itself guarantees. */
module AsyncPublishing {
  import opened Traversal
  import opened Steering
  import opened Ledgers
  import opened Propagation
  import opened Publishing
  import Tickets

  /** The ticket a job writes for each way a publish can end. */
  function TicketOf(r: Result): Tickets.Ticket {
    match r
    case Rejected => Tickets.Ticket(Tickets.Failed, false, false)
    case CancelledInTime => Tickets.CANCELLED
    case NotJournaled => Tickets.Ticket(Tickets.Failed, false, false)
    case CommitRefused => Tickets.Ticket(Tickets.Failed, false, true)
    case Disagreed => Tickets.Ticket(Tickets.Failed, false, false)
    case NotConfirmed(_) => Tickets.Ticket(Tickets.Failed, false, false)
    case Published(_, _) => Tickets.Ticket(Tickets.Completed, false, true)
  }

  /** How the ticket protocol sees it. */
  function VerdictOf(r: Result): Tickets.Verdict {
    match r
    case Rejected => Tickets.Verdict(false, false, false, false)
    case CancelledInTime => Tickets.Verdict(true, false, false, false)
    case NotJournaled => Tickets.Verdict(true, false, false, false)
    case CommitRefused => Tickets.Verdict(true, false, true, true)
    case Disagreed => Tickets.Verdict(true, false, true, false)
    case NotConfirmed(lost) => Tickets.Verdict(true, false, !lost, false)
    case Published(accepted, truncated) => Tickets.Verdict(true, true, accepted && !truncated, true)
  }

  /** Every verdict is one the ticket protocol allows for, and the ticket is the one it has the job report. */
  lemma VerdictsPossible(r: Result, flag: bool)
    requires (flag ==> r == Rejected || r == CancelledInTime) && (r == CancelledInTime ==> flag)
    ensures VerdictOf(r).Possible() && TicketOf(r) == Tickets.Report(flag, VerdictOf(r)).0
    ensures r != Disagreed ==> (r.Quiet() <==> !Tickets.Report(flag, VerdictOf(r)).1)
    ensures flag ==> r.Quiet() && !TicketOf(r).committed && TicketOf(r).state != Tickets.Completed
    ensures TicketOf(r).cancelled ==> flag
  {
  }

  /** The body of a job that saw its flag clear: publish under the lock and report. The ticket is the one the report
      of the signal demands, and the verdict one the ticket protocol allows for; the ledger takes in the report exactly
      when the verdict says so; a flag set in time leaves the ledger untouched and nothing committed. */
  method PublishJob(ledger: Ledger, c: Context, pick: Picker, check: Check, flag: bool, j: Journaling)
    returns (ticket: Tickets.Ticket, verdict: Tickets.Verdict, ghost o: Report)
    requires ledger.Valid() && Fair(pick)
    modifies ledger
    ensures ledger.Valid() && verdict.Possible() && ticket == Tickets.Report(flag, verdict).0
    ensures PlannedFor(old(BooksOf(ledger)), c, pick, check, [c.signal], o)
    ensures o.status.Success? ==> Sized(c, [c.signal], o)
    ensures ticket == TicketOf(Conclusion(ledger, old(BooksOf(ledger)), c, [c.signal], o, flag, j))
    ensures if Tickets.Report(flag, verdict).1
            then o.status.Success?
                 && BooksOf(ledger) == Committed(ledger, old(BooksOf(ledger)), c, check, [c.signal], o)
            else Untouched(ledger)
    ensures flag ==> Untouched(ledger) && !ticket.committed && ticket.state != Tickets.Completed
    ensures ticket.cancelled ==> flag && Untouched(ledger)
  {
    var r;
    r, o := PublishLocked(ledger, c, pick, check, flag, j);
    ticket, verdict := TicketOf(r), VerdictOf(r);
    VerdictsPossible(r, flag);
  }
}
