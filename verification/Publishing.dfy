/** Publishing under the fabric's lock: plan, cancellation boundary, journaled intent, commit, verification. */
module Publishing {
  import opened Wrappers
  import opened Model
  import opened Traversal
  import opened Steering
  import opened Ledgers
  import opened Propagation

  datatype Result =
    | Rejected            // the plan was refused
    | CancelledInTime     // the flag was set at the boundary
    | NotJournaled        // the intent could not be written
    | CommitRefused       // the ledger ran out of room
    | Disagreed           // plan and commit differ
    | NotConfirmed(lost: bool) // the commit record could not be written; lost when a traversal was truncated
    | Published(accepted: bool, truncated: bool)
  {
    /** Endings that leave the ledger alone. */
    predicate Quiet() {
      match this
      case Rejected => true
      case CancelledInTime => true
      case NotJournaled => true
      case NotConfirmed(lost) => lost
      case Published(accepted, truncated) => truncated || !accepted
      case _ => false
    }
  }

  /** The report of the request from these books; stated so that it is looked into only where asked for. */
  ghost predicate PlannedFor(
    books: Books, c: Context, pick: Picker, check: Check, signals: seq<Signal>, planned: Report)
  {
    forall o: Report :: o == planned ==> ReportedFor(books, c, pick, check, signals, o)
  }

  ghost predicate ReportedFor(books: Books, c: Context, pick: Picker, check: Check, signals: seq<Signal>, o: Report) {
    Reports(Within(c, books.damping), pick, check, books.order, signals, o)
  }

  /** One part for each signal and one amount for each resource. */
  predicate Sized(c: Context, signals: seq<Signal>, o: Report) {
    |o.parts| == |signals| && |o.amounts| == |c.topo.resources|
  }

  /** Every application of the report finds room. */
  predicate RoomFor(ledger: Ledger, books: Books, c: Context, signals: seq<Signal>, o: Report)
    requires Sized(c, signals, o)
  {
    Room(books.applications, Applications(c.topo.resources, signals, o.parts, o.amounts), ledger.applicationCapacity,
         c.now)
  }

  /** What the journal answers, and whether the caller wants the intent on disk. */
  datatype Journaling = Journaling(durable: bool, intent: bool, confirmation: bool)

  /** The result that a request with this report must have. */
  function Conclusion(ledger: Ledger, books: Books, c: Context, signals: seq<Signal>, o: Report, cancelled: bool,
                      j: Journaling): Result
    requires o.status == Success ==> Sized(c, signals, o)
  {
    if o.status.Failed? then Rejected
    else if cancelled then CancelledInTime
    else if j.durable && o.Accepted() && !j.intent then NotJournaled
    else if o.Accepted() && !o.Truncated() && !RoomFor(ledger, books, c, signals, o) then CommitRefused
    else if j.durable && o.Accepted() && !j.confirmation then NotConfirmed(o.Truncated())
    else Published(o.Accepted(), o.Truncated())
  }

  /** Result and ledger are what the report demands. */
  ghost predicate Concludes(ledger: Ledger, before: Books, after: Books, c: Context, check: Check, signals: seq<Signal>,
                            o: Report, cancelled: bool, j: Journaling, r: Result)
    requires |before.order| <= ledger.lineageCapacity && ledger.lineageCapacity > 0
  {
    && (o.status == Success ==> Sized(c, signals, o))
    && r == Conclusion(ledger, before, c, signals, o, cancelled, j)
    && after == if r.Quiet() then before else Committed(ledger, before, c, check, signals, o)
  }

  /** Plan, commit and verify a request. The journal's answers are parameters: whether the intent and the confirmation
      could be written. The result and the ledger are what the request's report demands; the branch for a commit that
      disagrees with its plan is never taken. */
  method PublishSignals(ledger: Ledger, c: Context, pick: Picker, check: Check, signals: seq<Signal>, cancelled: bool,
                        j: Journaling)
    returns (r: Result, ghost o: Report)
    requires ledger.Valid() && Fair(pick)
    modifies ledger
    ensures ledger.Valid()
    ensures PlannedFor(old(BooksOf(ledger)), c, pick, check, signals, o)
    ensures Concludes(ledger, old(BooksOf(ledger)), BooksOf(ledger), c, check, signals, o, cancelled, j, r)
    ensures r != Disagreed
    ensures (forall i :: 0 <= i < |signals| ==> check(signals[i]).Failed?) ==> r == Rejected
    ensures r.Published? && !r.accepted ==> forall i :: 0 <= i < |signals| ==> signals[i].lineage in old(ledger.order)
  {
    var planned := Plan(ledger, c, pick, check, signals);
    o := planned;
    if planned.status != Success { return Rejected, o; }
    if cancelled { return CancelledInTime, o; }
    var journaled := j.durable && planned.Accepted();
    if journaled && !j.intent { return NotJournaled, o; }
    r := CommitPlanned(ledger, c, pick, check, signals, planned, journaled && !j.confirmation);
  }

  lemma PlanTells(c: Context, pick: Picker, check: Check, known: seq<nat>, signals: seq<Signal>, o: Report)
    requires Reports(c, pick, check, known, signals, o) && o.status == Success
    ensures !o.Accepted() ==> forall i :: 0 <= i < |signals| ==> signals[i].lineage in known
    ensures exists i :: 0 <= i < |signals| && check(signals[i]) == Success
  {
    if !o.Accepted() { NothingToCommit(c, pick, check, known, signals, o); }
    if forall i :: 0 <= i < |signals| ==> check(signals[i]).Failed? {
      NothingPasses(c, pick, check, known, signals, o);
    }
  }

  /** The first half: a dry run. */
  method Plan(ledger: Ledger, c: Context, pick: Picker, check: Check, signals: seq<Signal>) returns (planned: Report)
    requires ledger.Valid() && Fair(pick)
    modifies ledger
    ensures ledger.Valid() && Untouched(ledger)
    ensures PlannedFor(BooksOf(ledger), c, pick, check, signals, planned)
    ensures planned.status == Success ==> Sized(c, signals, planned)
    ensures planned.status == Success ==>
              && (!planned.Accepted() ==> forall i :: 0 <= i < |signals| ==> signals[i].lineage in ledger.order)
              && (exists i :: 0 <= i < |signals| && check(signals[i]) == Success)
  {
    var status;
    planned, status := Propagate(ledger, c, pick, check, signals, true);
    if planned.status == Success { PlanTells(Within(c, ledger.damping), pick, check, ledger.order, signals, planned); }
  }

  /** The second half: commit what was planned, verify that it agrees, and confirm it. */
  method CommitPlanned(ledger: Ledger, c: Context, pick: Picker, check: Check, signals: seq<Signal>, planned: Report,
                       unconfirmed: bool)
    returns (r: Result)
    requires ledger.Valid() && Fair(pick) && planned.status == Success && Sized(c, signals, planned)
    requires PlannedFor(BooksOf(ledger), c, pick, check, signals, planned)
    modifies ledger
    ensures ledger.Valid()
    ensures var lively := planned.Accepted() && !planned.Truncated();
            && r == (if lively && !RoomFor(ledger, old(BooksOf(ledger)), c, signals, planned) then CommitRefused
                     else if unconfirmed then NotConfirmed(planned.Truncated())
                     else Published(planned.Accepted(), planned.Truncated()))
            && BooksOf(ledger) == if lively then Committed(ledger, old(BooksOf(ledger)), c, check, signals, planned)
                                  else old(BooksOf(ledger))
  {
    ghost var d, known, before := Within(c, ledger.damping), ledger.order, BooksOf(ledger);
    assert ReportedFor(before, c, pick, check, signals, planned);
    var outcome, status := Propagate(ledger, c, pick, check, signals, false);
    ReportsAgree(d, pick, check, known, signals, planned, outcome);
    if status != Success { return CommitRefused; }
    if outcome != planned { return Disagreed; }
    if unconfirmed { return NotConfirmed(outcome.Truncated()); }
    return Published(outcome.Accepted(), outcome.Truncated());
  }

  /** Publish several signals as one request; there is no flag to cancel it. */
  method PublishBatch(ledger: Ledger, c: Context, pick: Picker, check: Check, signals: seq<Signal>, j: Journaling)
    returns (r: Result, ghost o: Report)
    requires ledger.Valid() && Fair(pick)
    modifies ledger
    ensures ledger.Valid()
    ensures PlannedFor(old(BooksOf(ledger)), c, pick, check, signals, o)
    ensures Concludes(ledger, old(BooksOf(ledger)), BooksOf(ledger), c, check, signals, o, false, j, r)
    ensures r != Disagreed && r != CancelledInTime
    ensures r.Published? && !r.accepted ==> forall i :: 0 <= i < |signals| ==> signals[i].lineage in old(ledger.order)
  {
    r, o := PublishSignals(ledger, c, pick, check, signals, false, j);
  }

  /** A request in which no signal is valid is an error. */
  lemma NothingPasses(c: Context, pick: Picker, check: Check, known: seq<nat>, signals: seq<Signal>, o: Report)
    requires Reports(c, pick, check, known, signals, o)
    requires forall i :: 0 <= i < |signals| ==> check(signals[i]).Failed?
    ensures o.status.Failed?
  {
    if SizeFault(c, signals).None? {
      forall i | 0 <= i < |signals| ensures o.parts[i] == Nothing(check(signals[i])) {
        assert PartOk(c, pick, check, known, signals, i, o.parts[i]);
      }
      FirstStays(check, signals, o.parts, |o.parts|);
      assert o.parts[..|o.parts|] == o.parts;
    }
  }

  lemma {:induction false} FirstStays(check: Check, signals: seq<Signal>, parts: seq<Outcome>, n: nat)
    requires 0 < n <= |parts| <= |signals| && check(signals[0]).Failed? && parts[0].status.Failed?
    ensures FirstRefusal(check, signals, parts[..n], true).Failed?
  {
    assert parts[..n][..n - 1] == parts[..n - 1];
    if n > 1 { FirstStays(check, signals, parts, n - 1); } else { assert parts[..0] == [] && signals[..0] == []; }
  }

  lemma MarkedHolds(check: Check, order: seq<nat>, signal: Signal, capacity: nat)
    requires 0 < capacity && |order| <= capacity && (check(signal) == Success || signal.lineage in order)
    ensures signal.lineage in AllMarked(order, Fresh(check, order, [signal]), capacity)
  {
    OneFresh(check, order, signal);
    if signal.lineage !in order { MarkedOnce(order, signal.lineage, capacity); }
  }

  lemma OneFresh(check: Check, order: seq<nat>, signal: Signal)
    requires check(signal) == Success || signal.lineage in order
    ensures Fresh(check, order, [signal]) == if signal.lineage in order then [] else [signal.lineage]
  {
    assert [signal][..0] == [] && Fresh(check, order, []) == [] && Passed(check, []) == {};
  }

  lemma MarkedOnce(order: seq<nat>, l: nat, capacity: nat)
    requires 0 < capacity && |order| <= capacity
    ensures l in AllMarked(order, [l], capacity)
  {
    assert [l][..0] == [] && AllMarked(order, [l], capacity) == Marked(order, l, capacity);
    assert (order + [l])[|order|] == l && (|order| > 0 ==> (order + [l])[1..][|order| - 1] == l);
  }

  /** Publish the context's signal. */
  method PublishLocked(ledger: Ledger, c: Context, pick: Picker, check: Check, cancelled: bool, j: Journaling)
    returns (r: Result, ghost o: Report)
    requires ledger.Valid() && Fair(pick)
    modifies ledger
    ensures ledger.Valid()
    ensures PlannedFor(old(BooksOf(ledger)), c, pick, check, [c.signal], o)
    ensures Concludes(ledger, old(BooksOf(ledger)), BooksOf(ledger), c, check, [c.signal], o, cancelled, j, r)
    ensures r != Disagreed
    ensures check(c.signal).Failed? ==> r == Rejected
    ensures r.Published? && !r.Quiet() ==> c.signal.lineage in ledger.order
    ensures r.Published? && !r.accepted ==> c.signal.lineage in old(ledger.order)
  {
    ghost var known := ledger.order;
    r, o := PublishSignals(ledger, c, pick, check, [c.signal], cancelled, j);
    if !r.Quiet() { MarkedHolds(check, known, c.signal, ledger.lineageCapacity); }
  }
}
