/** One propagation request: screening, one traversal per fresh signal, aggregation per resource, commit to the
    ledger. */
module Propagation {
  import opened Wrappers
  import opened FixedPoint
  import opened Model
  import opened Records
  import opened Traversal
  import opened Steering
  import opened Ties
  import opened Worklist
  import opened Ledgers
  import opened Aggregates

  // ----- one signal

  /** What one signal comes to: every input of its explanation's fingerprint. Predecessors are not part of it. */
  datatype Outcome = Outcome(status: Status, accepted: bool, truncated: bool, settlements: seq<Entry>, hops: seq<Hop>,
                             suppressed: seq<Suppression>, forwarded: set<nat>, considered: nat, refused: nat)

  function Nothing(status: Status): Outcome { Outcome(status, false, false, [], [], [], {}, 0, 0) }

  /** The outcome of a finished traversal. */
  function OutcomeOf(s: State): Outcome {
    Outcome(Success, true, s.truncated, Strips(s.order), s.book.hops, s.book.suppressed, s.forwarded,
            s.considered, s.refused)
  }

  /** The context a traversal reads, with the damping table the ledger holds now. */
  function Within(c: Context, damping: map<Key, Damped>): Context { c.(damping := damping) }

  /** The outcome of a signal when ties are broken by the picker. */
  ghost predicate Possible(c: Context, pick: Picker, known: bool, o: Outcome) {
    if known then o == Nothing(Success)
    else if Start(c).Err? then o == Nothing(Failed(Start(c).error))
    else exists run :: Steered(c, pick, run) && Final(run).mode.Finished? && o == OutcomeOf(Final(run))
  }

  /** A context has one outcome under any one way of breaking ties. */
  lemma OutcomesAgree(c: Context, pick: Picker, known: bool, a: Outcome, b: Outcome)
    requires Possible(c, pick, known, a) && Possible(c, pick, known, b)
    ensures a == b
  {
    if !known && Start(c).Ok? {
      var r :| Steered(c, pick, r) && Final(r).mode.Finished? && a == OutcomeOf(Final(r));
      var t :| Steered(c, pick, t) && Final(t).mode.Finished? && b == OutcomeOf(Final(t));
      SteeredRunUnique(c, pick, r, t);
    }
  }

  /** Without granted amplification the way ties are broken does not matter either. */
  lemma OutcomesIgnoreTies(c: Context, p: Picker, q: Picker, known: bool, a: Outcome, b: Outcome)
    requires !c.Granted() && Possible(c, p, known, a) && Possible(c, q, known, b)
    ensures a == b
  {
    if !known && Start(c).Ok? {
      var r :| Steered(c, p, r) && Final(r).mode.Finished? && a == OutcomeOf(Final(r));
      var t :| Steered(c, q, t) && Final(t).mode.Finished? && b == OutcomeOf(Final(t));
      SteeredIsRun(c, p, r);
      SteeredIsRun(c, q, t);
      TieIndependent(c, r, t);
    }
  }

  /** Traverse for the context's signal. */
  method Traverse(c: Context, pick: Picker) returns (o: Outcome)
    requires Fair(pick)
    ensures Possible(c, pick, false, o)
  {
    var engine := new Engine(c.budget, pick);
    var status, run := engine.Run(c);
    if status.Failed? { return Nothing(status); }
    o := Outcome(Success, true, engine.truncated, Strips(engine.order), engine.hops, engine.suppressed,
                 engine.forwarded, engine.considered, engine.refused);
    assert o == OutcomeOf(Final(run));
  }

  // ----- screening

  /** The verdict of the validity checks on a signal by itself. */
  type Check = Signal -> Status

  /** The sources of the signals that passed. */
  function Passed(check: Check, signals: seq<Signal>): set<nat>
    decreases |signals|, 0
  {
    if signals == [] then {}
    else
      var front, last := signals[..|signals| - 1], signals[|signals| - 1];
      Passed(check, front) + if Screened(check, front, last) == Success then {last.source} else {}
  }

  /** The verdict on a signal behind others: valid, and no earlier signal that passed has its source. */
  function Screened(check: Check, earlier: seq<Signal>, signal: Signal): Status
    decreases |earlier|, 1
  {
    if check(signal).Failed? then check(signal)
    else if signal.source in Passed(check, earlier) then Failed(Conflict)
    else Success
  }

  /** The part of signal i in a request. */
  ghost predicate PartOk(
    c: Context, pick: Picker, check: Check, known: seq<nat>, signals: seq<Signal>, i: nat, o: Outcome)
    requires i < |signals|
  {
    var verdict := Screened(check, signals[..i], signals[i]);
    if verdict.Failed? then o == Nothing(verdict)
    else Possible(c.(signal := signals[i]), pick, signals[i].lineage in known, o)
  }

  ghost predicate PartsOk(
    c: Context, pick: Picker, check: Check, known: seq<nat>, signals: seq<Signal>, parts: seq<Outcome>)
  {
    |parts| <= |signals| && forall i :: 0 <= i < |parts| ==> PartOk(c, pick, check, known, signals, i, parts[i])
  }

  lemma MoreParts(c: Context, pick: Picker, check: Check, known: seq<nat>, signals: seq<Signal>,
                  parts: seq<Outcome>, o: Outcome)
    requires PartsOk(c, pick, check, known, signals, parts) && |parts| < |signals|
    requires PartOk(c, pick, check, known, signals, |parts|, o)
    ensures PartsOk(c, pick, check, known, signals, parts + [o])
  {
  }

  /** The lineages of the signals that passed and are not known yet. */
  function Fresh(check: Check, known: seq<nat>, signals: seq<Signal>): seq<nat> {
    if signals == [] then []
    else
      var front, last := signals[..|signals| - 1], signals[|signals| - 1];
      Fresh(check, known, front)
      + if Screened(check, front, last) == Success && last.lineage !in known then [last.lineage] else []
  }

  // ----- one resource

  /** The contributions a resource keeps, in request order. */
  function Kept(signals: seq<Signal>, parts: seq<Outcome>, node: nat): (r: seq<Contribution>)
    requires |parts| <= |signals|
  {
    if parts == [] then []
    else
      var n := |parts| - 1;
      var before, p := Kept(signals, parts[..n], node), Arrival(parts[n].settlements, node);
      if p.Some? && |before| < MAX_CONTRIBUTIONS then before + [ContributionOf(signals[n], p.value)] else before
  }

  /** The strongest arrival and its source, the earliest among equals. */
  function Best(signals: seq<Signal>, parts: seq<Outcome>, node: nat): Option<(Potential, nat)>
    requires |parts| <= |signals|
  {
    if parts == [] then None
    else
      var n := |parts| - 1;
      var before, p := Best(signals, parts[..n], node), Arrival(parts[n].settlements, node);
      if p.Some? && (before.None? || p.value > before.value.0) then Some((p.value, signals[n].source)) else before
  }

  /** What is applied at a resource. */
  ghost predicate Amounts(c: Context, signals: seq<Signal>, parts: seq<Outcome>, node: nat, amount: Q16)
    requires |parts| <= |signals|
  {
    exists r: Q16 :: Combines(c.policy.aggregation, Kept(signals, parts, node), r) && amount == Min(c.policy.ceiling, r)
  }

  /** Applications in resource order; a zero amount is not recorded. */
  function Applications(ids: seq<Resource>, signals: seq<Signal>, parts: seq<Outcome>, amounts: seq<Q16>)
    : seq<Application>
    requires |parts| <= |signals| && |amounts| <= |ids|
  {
    if amounts == [] then []
    else
      var n := |amounts| - 1;
      var before, best := Applications(ids, signals, parts, amounts[..n]), Best(signals, parts, n);
      if best.Some? && amounts[n] > 0 then before + [Application(best.value.1, ids[n].id, amounts[n])] else before
  }

  function AllHops(parts: seq<Outcome>): seq<Hop> {
    if parts == [] then [] else AllHops(parts[..|parts| - 1]) + parts[|parts| - 1].hops
  }

  // ----- the request

  predicate AnyAccepted(parts: seq<Outcome>) { exists i :: 0 <= i < |parts| && parts[i].accepted }
  predicate AnyTruncated(parts: seq<Outcome>) { exists i :: 0 <= i < |parts| && parts[i].truncated }

  /** The first signal that a screening refused, or else the first that its traversal refused. */
  function FirstRefusal(check: Check, signals: seq<Signal>, parts: seq<Outcome>, screened: bool): Status
    requires |parts| <= |signals|
  {
    if parts == [] then Success
    else
      var n := |parts| - 1;
      var before := FirstRefusal(check, signals, parts[..n], screened);
      if before.Failed? then before
      else if screened == Screened(check, signals[..n], signals[n]).Failed? then parts[n].status else Success
  }

  function StatusOf(check: Check, signals: seq<Signal>, parts: seq<Outcome>): Status
    requires |parts| <= |signals|
  {
    if AnyAccepted(parts) then Success
    else if FirstRefusal(check, signals, parts, true).Failed? then FirstRefusal(check, signals, parts, true)
    else FirstRefusal(check, signals, parts, false)
  }

  /** What a request reports: everything its fingerprint is computed from is here or follows from it. */
  datatype Report = Report(status: Status, parts: seq<Outcome>, amounts: seq<Q16>)
  {
    predicate Accepted() { AnyAccepted(parts) }
    predicate Truncated() { AnyTruncated(parts) }
  }

  function SizeFault(c: Context, signals: seq<Signal>): Option<Error> {
    if signals == [] then Some(InvalidArgument)
    else if |signals| > c.policy.maxSources then Some(LimitExceeded) else None
  }

  /** The report of a request, given the ledger's lineages, when ties are broken by the picker. */
  ghost predicate Reports(c: Context, pick: Picker, check: Check, known: seq<nat>, signals: seq<Signal>, o: Report) {
    if SizeFault(c, signals).Some? then o == Report(Failed(SizeFault(c, signals).value), [], [])
    else
      && |o.parts| == |signals| && PartsOk(c, pick, check, known, signals, o.parts)
      && o.status == StatusOf(check, signals, o.parts)
      && |o.amounts| == |c.topo.resources|
      && forall node :: 0 <= node < |o.amounts| ==> Amounts(c, signals, o.parts, node, o.amounts[node])
  }

  /** Plan and commit agree: a request has one report under any one way of breaking ties, amplified or not. */
  lemma ReportsAgree(
    c: Context, pick: Picker, check: Check, known: seq<nat>, signals: seq<Signal>, a: Report, b: Report)
    requires Reports(c, pick, check, known, signals, a) && Reports(c, pick, check, known, signals, b)
    ensures a == b
  {
    if SizeFault(c, signals).None? {
      forall i | 0 <= i < |signals| ensures a.parts[i] == b.parts[i] {
        assert PartOk(c, pick, check, known, signals, i, a.parts[i]);
        assert PartOk(c, pick, check, known, signals, i, b.parts[i]);
        if Screened(check, signals[..i], signals[i]) == Success {
          OutcomesAgree(c.(signal := signals[i]), pick, signals[i].lineage in known, a.parts[i], b.parts[i]);
        }
      }
      assert a.parts == b.parts;
      forall node | 0 <= node < |a.amounts| ensures a.amounts[node] == b.amounts[node] {
        assert Amounts(c, signals, a.parts, node, a.amounts[node]);
        AmountUnique(c, signals, a.parts, node, a.amounts[node], b.amounts[node]);
      }
    }
  }

  lemma AmountUnique(c: Context, signals: seq<Signal>, parts: seq<Outcome>, node: nat, x: Q16, y: Q16)
    requires |parts| <= |signals| && Amounts(c, signals, parts, node, x) && Amounts(c, signals, parts, node, y)
    ensures x == y
  {
    var kept := Kept(signals, parts, node);
    var r: Q16 :| Combines(c.policy.aggregation, kept, r) && x == Min(c.policy.ceiling, r);
    var s: Q16 :| Combines(c.policy.aggregation, kept, s) && y == Min(c.policy.ceiling, s);
    CombinesPermuted(c.policy.aggregation, kept, kept, r, s);
  }

  // ----- carrying it out

  /** The part of one signal, given the sources that earlier ones have taken. */
  method PartFor(
    c: Context, pick: Picker, check: Check, ledger: Ledger, signals: seq<Signal>, i: nat, sources: set<nat>)
    returns (part: Outcome, verdict: Status)
    requires ledger.Valid() && Fair(pick) && i < |signals| && sources == Passed(check, signals[..i])
    ensures verdict == Screened(check, signals[..i], signals[i])
    ensures PartOk(c, pick, check, ledger.order, signals, i, part)
  {
    verdict := check(signals[i]);
    if verdict == Success && signals[i].source in sources { verdict := Failed(Conflict); }
    part := Nothing(verdict);
    if verdict == Success && signals[i].lineage !in ledger.index { part := Traverse(c.(signal := signals[i]), pick); }
  }

  /** Screen every signal and traverse for those that pass and are not known. */
  method Collect(c: Context, pick: Picker, check: Check, ledger: Ledger, signals: seq<Signal>)
    returns (parts: seq<Outcome>, lineages: seq<nat>)
    requires ledger.Valid() && Fair(pick)
    ensures |parts| == |signals| && PartsOk(c, pick, check, ledger.order, signals, parts)
    ensures lineages == Fresh(check, ledger.order, signals)
  {
    parts, lineages := [], [];
    var sources: set<nat> := {};
    for i := 0 to |signals|
      invariant |parts| == i && PartsOk(c, pick, check, ledger.order, signals, parts)
      invariant sources == Passed(check, signals[..i]) && lineages == Fresh(check, ledger.order, signals[..i])
    {
      var part, verdict := PartFor(c, pick, check, ledger, signals, i, sources);
      assert signals[..i + 1][..i] == signals[..i];
      if verdict == Success {
        sources := sources + {signals[i].source};
        if signals[i].lineage !in ledger.index { lineages := lineages + [signals[i].lineage]; }
      }
      MoreParts(c, pick, check, ledger.order, signals, parts, part);
      parts := parts + [part];
    }
    assert signals[..|signals|] == signals;
  }

  method Gather(signals: seq<Signal>, parts: seq<Outcome>, node: nat) returns (kept: seq<Contribution>)
    requires |parts| == |signals|
    ensures kept == Kept(signals, parts, node)
  {
    kept := [];
    for i := 0 to |parts|
      invariant kept == Kept(signals, parts[..i], node)
    {
      assert parts[..i + 1][..i] == parts[..i];
      var p := Arrival(parts[i].settlements, node);
      if p.Some? && |kept| < MAX_CONTRIBUTIONS { kept := kept + [ContributionOf(signals[i], p.value)]; }
    }
    assert parts[..|parts|] == parts;
  }

  /** Combine what arrived at every resource. */
  method Aggregate(c: Context, signals: seq<Signal>, parts: seq<Outcome>) returns (amounts: seq<Q16>)
    requires |parts| == |signals|
    ensures |amounts| == |c.topo.resources|
    ensures forall node :: 0 <= node < |amounts| ==> Amounts(c, signals, parts, node, amounts[node])
  {
    amounts := [];
    for i := 0 to |c.topo.resources|
      invariant |amounts| == i
      invariant forall node :: 0 <= node < i ==> Amounts(c, signals, parts, node, amounts[node])
    {
      var kept := Gather(signals, parts, i);
      var r := Combine(c.policy.aggregation, kept);
      amounts := amounts + [Min(c.policy.ceiling, r)];
    }
  }

  /** What a ledger holds. */
  datatype Books = Books(order: seq<nat>, applications: map<Key, Applied>, damping: map<Key, Damped>)

  function BooksOf(ledger: Ledger): Books
    reads ledger
  {
    Books(ledger.order, ledger.applications, ledger.damping)
  }

  /** Same lineages, applications and damping table. */
  twostate predicate Untouched(ledger: Ledger)
    reads ledger
  {
    BooksOf(ledger) == old(BooksOf(ledger))
  }

  /** A signal that is not accepted leaves nothing but its status in the report. */
  lemma RefusedIsNothing(c: Context, pick: Picker, check: Check, known: seq<nat>, signals: seq<Signal>, o: Report)
    requires Reports(c, pick, check, known, signals, o)
    ensures forall i :: 0 <= i < |o.parts| && !o.parts[i].accepted ==>
              o.parts[i] == Outcome(o.parts[i].status, false, false, [], [], [], {}, 0, 0)
  {
    forall i | 0 <= i < |o.parts| && !o.parts[i].accepted
      ensures o.parts[i] == Outcome(o.parts[i].status, false, false, [], [], [], {}, 0, 0)
    {
      assert PartOk(c, pick, check, known, signals, i, o.parts[i]);
    }
  }

  /** Nothing is applied and nothing damped when no signal was accepted. */
  lemma {:induction false} NothingAccepted(
    c: Context, pick: Picker, check: Check, known: seq<nat>, signals: seq<Signal>, parts: seq<Outcome>)
    requires PartsOk(c, pick, check, known, signals, parts) && !AnyAccepted(parts)
    ensures AllHops(parts) == [] && !AnyTruncated(parts) && forall node :: Best(signals, parts, node).None?
  {
    if parts != [] {
      var n := |parts| - 1;
      assert PartOk(c, pick, check, known, signals, n, parts[n]);
      forall i | 0 <= i < n ensures PartOk(c, pick, check, known, signals, i, parts[..n][i]) {
        assert PartOk(c, pick, check, known, signals, i, parts[i]);
      }
      assert forall i :: 0 <= i < n ==> parts[..n][i] == parts[i];
      NothingAccepted(c, pick, check, known, signals, parts[..n]);
    }
  }

  lemma {:induction false} NoApplications(
    ids: seq<Resource>, signals: seq<Signal>, parts: seq<Outcome>, amounts: seq<Q16>)
    requires |parts| <= |signals| && |amounts| <= |ids| && forall node :: Best(signals, parts, node).None?
    ensures Applications(ids, signals, parts, amounts) == []
  {
    if amounts != [] { NoApplications(ids, signals, parts, amounts[..|amounts| - 1]); }
  }

  /** With no signal accepted and none refused every one of them is known. */
  lemma {:induction false} NothingFresh(
    c: Context, pick: Picker, check: Check, known: seq<nat>, signals: seq<Signal>, parts: seq<Outcome>, n: nat)
    requires PartsOk(c, pick, check, known, signals, parts) && !AnyAccepted(parts) && n <= |parts|
    requires FirstRefusal(check, signals, parts[..n], true) == Success
    requires FirstRefusal(check, signals, parts[..n], false) == Success
    ensures Fresh(check, known, signals[..n]) == []
    ensures forall i :: 0 <= i < n ==> signals[i].lineage in known
  {
    if n > 0 {
      assert parts[..n][..n - 1] == parts[..n - 1] && signals[..n][..n - 1] == signals[..n - 1];
      assert PartOk(c, pick, check, known, signals, n - 1, parts[n - 1]);
      assert parts[..n][n - 1] == parts[n - 1];
      NothingFresh(c, pick, check, known, signals, parts, n - 1);
    }
  }

  /** A request that succeeds without an accepted signal repeats known ones and has nothing to commit. */
  lemma NothingToCommit(c: Context, pick: Picker, check: Check, known: seq<nat>, signals: seq<Signal>, o: Report)
    requires Reports(c, pick, check, known, signals, o) && o.status == Success && !o.Accepted()
    ensures Fresh(check, known, signals) == [] && AllHops(o.parts) == []
    ensures Applications(c.topo.resources, signals, o.parts, o.amounts) == []
    ensures forall i :: 0 <= i < |signals| ==> signals[i].lineage in known
  {
    NothingAccepted(c, pick, check, known, signals, o.parts);
    NoApplications(c.topo.resources, signals, o.parts, o.amounts);
    assert o.parts[..|signals|] == o.parts && signals[..|signals|] == signals;
    NothingFresh(c, pick, check, known, signals, o.parts, |signals|);
  }

  /** Work out the report without touching the ledger. */
  method Survey(c: Context, pick: Picker, check: Check, ledger: Ledger, signals: seq<Signal>)
    returns (o: Report, lineages: seq<nat>)
    requires ledger.Valid() && Fair(pick)
    ensures Reports(c, pick, check, ledger.order, signals, o)
    ensures o.status == Success ==>
              && |o.parts| == |signals| && |o.amounts| == |c.topo.resources|
              && lineages == Fresh(check, ledger.order, signals)
  {
    if SizeFault(c, signals).Some? { return Report(Failed(SizeFault(c, signals).value), [], []), []; }
    var parts;
    parts, lineages := Collect(c, pick, check, ledger, signals);
    var amounts := Aggregate(c, signals, parts);
    o := Report(StatusOf(check, signals, parts), parts, amounts);
  }

  /** What a commit leaves in the ledger. */
  function Committed(ledger: Ledger, before: Books, c: Context, check: Check, signals: seq<Signal>, o: Report): Books
    requires |before.order| <= ledger.lineageCapacity && ledger.lineageCapacity > 0
    requires |o.parts| == |signals| && |o.amounts| == |c.topo.resources|
  {
    Books(AllMarked(before.order, Fresh(check, before.order, signals), ledger.lineageCapacity),
          AllApplied(before.applications, Applications(c.topo.resources, signals, o.parts, o.amounts),
                     ledger.applicationCapacity, c.now),
          AllDamped(before.damping, AllHops(o.parts), ledger.dampingCapacity, c.now))
  }

  /** The report is one to take into the ledger: some signal was accepted and no record lost. */
  predicate Commits(o: Report) { o.Accepted() && !o.Truncated() }

  /** Propagate a request. A dry run changes nothing; a real one changes the ledger only when some signal was accepted
      and no traversal lost a record. Then every lineage that passed and was fresh is marked, whether or not its
      traversal was refused, and the status tells whether every application found room. */
  method Propagate(ledger: Ledger, c: Context, pick: Picker, check: Check, signals: seq<Signal>, dryRun: bool)
    returns (o: Report, status: Status)
    requires ledger.Valid() && Fair(pick)
    modifies ledger
    ensures ledger.Valid()
    ensures Reports(c.(damping := old(ledger.damping)), pick, check, old(ledger.order), signals, o)
    ensures signals == [] ==> o.status == Failed(InvalidArgument)
    ensures signals != [] && |signals| > c.policy.maxSources ==> o.status == Failed(LimitExceeded)
    ensures 0 < |signals| <= c.policy.maxSources ==> |o.parts| == |signals|
    ensures forall i :: 0 <= i < |o.parts| && !o.parts[i].accepted ==>
              o.parts[i] == Outcome(o.parts[i].status, false, false, [], [], [], {}, 0, 0)
    ensures o.status == Success ==> |o.parts| == |signals| && |o.amounts| == |c.topo.resources|
    ensures dryRun || !Commits(o) ==> Untouched(ledger) && status == o.status
    ensures Commits(o) <==> (exists i :: 0 <= i < |o.parts| && o.parts[i].accepted)
                            && forall i :: 0 <= i < |o.parts| ==> !o.parts[i].truncated
    ensures !dryRun && Commits(o) ==> o.status == Success
    ensures !dryRun && Commits(o) ==>
              && BooksOf(ledger) == Committed(ledger, old(BooksOf(ledger)), c, check, signals, o)
              && (status == Success <==>
                    Room(old(ledger.applications), Applications(c.topo.resources, signals, o.parts, o.amounts),
                         ledger.applicationCapacity, c.now))
  {
    var d := Within(c, ledger.damping);
    var lineages;
    o, lineages := Survey(d, pick, check, ledger, signals);
    RefusedIsNothing(d, pick, check, ledger.order, signals, o);
    if o.status.Failed? { return o, o.status; }
    if !o.Accepted() { NothingToCommit(d, pick, check, ledger.order, signals, o); }
    status := ledger.Commit(lineages, Applications(c.topo.resources, signals, o.parts, o.amounts), AllHops(o.parts),
                            c.now, dryRun, o.Truncated());
  }
}
