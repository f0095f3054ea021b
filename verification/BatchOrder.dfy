/** The order of a request: what its report says of a resource does not depend on it. */
module BatchOrder {
  import opened Wrappers
  import opened Model
  import opened Traversal
  import opened Steering
  import opened Aggregates
  import opened Propagation

  /** Every signal is valid and fresh, and no two have one source. */
  ghost predicate Clean(check: Check, known: seq<nat>, signals: seq<Signal>) {
    && (forall i :: 0 <= i < |signals| ==> check(signals[i]) == Success && signals[i].lineage !in known)
    && (forall i, j :: 0 <= i < j < |signals| ==> signals[i].source != signals[j].source)
  }

  lemma {:induction false} PassedSources(check: Check, signals: seq<Signal>, x: nat)
    requires x in Passed(check, signals)
    ensures exists i :: 0 <= i < |signals| && signals[i].source == x
  {
    var n := |signals| - 1;
    if signals[n].source != x {
      PassedSources(check, signals[..n], x);
      var i :| 0 <= i < n && signals[..n][i].source == x;
      assert signals[i].source == x;
    }
  }

  lemma CleanPasses(check: Check, known: seq<nat>, signals: seq<Signal>, i: nat)
    requires Clean(check, known, signals) && i < |signals|
    ensures Screened(check, signals[..i], signals[i]) == Success
  {
    if signals[i].source in Passed(check, signals[..i]) { PassedSources(check, signals[..i], signals[i].source); }
  }

  /** A traversal behind the part of a valid and fresh signal. */
  ghost predicate Stands(c: Context, pick: Picker, s: Strand, o: Outcome) {
    && StrandOk(c, pick, s)
    && (if s.run == [] then !o.accepted && o.settlements == [] && o.forwarded == {}
        else o == OutcomeOf(Final(s.run)))
  }

  lemma StrandFor(c: Context, pick: Picker, signal: Signal, o: Outcome) returns (s: Strand)
    requires Possible(c.(signal := signal), pick, false, o)
    ensures s.signal == signal && Stands(c, pick, s, o)
  {
    var own := c.(signal := signal);
    if Start(own).Err? {
      s := Strand(signal, []);
    } else {
      var run :| Steered(own, pick, run) && Final(run).mode.Finished? && o == OutcomeOf(Final(run));
      SteeredIsRun(own, pick, run);
      s := Strand(signal, run);
    }
  }

  ghost predicate AllStand(c: Context, pick: Picker, strands: seq<Strand>, signals: seq<Signal>, parts: seq<Outcome>) {
    && |strands| == |parts| <= |signals|
    && forall i :: 0 <= i < |strands| ==> strands[i].signal == signals[i] && Stands(c, pick, strands[i], parts[i])
  }

  lemma {:induction false} StrandsFor(
    c: Context, pick: Picker, check: Check, known: seq<nat>, signals: seq<Signal>, parts: seq<Outcome>)
    returns (strands: seq<Strand>)
    requires PartsOk(c, pick, check, known, signals, parts) && Clean(check, known, signals)
    ensures AllStand(c, pick, strands, signals, parts)
  {
    strands := [];
    if parts != [] {
      var n := |parts| - 1;
      forall i | 0 <= i < n ensures PartOk(c, pick, check, known, signals, i, parts[..n][i]) {
        assert PartOk(c, pick, check, known, signals, i, parts[i]);
      }
      var front := StrandsFor(c, pick, check, known, signals, parts[..n]);
      CleanPasses(check, known, signals, n);
      assert PartOk(c, pick, check, known, signals, n, parts[n]);
      var last := StrandFor(c, pick, signals[n], parts[n]);
      strands := front + [last];
      assert forall i :: 0 <= i < n ==> parts[..n][i] == parts[i];
    }
  }

  lemma FrontStands(c: Context, pick: Picker, strands: seq<Strand>, signals: seq<Signal>, parts: seq<Outcome>)
    requires AllStand(c, pick, strands, signals, parts) && strands != []
    ensures var n := |strands| - 1; AllStand(c, pick, strands[..n], signals, parts[..n])
  {
    var n := |strands| - 1;
    forall i | 0 <= i < n
      ensures strands[..n][i].signal == signals[i] && Stands(c, pick, strands[..n][i], parts[..n][i])
    {
      assert strands[..n][i] == strands[i] && parts[..n][i] == parts[i];
    }
  }

  lemma {:induction false} StandingSignals(
    c: Context, pick: Picker, strands: seq<Strand>, signals: seq<Signal>, parts: seq<Outcome>)
    requires AllStand(c, pick, strands, signals, parts)
    ensures Signals(strands) == signals[..|strands|]
  {
    if strands != [] {
      var n := |strands| - 1;
      FrontStands(c, pick, strands, signals, parts);
      StandingSignals(c, pick, strands[..n], signals, parts[..n]);
      assert strands[n].signal == signals[n] && signals[..n + 1] == signals[..n] + [signals[n]];
    }
  }

  lemma ArrivalStands(c: Context, pick: Picker, s: Strand, o: Outcome, node: nat)
    requires Stands(c, pick, s, o)
    ensures Arrival(o.settlements, node) == ArrivalIn(s, node) && (node in o.forwarded <==> node in ForwardedIn(s))
  {
    if s.run != [] { ArrivalOfStrips(Final(s.run).order, node); }
  }

  /** A resource keeps the contributions of the traversals behind the parts. */
  lemma {:induction false} KeptStands(
    c: Context, pick: Picker, strands: seq<Strand>, signals: seq<Signal>, parts: seq<Outcome>, node: nat)
    requires AllStand(c, pick, strands, signals, parts)
    ensures Kept(signals, parts, node) == Contributions(strands, node)
    ensures Reaching(parts, node) == |Arrivals(strands, node)|
  {
    if strands != [] {
      var n := |strands| - 1;
      FrontStands(c, pick, strands, signals, parts);
      KeptStands(c, pick, strands[..n], signals, parts[..n], node);
      ArrivalStands(c, pick, strands[n], parts[n], node);
    }
  }

  /** How many signals of a request reach a resource. */
  function Reaching(parts: seq<Outcome>, node: nat): nat {
    if parts == [] then 0
    else
      var n := |parts| - 1;
      Reaching(parts[..n], node) + if Arrival(parts[n].settlements, node).Some? then 1 else 0
  }

  predicate ForwardsIn(parts: seq<Outcome>, node: nat) { exists i :: 0 <= i < |parts| && node in parts[i].forwarded }

  lemma ForwardStands(
    c: Context, pick: Picker, strands: seq<Strand>, signals: seq<Signal>, parts: seq<Outcome>, node: nat)
    requires AllStand(c, pick, strands, signals, parts)
    ensures ForwardsIn(parts, node) <==> Forwards(strands, node)
  {
    forall i | 0 <= i < |parts| ensures node in parts[i].forwarded <==> node in ForwardedIn(strands[i]) {
      ArrivalStands(c, pick, strands[i], parts[i], node);
    }
  }

  /** Permuting a request of valid, fresh signals from distinct sources changes neither whether a resource receives
      pressure nor whether it forwards; and where at most sixteen signals reach it, not how much is applied. */
  lemma ReportOrderIndependent(c: Context, pick: Picker, check: Check, known: seq<nat>,
                               xs: seq<Signal>, ys: seq<Signal>, a: Report, b: Report, node: nat)
    requires Reports(c, pick, check, known, xs, a) && Reports(c, pick, check, known, ys, b)
    requires Clean(check, known, xs) && Clean(check, known, ys) && multiset(xs) == multiset(ys)
    requires SizeFault(c, xs).None? && SizeFault(c, ys).None? && node < |c.topo.resources|
    ensures Kept(xs, a.parts, node) == [] <==> Kept(ys, b.parts, node) == []
    ensures ForwardsIn(a.parts, node) <==> ForwardsIn(b.parts, node)
    ensures Reaching(a.parts, node) <= MAX_CONTRIBUTIONS ==> a.amounts[node] == b.amounts[node]
  {
    var r := Standing(c, pick, check, known, xs, a, node);
    var t := Standing(c, pick, check, known, ys, b, node);
    BatchOrderIndependent(c, pick, r, t, node, a.amounts[node], b.amounts[node]);
    ForwardingOrderIndependent(c, pick, r, t, node);
  }

  lemma Standing(c: Context, pick: Picker, check: Check, known: seq<nat>, xs: seq<Signal>, a: Report, node: nat)
    returns (r: seq<Strand>)
    requires Reports(c, pick, check, known, xs, a) && Clean(check, known, xs)
    requires SizeFault(c, xs).None? && node < |c.topo.resources|
    ensures Batch(c, pick, r) && Signals(r) == xs && Kept(xs, a.parts, node) == Contributions(r, node)
    ensures Reaching(a.parts, node) == |Arrivals(r, node)| && Aggregates.Applies(c, r, node, a.amounts[node])
    ensures ForwardsIn(a.parts, node) <==> Forwards(r, node)
  {
    r := StrandsFor(c, pick, check, known, xs, a.parts);
    StandingSignals(c, pick, r, xs, a.parts);
    KeptStands(c, pick, r, xs, a.parts, node);
    ForwardStands(c, pick, r, xs, a.parts, node);
    assert xs[..|xs|] == xs;
    forall i | 0 <= i < |r| ensures StrandOk(c, pick, r[i]) { assert Stands(c, pick, r[i], a.parts[i]); }
    assert Amounts(c, xs, a.parts, node, a.amounts[node]);
  }
}
