/** Several signals in one request: how their contributions to a resource are combined, and that the order of the
    signals does not matter. */
module Aggregates {
  import opened Wrappers
  import opened FixedPoint
  import opened Model
  import opened Traversal
  import opened Steering
  import opened Ties
  import Amplification

  datatype Contribution = Contribution(source: nat, magnitude: Q16, weighted: Q16, priority: nat)

  const MAX_CONTRIBUTIONS: nat := 16

  // ----- what each rule computes

  function Sum(cs: seq<Contribution>): nat {
    if cs == [] then 0 else Sum(cs[..|cs| - 1]) + cs[|cs| - 1].magnitude
  }

  /** b outranks a: a lower priority number, or the same and a higher magnitude. */
  predicate Outranks(a: Contribution, b: Contribution) {
    b.priority < a.priority || (b.priority == a.priority && b.magnitude > a.magnitude)
  }

  /** The combined magnitude, told by what it is rather than how it is found. */
  ghost predicate Combines(rule: Aggregation, cs: seq<Contribution>, r: Q16) {
    if cs == [] then r == 0
    else
      match rule
      case Max => (exists c <- cs :: c.magnitude == r) && (forall c <- cs :: c.magnitude <= r)
      case WeightedMax => (exists c <- cs :: c.weighted == r) && (forall c <- cs :: c.weighted <= r)
      case PriorityFirst => exists w <- cs :: w.magnitude == r && forall c <- cs :: !Outranks(w, c)
      case SaturatingSum => r == Min(UNITY, Sum(cs))
  }

  method Strongest(cs: seq<Contribution>) returns (best: Q16)
    requires cs != []
    ensures Combines(Max, cs, best)
  {
    best := cs[0].magnitude;
    ghost var at := cs[0];
    for i := 0 to |cs|
      invariant at in cs && at.magnitude == best && forall j :: 0 <= j < i ==> cs[j].magnitude <= best
    {
      if cs[i].magnitude > best { best := cs[i].magnitude; at := cs[i]; }
    }
  }

  method StrongestWeighted(cs: seq<Contribution>) returns (best: Q16)
    requires cs != []
    ensures Combines(WeightedMax, cs, best)
  {
    best := cs[0].weighted;
    ghost var at := cs[0];
    for i := 0 to |cs|
      invariant at in cs && at.weighted == best && forall j :: 0 <= j < i ==> cs[j].weighted <= best
    {
      if cs[i].weighted > best { best := cs[i].weighted; at := cs[i]; }
    }
  }

  method FirstInPriority(cs: seq<Contribution>) returns (r: Q16)
    requires cs != []
    ensures Combines(PriorityFirst, cs, r)
  {
    var winner := cs[0];
    for i := 0 to |cs|
      invariant winner in cs && forall j :: 0 <= j < i ==> !Outranks(winner, cs[j])
    {
      var c := cs[i];
      if c.priority < winner.priority {
        winner := c;
      } else if c.priority == winner.priority {
        if c.magnitude > winner.magnitude {
          winner := c;
        } else if c.magnitude == winner.magnitude && c.source < winner.source {
          winner := c;
        }
      }
    }
    return winner.magnitude;
  }

  lemma {:induction false} SumGrows(cs: seq<Contribution>, i: nat)
    requires i <= |cs|
    ensures Sum(cs[..i]) <= Sum(cs)
    decreases |cs|
  {
    if i == |cs| {
      assert cs[..i] == cs;
    } else {
      var front := cs[..|cs| - 1];
      SumGrows(front, i);
      assert front[..i] == cs[..i];
    }
  }

  /** Saturates as soon as the sum passes full scale. */
  method SaturatedSum(cs: seq<Contribution>) returns (r: Q16)
    requires cs != []
    ensures Combines(SaturatingSum, cs, r)
  {
    var sum := 0;
    for i := 0 to |cs|
      invariant sum == Sum(cs[..i]) <= UNITY
    {
      sum := sum + cs[i].magnitude;
      assert cs[..i + 1][..i] == cs[..i];
      if sum > UNITY {
        SumGrows(cs, i + 1);
        return UNITY;
      }
    }
    assert cs[..|cs|] == cs;
    return sum;
  }

  method Combine(rule: Aggregation, cs: seq<Contribution>) returns (r: Q16)
    ensures Combines(rule, cs, r)
  {
    if cs == [] { return 0; }
    match rule
    case Max => r := Strongest(cs);
    case WeightedMax => r := StrongestWeighted(cs);
    case PriorityFirst => r := FirstInPriority(cs);
    case SaturatingSum => r := SaturatedSum(cs);
  }

  // ----- independence of order

  lemma SamePieces(a: seq<Contribution>, b: seq<Contribution>)
    requires multiset(a) == multiset(b)
    ensures |a| == |b| && forall c :: c in a <==> c in b
  {
    assert |multiset(a)| == |a| && |multiset(b)| == |b|;
    forall c ensures c in a <==> c in b {
      assert c in a <==> c in multiset(a);
      assert c in b <==> c in multiset(b);
    }
  }

  lemma RemoveAt<T>(s: seq<T>, i: nat)
    requires i < |s|
    ensures multiset(s[..i] + s[i + 1..]) == multiset(s) - multiset{s[i]}
  {
    assert s == s[..i] + [s[i]] + s[i + 1..];
  }

  lemma RemoveLast<T>(s: seq<T>)
    requires s != []
    ensures multiset(s[..|s| - 1]) == multiset(s) - multiset{s[|s| - 1]}
  {
    assert s == s[..|s| - 1] + [s[|s| - 1]];
  }

  /** Somewhere in a permutation of s stands the last element of s. */
  lemma FindLast<T>(s: seq<T>, t: seq<T>) returns (i: nat)
    requires s != [] && multiset(s) == multiset(t)
    ensures i < |t| && t[i] == s[|s| - 1]
    ensures multiset(s[..|s| - 1]) == multiset(t[..i] + t[i + 1..])
  {
    assert s[|s| - 1] in multiset(t);
    i :| 0 <= i < |t| && t[i] == s[|s| - 1];
    RemoveLast(s);
    RemoveAt(t, i);
  }

  lemma DropBeforeLast<T>(s: seq<T>, i: nat)
    requires i < |s| - 1
    ensures var rest, n := s[..i] + s[i + 1..], |s| - 1;
            |rest| == n && rest[..n - 1] == s[..n][..i] + s[..n][i + 1..] && rest[n - 1] == s[n]
  {
  }

  lemma {:induction false} SumWithout(cs: seq<Contribution>, i: nat)
    requires i < |cs|
    ensures Sum(cs) == Sum(cs[..i] + cs[i + 1..]) + cs[i].magnitude
    decreases |cs|
  {
    var n := |cs| - 1;
    if i == n {
      assert cs[..i] + cs[i + 1..] == cs[..n];
    } else {
      var front := cs[..n];
      SumWithout(front, i);
      DropBeforeLast(cs, i);
    }
  }

  lemma {:induction false} SumPermuted(a: seq<Contribution>, b: seq<Contribution>)
    requires multiset(a) == multiset(b)
    ensures Sum(a) == Sum(b)
    decreases |a|
  {
    if a == [] {
      SamePieces(a, b);
    } else {
      var i := FindLast(a, b);
      SumPermuted(a[..|a| - 1], b[..i] + b[i + 1..]);
      SumWithout(b, i);
    }
  }

  /** The combined magnitude is determined by which contributions there are, not by their order. */
  lemma CombinesPermuted(rule: Aggregation, a: seq<Contribution>, b: seq<Contribution>, r: Q16, s: Q16)
    requires multiset(a) == multiset(b) && Combines(rule, a, r) && Combines(rule, b, s)
    ensures r == s
  {
    SamePieces(a, b);
    if a != [] {
      match rule
      case Max =>
      case WeightedMax =>
      case SaturatingSum => SumPermuted(a, b);
      case PriorityFirst =>
        var v :| v in a && v.magnitude == r && forall c <- a :: !Outranks(v, c);
        var w :| w in b && w.magnitude == s && forall c <- b :: !Outranks(w, c);
        assert !Outranks(v, w) && !Outranks(w, v);
    }
  }

  // ----- contributions of a batch

  /** How a run reached a resource: potential at settlement, if it settled. */
  function Arrival(order: seq<Entry>, node: nat): Option<Potential> {
    if order == [] then None
    else if order[|order| - 1].node == node then Some(order[|order| - 1].potential)
    else Arrival(order[..|order| - 1], node)
  }

  lemma {:induction false} ArrivalOfStrips(order: seq<Entry>, node: nat)
    ensures Arrival(Strips(order), node) == Arrival(order, node)
  {
    if order != [] {
      var n := |order| - 1;
      ArrivalOfStrips(order[..n], node);
      assert Strips(order)[..n] == Strips(order[..n]);
    }
  }

  /** Magnitude scaled by the weight of the source, at most full scale. */
  function Weighted(signal: Signal, m: Q16): Q16 { Min(UNITY, m * signal.weight / UNITY) }

  function ContributionOf(signal: Signal, p: Potential): Contribution {
    Contribution(signal.source, ToMagnitude(p), Weighted(signal, ToMagnitude(p)), signal.priority)
  }

  /** One signal of a request and its traversal. */
  datatype Strand = Strand(signal: Signal, run: seq<State>)

  /** Every strand is a finished traversal of its own signal in the common context, or none when the signal is refused
      at its start. */
  ghost predicate Batch(c: Context, pick: Picker, strands: seq<Strand>) {
    forall i :: 0 <= i < |strands| ==> StrandOk(c, pick, strands[i])
  }

  /** Ties are broken by the picker, or in any way at all when amplification is not granted. */
  ghost predicate StrandOk(c: Context, pick: Picker, s: Strand) {
    var own := c.(signal := s.signal);
    if s.run == [] then Start(own).Err?
    else IsCompleteRun(own, s.run) && (Steered(own, pick, s.run) || !own.Granted())
  }

  function ArrivalIn(s: Strand, node: nat): Option<Potential> {
    if s.run == [] then None else Arrival(Final(s.run).order, node)
  }

  function ForwardedIn(s: Strand): set<nat> { if s.run == [] then {} else Final(s.run).forwarded }

  /** All that arrives at a resource, in request order. */
  function Arrivals(strands: seq<Strand>, node: nat): seq<Contribution> {
    if strands == [] then []
    else
      var before, last := Arrivals(strands[..|strands| - 1], node), strands[|strands| - 1];
      var p := ArrivalIn(last, node);
      if p.Some? then before + [ContributionOf(last.signal, p.value)] else before
  }

  /** Contributions in request order; a resource keeps the first sixteen. */
  function Contributions(strands: seq<Strand>, node: nat): seq<Contribution> {
    if strands == [] then []
    else
      var before, last := Contributions(strands[..|strands| - 1], node), strands[|strands| - 1];
      var p := ArrivalIn(last, node);
      if p.Some? && |before| < MAX_CONTRIBUTIONS then before + [ContributionOf(last.signal, p.value)] else before
  }

  lemma {:induction false} KeptArrivals(strands: seq<Strand>, node: nat)
    ensures Contributions(strands, node) <= Arrivals(strands, node)
    ensures |Contributions(strands, node)| == Min(|Arrivals(strands, node)|, MAX_CONTRIBUTIONS)
  {
    if strands != [] { KeptArrivals(strands[..|strands| - 1], node); }
  }

  /** What a finished strand of this signal brings to the resource; the same whichever strand is looked at. */
  ghost function Brought(c: Context, pick: Picker, signal: Signal, node: nat): Option<Potential> {
    if exists run :: StrandOk(c, pick, Strand(signal, run)) then
      var run :| StrandOk(c, pick, Strand(signal, run));
      ArrivalIn(Strand(signal, run), node)
    else None
  }

  /** Two strands of one signal settle and forward alike. */
  lemma StrandsAgree(c: Context, pick: Picker, s: Strand, t: Strand)
    requires s.signal == t.signal && StrandOk(c, pick, s) && StrandOk(c, pick, t)
    ensures (s.run == [] <==> t.run == []) && ForwardedIn(s) == ForwardedIn(t)
    ensures s.run != [] ==> Strips(Final(s.run).order) == Strips(Final(t.run).order)
  {
    var own := c.(signal := s.signal);
    if s.run != [] {
      if own.Granted() {
        SteeredRunUnique(own, pick, s.run, t.run);
      } else {
        TieIndependent(own, s.run, t.run);
      }
    }
  }

  lemma ArrivalsAgree(c: Context, pick: Picker, s: Strand, t: Strand, node: nat)
    requires s.signal == t.signal && StrandOk(c, pick, s) && StrandOk(c, pick, t)
    ensures ArrivalIn(s, node) == ArrivalIn(t, node)
  {
    StrandsAgree(c, pick, s, t);
    if s.run != [] {
      ArrivalOfStrips(Final(s.run).order, node);
      ArrivalOfStrips(Final(t.run).order, node);
    }
  }

  lemma BroughtIsArrival(c: Context, pick: Picker, s: Strand, node: nat)
    requires StrandOk(c, pick, s)
    ensures Brought(c, pick, s.signal, node) == ArrivalIn(s, node)
  {
    assert StrandOk(c, pick, Strand(s.signal, s.run));
    var run :| StrandOk(c, pick, Strand(s.signal, run))
               && Brought(c, pick, s.signal, node) == ArrivalIn(Strand(s.signal, run), node);
    ArrivalsAgree(c, pick, s, Strand(s.signal, run), node);
  }

  ghost function Share(c: Context, pick: Picker, signal: Signal, node: nat): multiset<Contribution> {
    var p := Brought(c, pick, signal, node);
    if p.Some? then multiset{ContributionOf(signal, p.value)} else multiset{}
  }

  /** What the signals bring together, given what each brings. */
  ghost function Shares(share: Signal -> multiset<Contribution>, signals: seq<Signal>): multiset<Contribution> {
    if signals == [] then multiset{} else Shares(share, signals[..|signals| - 1]) + share(signals[|signals| - 1])
  }

  function Signals(strands: seq<Strand>): (r: seq<Signal>)
    ensures |r| == |strands|
  {
    if strands == [] then [] else Signals(strands[..|strands| - 1]) + [strands[|strands| - 1].signal]
  }

  lemma {:induction false} ArrivalsAreShares(c: Context, pick: Picker, strands: seq<Strand>, node: nat)
    requires Batch(c, pick, strands)
    ensures multiset(Arrivals(strands, node)) == Shares(s => Share(c, pick, s, node), Signals(strands))
  {
    if strands != [] {
      var n := |strands| - 1;
      var front := strands[..n];
      ArrivalsAreShares(c, pick, front, node);
      assert StrandOk(c, pick, strands[n]);
      BroughtIsArrival(c, pick, strands[n], node);
      assert Signals(strands)[..n] == Signals(front);
    }
  }

  lemma SwapShares(m: multiset<Contribution>, x: multiset<Contribution>, y: multiset<Contribution>)
    ensures m + x + y == m + y + x
  {
  }

  lemma {:induction false} SharesWithout(share: Signal -> multiset<Contribution>, signals: seq<Signal>, i: nat)
    requires i < |signals|
    ensures Shares(share, signals) == Shares(share, signals[..i] + signals[i + 1..]) + share(signals[i])
    decreases |signals|
  {
    var n := |signals| - 1;
    if i == n {
      assert signals[..i] + signals[i + 1..] == signals[..n];
    } else {
      var front := signals[..n];
      SharesWithout(share, front, i);
      DropBeforeLast(signals, i);
      SwapShares(Shares(share, front[..i] + front[i + 1..]), share(signals[i]), share(signals[n]));
    }
  }

  lemma {:induction false} SharesPermuted(share: Signal -> multiset<Contribution>, a: seq<Signal>, b: seq<Signal>)
    requires multiset(a) == multiset(b)
    ensures Shares(share, a) == Shares(share, b)
    decreases |a|
  {
    if a == [] {
      assert |multiset(a)| == |a| && |multiset(b)| == |b|;
    } else {
      var i := FindLast(a, b);
      SharesPermuted(share, a[..|a| - 1], b[..i] + b[i + 1..]);
      SharesWithout(share, b, i);
    }
  }

  /** What a request applies at a resource. */
  ghost predicate Applies(c: Context, strands: seq<Strand>, node: nat, applied: Q16) {
    exists r: Q16 :: Combines(c.policy.aggregation, Contributions(strands, node), r)
      && applied == Min(c.policy.ceiling, r)
  }

  predicate Receives(strands: seq<Strand>, node: nat) { Contributions(strands, node) != [] }

  datatype Severity = Unknown | Nominal | Elevated | High | Critical | Exhausted

  /** Thousandths of a percent, rounded to nearest. */
  function Milli(m: Q16): nat { (m * 100000 + UNITY / 2) / UNITY }

  function SeverityOf(policy: Policy, m: Q16): Severity {
    if Milli(m) >= policy.exhausted then Exhausted
    else if Milli(m) >= policy.critical then Critical
    else if Milli(m) >= policy.high then High
    else if Milli(m) >= policy.elevated then Elevated
    else Nominal
  }

  /** The percentage is the nearest thousandth, and the severity that of the highest threshold it reaches. */
  lemma SeverityExact(policy: Policy, m: Q16)
    ensures Milli(m) * 0x1_0000 <= m * 100000 + 0x8000 < (Milli(m) + 1) * 0x1_0000
    ensures policy.elevated <= policy.high <= policy.critical <= policy.exhausted ==>
              var s := SeverityOf(policy, m);
              && (s == Exhausted <==> Milli(m) >= policy.exhausted)
              && (s == Critical <==> policy.critical <= Milli(m) < policy.exhausted)
              && (s == High <==> policy.high <= Milli(m) < policy.critical)
              && (s == Elevated <==> policy.elevated <= Milli(m) < policy.high)
              && (s == Nominal <==> Milli(m) < policy.elevated)
  {
  }

  /** The severity reported for a resource. */
  function Reported(c: Context, strands: seq<Strand>, node: nat, applied: Q16): Severity {
    if Receives(strands, node) then SeverityOf(c.policy, applied) else Unknown
  }

  lemma ArrivalsPermuted(c: Context, pick: Picker, a: seq<Strand>, b: seq<Strand>, node: nat)
    requires Batch(c, pick, a) && Batch(c, pick, b) && multiset(Signals(a)) == multiset(Signals(b))
    ensures multiset(Arrivals(a, node)) == multiset(Arrivals(b, node)) && |Arrivals(a, node)| == |Arrivals(b, node)|
  {
    ArrivalsAreShares(c, pick, a, node);
    ArrivalsAreShares(c, pick, b, node);
    SharesPermuted(s => Share(c, pick, s, node), Signals(a), Signals(b));
    assert |multiset(Arrivals(a, node))| == |Arrivals(a, node)| && |multiset(Arrivals(b, node))| == |Arrivals(b, node)|;
  }

  /** A resource that nothing reached reports nothing, and any other the severity of what is applied. */
  lemma ReportedExact(c: Context, strands: seq<Strand>, node: nat, applied: Q16)
    ensures Receives(strands, node) <==> |Arrivals(strands, node)| > 0
    ensures Reported(c, strands, node, applied) ==
              if |Arrivals(strands, node)| > 0 then SeverityOf(c.policy, applied) else Unknown
  {
    KeptArrivals(strands, node);
  }

  /** Batch order independence: permuting the signals of a request, refused ones included, does not change whether a
      resource receives pressure; and where at most sixteen of them arrive it changes neither how much is applied nor
      the severity reported, under any rule, amplified or not. */
  lemma BatchOrderIndependent(c: Context, pick: Picker, a: seq<Strand>, b: seq<Strand>, node: nat, x: Q16, y: Q16)
    requires Batch(c, pick, a) && Batch(c, pick, b) && multiset(Signals(a)) == multiset(Signals(b))
    requires Applies(c, a, node, x) && Applies(c, b, node, y)
    ensures Receives(a, node) <==> Receives(b, node)
    ensures |Arrivals(a, node)| <= MAX_CONTRIBUTIONS ==> x == y && Reported(c, a, node, x) == Reported(c, b, node, y)
  {
    ArrivalsPermuted(c, pick, a, b, node);
    KeptArrivals(a, node);
    KeptArrivals(b, node);
    var ca, cb := Contributions(a, node), Contributions(b, node);
    if |Arrivals(a, node)| <= MAX_CONTRIBUTIONS {
      assert ca == Arrivals(a, node) && cb == Arrivals(b, node);
      SamePieces(ca, cb);
      var r: Q16 :| Combines(c.policy.aggregation, ca, r) && x == Min(c.policy.ceiling, r);
      var s: Q16 :| Combines(c.policy.aggregation, cb, s) && y == Min(c.policy.ceiling, s);
      CombinesPermuted(c.policy.aggregation, ca, cb, r, s);
    }
  }

  /** Some traversal of the request carried pressure on from the resource. */
  ghost predicate Forwards(strands: seq<Strand>, node: nat) {
    exists i :: 0 <= i < |strands| && node in ForwardedIn(strands[i])
  }

  lemma {:induction false} SignalsAt(strands: seq<Strand>, i: nat)
    requires i < |strands|
    ensures Signals(strands)[i] == strands[i].signal
  {
    if i < |strands| - 1 { SignalsAt(strands[..|strands| - 1], i); }
  }

  lemma ForwardsCarriesOver(c: Context, pick: Picker, a: seq<Strand>, b: seq<Strand>, node: nat)
    requires Batch(c, pick, a) && Batch(c, pick, b) && multiset(Signals(a)) == multiset(Signals(b)) && Forwards(a, node)
    ensures Forwards(b, node)
  {
    var i :| 0 <= i < |a| && node in ForwardedIn(a[i]);
    SignalsAt(a, i);
    assert a[i].signal in multiset(Signals(b));
    var j :| 0 <= j < |Signals(b)| && Signals(b)[j] == a[i].signal;
    SignalsAt(b, j);
    assert StrandOk(c, pick, a[i]) && StrandOk(c, pick, b[j]);
    StrandsAgree(c, pick, a[i], b[j]);
  }

  lemma ForwardingOrderIndependent(c: Context, pick: Picker, a: seq<Strand>, b: seq<Strand>, node: nat)
    requires Batch(c, pick, a) && Batch(c, pick, b) && multiset(Signals(a)) == multiset(Signals(b))
    ensures Forwards(a, node) <==> Forwards(b, node)
  {
    if Forwards(a, node) { ForwardsCarriesOver(c, pick, a, b, node); }
    if Forwards(b, node) { ForwardsCarriesOver(c, pick, b, a, node); }
  }

  // ----- no more than the strongest source

  lemma {:induction false} ArrivalSettled(order: seq<Entry>, node: nat) returns (k: nat)
    requires Arrival(order, node).Some?
    ensures k < |order| && order[k].node == node && order[k].potential == Arrival(order, node).value
  {
    if order[|order| - 1].node == node { k := |order| - 1; } else { k := ArrivalSettled(order[..|order| - 1], node); }
  }

  /** The signal may not amplify, and is no stronger than the bound. */
  predicate Modest(c: Context, signal: Signal, bound: Q16) {
    !c.(signal := signal).Granted() && signal.magnitude <= bound
  }

  /** Every contribution is at most the magnitude of its own signal. */
  lemma {:induction false} ContributionsAreModest(c: Context, pick: Picker, strands: seq<Strand>, node: nat, bound: Q16)
    requires Batch(c, pick, strands) && forall i :: 0 <= i < |strands| ==> Modest(c, strands[i].signal, bound)
    ensures forall x <- Contributions(strands, node) :: x.magnitude <= bound
  {
    if strands != [] {
      var n := |strands| - 1;
      var last := strands[n];
      ContributionsAreModest(c, pick, strands[..n], node, bound);
      assert StrandOk(c, pick, last) && Modest(c, last.signal, bound);
      if ArrivalIn(last, node).Some? {
        var k := ArrivalSettled(Final(last.run).order, node);
        Amplification.UnamplifiedNeverRises(c.(signal := last.signal), last.run, k);
      }
    }
  }

  /** Under the strongest-wins rule nothing exceeds the strongest source, despite rounding to nearest. */
  lemma MaxNeverExceedsSources(c: Context, pick: Picker, strands: seq<Strand>, node: nat, applied: Q16, bound: Q16)
    requires Batch(c, pick, strands) && c.policy.aggregation == Max && Applies(c, strands, node, applied)
    requires forall i :: 0 <= i < |strands| ==> Modest(c, strands[i].signal, bound)
    ensures applied <= bound
  {
    ContributionsAreModest(c, pick, strands, node, bound);
  }
}
