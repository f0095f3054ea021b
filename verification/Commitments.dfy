/** What a request reports and commits, told by comparisons over its parts: which refusal decides its status, which
    source a resource's application is recorded under, and what is in the ledger's tables afterwards. */
module Commitments {
  import opened Wrappers
  import opened FixedPoint
  import opened Model
  import opened Traversal
  import opened Ledgers
  import opened Aggregates
  import opened Propagation

  // ----- arrivals

  /** Part i brought potential p to the resource: its last settlement there. */
  predicate BroughtBy(parts: seq<Outcome>, i: nat, node: nat, p: Potential)
    requires i < |parts|
  {
    exists k :: 0 <= k < |parts[i].settlements| && parts[i].settlements[k].node == node
      && parts[i].settlements[k].potential == p
      && forall m :: k < m < |parts[i].settlements| ==> parts[i].settlements[m].node != node
  }

  lemma {:induction false} ArrivalMeans(order: seq<Entry>, node: nat)
    ensures Arrival(order, node).None? ==> forall k :: 0 <= k < |order| ==> order[k].node != node
    ensures Arrival(order, node).Some? ==>
              exists k :: 0 <= k < |order| && order[k].node == node && order[k].potential == Arrival(order, node).value
                && forall m :: k < m < |order| ==> order[m].node != node
  {
    if order != [] {
      var n := |order| - 1;
      if order[n].node != node {
        ArrivalMeans(order[..n], node);
        assert forall k :: 0 <= k < n ==> order[..n][k] == order[k];
        if Arrival(order, node).Some? {
          var k :| 0 <= k < n && order[..n][k].node == node && order[..n][k].potential == Arrival(order, node).value
            && forall m :: k < m < n ==> order[..n][m].node != node;
          assert order[k].node == node;
        }
      }
    }
  }

  lemma BroughtMeans(parts: seq<Outcome>, i: nat, node: nat, p: Potential)
    requires i < |parts|
    ensures BroughtBy(parts, i, node, p) <==> Arrival(parts[i].settlements, node) == Some(p)
  {
    var order := parts[i].settlements;
    ArrivalMeans(order, node);
    if Arrival(order, node).Some? {
      var k :| 0 <= k < |order| && order[k].node == node && order[k].potential == Arrival(order, node).value
        && forall m :: k < m < |order| ==> order[m].node != node;
    }
  }

  // ----- the source of an application

  /** Part i brought p, no part brought more, and every earlier one brought less. */
  ghost predicate Wins(parts: seq<Outcome>, node: nat, i: nat, p: Potential) {
    && i < |parts| && BroughtBy(parts, i, node, p)
    && forall j: nat, q: Potential :: j < |parts| && BroughtBy(parts, j, node, q) ==> q <= p && (j < i ==> q < p)
  }

  lemma FrontBrings(parts: seq<Outcome>, n: nat)
    requires n <= |parts|
    ensures forall j: nat, node: nat, q: Potential :: j < n ==>
              (BroughtBy(parts[..n], j, node, q) <==> BroughtBy(parts, j, node, q))
  {
    forall j: nat, node: nat, q: Potential | j < n
      ensures BroughtBy(parts[..n], j, node, q) <==> BroughtBy(parts, j, node, q)
    {
      BroughtMeans(parts, j, node, q);
      BroughtMeans(parts[..n], j, node, q);
      assert parts[..n][j] == parts[j];
    }
  }

  /** The source recorded for a resource is that of the earliest strongest part. */
  lemma {:induction false} BestMeans(signals: seq<Signal>, parts: seq<Outcome>, node: nat)
    requires |parts| <= |signals|
    ensures Best(signals, parts, node).None? ==>
              forall j: nat, q: Potential :: j < |parts| ==> !BroughtBy(parts, j, node, q)
    ensures Best(signals, parts, node).Some? ==>
              exists i: nat :: Wins(parts, node, i, Best(signals, parts, node).value.0)
                          && signals[i].source == Best(signals, parts, node).value.1
  {
    if parts != [] {
      var n := |parts| - 1;
      BestMeans(signals, parts[..n], node);
      FrontBrings(parts, n);
      var before, p := Best(signals, parts[..n], node), Arrival(parts[n].settlements, node);
      forall q: Potential ensures BroughtBy(parts, n, node, q) <==> p == Some(q) { BroughtMeans(parts, n, node, q); }
      if p.Some? && (before.None? || p.value > before.value.0) {
        assert Wins(parts, node, n, p.value);
      } else if before.Some? {
        var i: nat :| Wins(parts[..n], node, i, before.value.0) && signals[i].source == before.value.1;
        assert Wins(parts, node, i, before.value.0);
      }
    }
  }

  /** The application stands for a resource that some part reached and whose amount is positive, and names the source of
      the winning part. */
  ghost predicate StandsFor(
    ids: seq<Resource>, signals: seq<Signal>, parts: seq<Outcome>, amounts: seq<Q16>, a: Application, node: nat)
  {
    && node < |amounts| <= |ids| && |parts| <= |signals|
    && a.resource == ids[node].id && a.magnitude == amounts[node] && amounts[node] > 0
    && exists i: nat, p: Potential :: Wins(parts, node, i, p) && signals[i].source == a.source
  }

  ghost predicate Reached(parts: seq<Outcome>, node: nat) {
    exists i: nat, p: Potential :: i < |parts| && BroughtBy(parts, i, node, p)
  }

  lemma ReachedMeans(signals: seq<Signal>, parts: seq<Outcome>, node: nat)
    requires |parts| <= |signals|
    ensures Best(signals, parts, node).Some? <==> Reached(parts, node)
  {
    BestMeans(signals, parts, node);
    if Best(signals, parts, node).Some? {
      var p := Best(signals, parts, node).value.0;
      var i: nat :| Wins(parts, node, i, p) && signals[i].source == Best(signals, parts, node).value.1;
      assert BroughtBy(parts, i, node, p);
    }
  }

  predicate Increasing(xs: seq<nat>) { forall i, j :: 0 <= i < j < |xs| ==> xs[i] < xs[j] }

  lemma IncreasingSnoc(xs: seq<nat>, n: nat)
    requires Increasing(xs) && forall x :: x in xs ==> x < n
    ensures Increasing(xs + [n]) && forall x :: x in xs + [n] <==> x in xs || x == n
  {
    assert forall i :: 0 <= i < |xs| ==> xs[i] in xs;
  }

  /** The resources that have an application: those that some part reached and whose amount is positive. */
  function Marks(signals: seq<Signal>, parts: seq<Outcome>, amounts: seq<Q16>): seq<nat>
    requires |parts| <= |signals|
  {
    if amounts == [] then []
    else
      var n := |amounts| - 1;
      Marks(signals, parts, amounts[..n]) + if Best(signals, parts, n).Some? && amounts[n] > 0 then [n] else []
  }

  lemma {:induction false} MarksExact(signals: seq<Signal>, parts: seq<Outcome>, amounts: seq<Q16>)
    requires |parts| <= |signals|
    ensures var at := Marks(signals, parts, amounts);
            && Increasing(at)
            && (forall node: nat :: node in at <==> node < |amounts| && amounts[node] > 0 && Reached(parts, node))
  {
    if amounts != [] {
      var n := |amounts| - 1;
      MarksExact(signals, parts, amounts[..n]);
      ReachedMeans(signals, parts, n);
      IncreasingSnoc(Marks(signals, parts, amounts[..n]), n);
      assert Marks(signals, parts, amounts[..n]) + [] == Marks(signals, parts, amounts[..n]);
    }
  }

  lemma StandsForMore(ids: seq<Resource>, signals: seq<Signal>, parts: seq<Outcome>, amounts: seq<Q16>, n: nat,
                      a: Application, node: nat)
    requires n <= |amounts| <= |ids| && StandsFor(ids, signals, parts, amounts[..n], a, node)
    ensures StandsFor(ids, signals, parts, amounts, a, node)
  {
  }

  lemma {:induction false} ApplicationsStand(
    ids: seq<Resource>, signals: seq<Signal>, parts: seq<Outcome>, amounts: seq<Q16>)
    requires |parts| <= |signals| && |amounts| <= |ids|
    ensures var apps, at := Applications(ids, signals, parts, amounts), Marks(signals, parts, amounts);
            && |at| == |apps|
            && forall i :: 0 <= i < |at| ==> StandsFor(ids, signals, parts, amounts, apps[i], at[i])
  {
    if amounts != [] {
      var n := |amounts| - 1;
      ApplicationsStand(ids, signals, parts, amounts[..n]);
      BestMeans(signals, parts, n);
      var apps, at := Applications(ids, signals, parts, amounts), Marks(signals, parts, amounts);
      forall i | 0 <= i < |at| ensures StandsFor(ids, signals, parts, amounts, apps[i], at[i]) {
        if at[i] != n || i < |Marks(signals, parts, amounts[..n])| {
          StandsForMore(ids, signals, parts, amounts, n, apps[i], at[i]);
        }
      }
    }
  }

  /** The applications are one for each such resource, in the order of the resources, and no other. */
  lemma ApplicationsExact(ids: seq<Resource>, signals: seq<Signal>, parts: seq<Outcome>, amounts: seq<Q16>)
    returns (at: seq<nat>)
    requires |parts| <= |signals| && |amounts| <= |ids|
    ensures var apps := Applications(ids, signals, parts, amounts);
            && |at| == |apps| && Increasing(at)
            && (forall i :: 0 <= i < |at| ==> StandsFor(ids, signals, parts, amounts, apps[i], at[i]))
            && (forall node: nat :: node in at <==> node < |amounts| && amounts[node] > 0 && Reached(parts, node))
  {
    at := Marks(signals, parts, amounts);
    MarksExact(signals, parts, amounts);
    ApplicationsStand(ids, signals, parts, amounts);
  }

  // ----- the application table

  predicate KeysDiffer(apps: seq<Application>) {
    forall i, j :: 0 <= i < j < |apps| ==> apps[i].resource != apps[j].resource
  }

  predicate New(table: map<Key, Applied>, a: Application) { (a.source, a.resource) !in table }

  function Newcomers(table: map<Key, Applied>, apps: seq<Application>): nat {
    if apps == [] then 0 else (if New(table, apps[0]) then 1 else 0) + Newcomers(table, apps[1..])
  }

  lemma {:induction false} NewcomersIgnore(table: map<Key, Applied>, apps: seq<Application>, k: Key, v: Applied)
    requires forall i :: 0 <= i < |apps| ==> apps[i].resource != k.1
    ensures Newcomers(table[k := v], apps) == Newcomers(table, apps)
  {
    if apps != [] { NewcomersIgnore(table, apps[1..], k, v); }
  }

  /** Applications to different resources all find room exactly when the new ones among them do; then the table holds
      exactly the old records, and the applied magnitudes at this tick. */
  lemma {:induction false} RoomExact(table: map<Key, Applied>, apps: seq<Application>, capacity: nat, now: nat)
    requires KeysDiffer(apps)
    ensures Room(table, apps, capacity, now) <==>
              Newcomers(table, apps) == 0 || |table| + Newcomers(table, apps) <= capacity
    ensures Room(table, apps, capacity, now) ==>
              var after := AllApplied(table, apps, capacity, now);
              && (forall i :: 0 <= i < |apps| ==>
                    (apps[i].source, apps[i].resource) in after
                    && after[(apps[i].source, apps[i].resource)] == Applied(apps[i].magnitude, now))
              && (forall k :: (forall i :: 0 <= i < |apps| ==> k != (apps[i].source, apps[i].resource)) ==>
                    (k in after <==> k in table) && (k in table ==> after[k] == table[k]))
    decreases |apps|
  {
    if apps != [] {
      var a, rest := apps[0], apps[1..];
      var k := (a.source, a.resource);
      var next := table[k := Applied(a.magnitude, now)];
      assert next.Keys == table.Keys + {k} && |next.Keys| == |next| && |table.Keys| == |table|;
      forall i | 0 <= i < |rest| ensures rest[i].resource != k.1 && rest[i] == apps[i + 1] {}
      NewcomersIgnore(table, rest, k, Applied(a.magnitude, now));
      assert KeysDiffer(rest);
      RoomExact(next, rest, capacity, now);
      if Room(table, apps, capacity, now) { RoomTables(table, apps, capacity, now); }
    }
  }

  lemma RoomTables(table: map<Key, Applied>, apps: seq<Application>, capacity: nat, now: nat)
    requires KeysDiffer(apps) && apps != [] && Room(table, apps, capacity, now)
    requires var a, rest := apps[0], apps[1..];
             var next := table[(a.source, a.resource) := Applied(a.magnitude, now)];
             var after := AllApplied(next, rest, capacity, now);
             && (forall i :: 0 <= i < |rest| ==>
                   (rest[i].source, rest[i].resource) in after
                   && after[(rest[i].source, rest[i].resource)] == Applied(rest[i].magnitude, now))
             && (forall k :: (forall i :: 0 <= i < |rest| ==> k != (rest[i].source, rest[i].resource)) ==>
                   (k in after <==> k in next) && (k in next ==> after[k] == next[k]))
    ensures var after := AllApplied(table, apps, capacity, now);
            && (forall i :: 0 <= i < |apps| ==>
                  (apps[i].source, apps[i].resource) in after
                  && after[(apps[i].source, apps[i].resource)] == Applied(apps[i].magnitude, now))
            && (forall k :: (forall i :: 0 <= i < |apps| ==> k != (apps[i].source, apps[i].resource)) ==>
                  (k in after <==> k in table) && (k in table ==> after[k] == table[k]))
  {
    var a, rest := apps[0], apps[1..];
    var next := table[(a.source, a.resource) := Applied(a.magnitude, now)];
    var after := AllApplied(next, rest, capacity, now);
    assert AllApplied(table, apps, capacity, now) == after;
    assert forall i :: 0 < i < |apps| ==> apps[i] == rest[i - 1];
    forall k | forall i :: 0 <= i < |apps| ==> k != (apps[i].source, apps[i].resource)
      ensures (k in after <==> k in table) && (k in table ==> after[k] == table[k])
    {
      assert forall i :: 0 <= i < |rest| ==> rest[i] == apps[i + 1];
      assert k != (apps[0].source, apps[0].resource);
    }
  }

  /** The report has this magnitude applied under this key: source of the winning part, and resource. */
  ghost predicate Recorded(c: Context, signals: seq<Signal>, o: Report, k: Key, m: Q16)
    requires |o.parts| == |signals| && |o.amounts| == |c.topo.resources|
  {
    exists node: nat :: StandsFor(c.topo.resources, signals, o.parts, o.amounts, Application(k.0, k.1, m), node)
  }

  lemma DistinctKeys(c: Context, signals: seq<Signal>, o: Report, at: seq<nat>)
    requires c.topo.Indexed() && |o.parts| == |signals| && |o.amounts| == |c.topo.resources|
    requires var apps := Applications(c.topo.resources, signals, o.parts, o.amounts);
             && |at| == |apps| && Increasing(at)
             && forall i :: 0 <= i < |at| ==> StandsFor(c.topo.resources, signals, o.parts, o.amounts, apps[i], at[i])
    ensures KeysDiffer(Applications(c.topo.resources, signals, o.parts, o.amounts))
  {
    var apps := Applications(c.topo.resources, signals, o.parts, o.amounts);
    forall i, j | 0 <= i < j < |apps| ensures apps[i].resource != apps[j].resource {
      assert StandsFor(c.topo.resources, signals, o.parts, o.amounts, apps[i], at[i]);
      assert StandsFor(c.topo.resources, signals, o.parts, o.amounts, apps[j], at[j]);
    }
  }

  /** What winning parts there are has one source. */
  lemma OneWinner(parts: seq<Outcome>, node: nat, i: nat, p: Potential, j: nat, q: Potential)
    requires Wins(parts, node, i, p) && Wins(parts, node, j, q)
    ensures i == j
  {
  }

  lemma RecordedIsApplied(c: Context, signals: seq<Signal>, o: Report, at: seq<nat>, k: Key, m: Q16) returns (i: nat)
    requires |o.parts| == |signals| && |o.amounts| == |c.topo.resources| && Recorded(c, signals, o, k, m)
    requires var apps := Applications(c.topo.resources, signals, o.parts, o.amounts);
             && |at| == |apps|
             && (forall i :: 0 <= i < |at| ==> StandsFor(c.topo.resources, signals, o.parts, o.amounts, apps[i], at[i]))
             && forall node: nat :: node in at <==>
                  node < |o.amounts| && o.amounts[node] > 0 && Reached(o.parts, node)
    ensures var apps := Applications(c.topo.resources, signals, o.parts, o.amounts);
            i < |apps| && apps[i] == Application(k.0, k.1, m)
  {
    var apps := Applications(c.topo.resources, signals, o.parts, o.amounts);
    var node: nat :| StandsFor(c.topo.resources, signals, o.parts, o.amounts, Application(k.0, k.1, m), node);
    var x: nat, p: Potential :| Wins(o.parts, node, x, p) && signals[x].source == k.0;
    assert BroughtBy(o.parts, x, node, p);
    i :| 0 <= i < |at| && at[i] == node;
    assert StandsFor(c.topo.resources, signals, o.parts, o.amounts, apps[i], at[i]);
    var y: nat, q: Potential :| Wins(o.parts, node, y, q) && signals[y].source == apps[i].source;
    OneWinner(o.parts, node, x, p, y, q);
  }

  /** After a commit that found room, each resource that some part reached and whose amount is positive has that amount
      recorded under the source of the earliest strongest part, and every other record is as it was. */
  lemma CommittedExact(ledger: Ledger, before: Books, c: Context, check: Check, signals: seq<Signal>, o: Report)
    requires |before.order| <= ledger.lineageCapacity && ledger.lineageCapacity > 0 && c.topo.Indexed()
    requires |o.parts| == |signals| && |o.amounts| == |c.topo.resources|
    requires Room(before.applications, Applications(c.topo.resources, signals, o.parts, o.amounts),
                  ledger.applicationCapacity, c.now)
    ensures var table := Committed(ledger, before, c, check, signals, o).applications;
            && (forall k: Key, m: Q16 :: Recorded(c, signals, o, k, m) ==> k in table && table[k] == Applied(m, c.now))
            && (forall k: Key :: (forall m: Q16 :: !Recorded(c, signals, o, k, m)) ==>
                  (k in table <==> k in before.applications)
                  && (k in table ==> table[k] == before.applications[k]))
  {
    var ids := c.topo.resources;
    var apps := Applications(ids, signals, o.parts, o.amounts);
    var at := ApplicationsExact(ids, signals, o.parts, o.amounts);
    DistinctKeys(c, signals, o, at);
    RoomExact(before.applications, apps, ledger.applicationCapacity, c.now);
    var table := AllApplied(before.applications, apps, ledger.applicationCapacity, c.now);
    forall k: Key, m: Q16 | Recorded(c, signals, o, k, m) ensures k in table && table[k] == Applied(m, c.now) {
      var i := RecordedIsApplied(c, signals, o, at, k, m);
    }
    forall k: Key | forall m: Q16 :: !Recorded(c, signals, o, k, m)
      ensures (k in table <==> k in before.applications) && (k in table ==> table[k] == before.applications[k])
    {
      forall i | 0 <= i < |apps| ensures k != (apps[i].source, apps[i].resource) {
        assert StandsFor(ids, signals, o.parts, o.amounts, apps[i], at[i]);
        assert apps[i] == Application(apps[i].source, apps[i].resource, apps[i].magnitude);
        assert Recorded(c, signals, o, (apps[i].source, apps[i].resource), apps[i].magnitude);
      }
    }
  }

  // ----- hops, contributions and amounts

  /** The hops to be damped are those of the parts, one part behind the other. */
  lemma {:induction false} HopsConcatenate(a: seq<Outcome>, b: seq<Outcome>)
    ensures AllHops(a + b) == AllHops(a) + AllHops(b)
    ensures forall o: Outcome :: AllHops([o]) == o.hops
  {
    forall o: Outcome ensures AllHops([o]) == o.hops { assert [o][..0] == []; }
    if b == [] {
      assert a + b == a;
    } else {
      var n := |b| - 1;
      HopsConcatenate(a, b[..n]);
      assert (a + b)[..|a| + n] == a + b[..n];
    }
  }

  /** A contribution: the arrival rounded to the nearest magnitude, and its share under the weight, at most full
      scale. */
  lemma ContributionMeans(signal: Signal, p: Potential)
    ensures var x := ContributionOf(signal, p);
            && x.source == signal.source && x.priority == signal.priority
            && x.magnitude * 0x1_0000 <= p + 0x8000 < (x.magnitude + 1) * 0x1_0000
            && (if x.magnitude * signal.weight < 0x1_0001 * 0x1_0000
                then x.weighted * 0x1_0000 <= x.magnitude * signal.weight < (x.weighted + 1) * 0x1_0000
                else x.weighted == 0x1_0000)
  {
    ToMagnitudeNearest(p);
    var product := ToMagnitude(p) * signal.weight;
    assert product == product / 0x1_0000 * 0x1_0000 + product % 0x1_0000;
  }

  /** The parts that reach a resource, in their order. */
  function Reachers(parts: seq<Outcome>, node: nat): seq<nat> {
    if parts == [] then []
    else
      var n := |parts| - 1;
      Reachers(parts[..n], node) + if Arrival(parts[n].settlements, node).Some? then [n] else []
  }

  lemma {:induction false} ReachersExact(parts: seq<Outcome>, node: nat)
    ensures var at := Reachers(parts, node);
            && Increasing(at)
            && (forall m: nat :: m in at <==> m < |parts| && Arrival(parts[m].settlements, node).Some?)
  {
    if parts != [] {
      var n := |parts| - 1;
      ReachersExact(parts[..n], node);
      IncreasingSnoc(Reachers(parts[..n], node), n);
      assert Reachers(parts[..n], node) + [] == Reachers(parts[..n], node);
      assert forall m :: 0 <= m < n ==> parts[..n][m] == parts[m];
    }
  }

  /** A resource keeps the contributions of the first sixteen parts that reach it, in their order. */
  lemma {:induction false} KeptExact(signals: seq<Signal>, parts: seq<Outcome>, node: nat)
    requires |parts| <= |signals|
    ensures var kept, at := Kept(signals, parts, node), Reachers(parts, node);
            && |kept| == (if |at| < 16 then |at| else 16)
            && forall i :: 0 <= i < |kept| ==>
                 && at[i] < |parts| && Arrival(parts[at[i]].settlements, node).Some?
                 && kept[i] == ContributionOf(signals[at[i]], Arrival(parts[at[i]].settlements, node).value)
  {
    if parts != [] {
      var n := |parts| - 1;
      KeptExact(signals, parts[..n], node);
      assert forall m :: 0 <= m < n ==> parts[..n][m] == parts[m];
    }
  }

  // ----- the status

  /** Signal i was refused in the screening, or by its traversal. */
  predicate RefusedAt(check: Check, signals: seq<Signal>, parts: seq<Outcome>, i: nat, screened: bool)
    requires i < |parts| <= |signals|
  {
    parts[i].status.Failed? && screened == Screened(check, signals[..i], signals[i]).Failed?
  }

  lemma {:induction false} FirstRefusalMeans(check: Check, signals: seq<Signal>, parts: seq<Outcome>, screened: bool)
    requires |parts| <= |signals|
    ensures var r := FirstRefusal(check, signals, parts, screened);
            if r == Success then forall i :: 0 <= i < |parts| ==> !RefusedAt(check, signals, parts, i, screened)
            else exists i :: 0 <= i < |parts| && RefusedAt(check, signals, parts, i, screened) && r == parts[i].status
                   && forall j :: 0 <= j < i ==> !RefusedAt(check, signals, parts, j, screened)
  {
    if parts != [] {
      var n := |parts| - 1;
      FirstRefusalMeans(check, signals, parts[..n], screened);
      forall i | 0 <= i < n
        ensures RefusedAt(check, signals, parts[..n], i, screened) <==> RefusedAt(check, signals, parts, i, screened)
      {
        assert parts[..n][i] == parts[i];
      }
      var before := FirstRefusal(check, signals, parts[..n], screened);
      if before.Failed? {
        var i :| 0 <= i < n && RefusedAt(check, signals, parts[..n], i, screened) && before == parts[..n][i].status
          && forall j :: 0 <= j < i ==> !RefusedAt(check, signals, parts[..n], j, screened);
        assert RefusedAt(check, signals, parts, i, screened);
      } else if screened == Screened(check, signals[..n], signals[n]).Failed? && parts[n].status.Failed? {
        assert RefusedAt(check, signals, parts, n, screened);
      }
    }
  }

  /** A request succeeds exactly when some signal was accepted or none refused; otherwise its error is that of the first
      signal that the screening refused, or, if it refused none, of the first that a traversal refused. */
  lemma StatusExact(check: Check, signals: seq<Signal>, parts: seq<Outcome>)
    requires |parts| <= |signals|
    ensures var status := StatusOf(check, signals, parts);
            if (exists i :: 0 <= i < |parts| && parts[i].accepted)
               || (forall i :: 0 <= i < |parts| ==> parts[i].status == Success) then status == Success
            else exists i, screened :: 0 <= i < |parts| && RefusedAt(check, signals, parts, i, screened)
                   && status == parts[i].status
                   && (forall j :: 0 <= j < i ==> !RefusedAt(check, signals, parts, j, screened))
                   && (!screened ==> forall j :: 0 <= j < |parts| ==> !RefusedAt(check, signals, parts, j, true))
  {
    FirstRefusalMeans(check, signals, parts, true);
    FirstRefusalMeans(check, signals, parts, false);
    if exists i :: 0 <= i < |parts| && parts[i].status.Failed? {
      var i :| 0 <= i < |parts| && parts[i].status.Failed?;
      assert RefusedAt(check, signals, parts, i, Screened(check, signals[..i], signals[i]).Failed?);
    }
  }
}
