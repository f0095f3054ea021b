/** Building a topology: validation, canonical order, identity index, compressed adjacency and cycle detection. */
module TopologyBuild {
  import opened Wrappers
  import opened Model
  import opened Graph
  import opened Canonical
  import opened Rows
  import opened Reachability
  import opened Tarjan

  datatype Limits = Limits(maxResources: nat, maxEdges: nat, maxOut: nat, maxIn: nat)

  function ResourceFault(r: Resource): (e: Option<Error>)
    ensures e.None? <==> r.Valid()
  {
    if r.id == INVALID_ID then Some(InvalidArgument) else if r.generation == 0 then Some(StaleGeneration) else None
  }

  function EdgeFault(e: Edge): (f: Option<Error>)
    ensures f.None? <==> e.Valid()
  {
    if e.id == INVALID_ID || e.source == INVALID_ID || e.target == INVALID_ID then Some(InvalidArgument)
    else if e.generation == 0 then Some(StaleGeneration)
    else if e.maxHops > 64 then Some(OutOfRange)
    else if e.IsAmplifying() && e.barrierFlag then Some(Conflict)
    else None
  }

  // ----- what is accepted, told on the canonical sequences

  predicate ResourcesValid(resources: seq<Resource>) { forall i :: 0 <= i < |resources| ==> resources[i].Valid() }

  predicate EdgesValid(edges: seq<Edge>) { forall i :: 0 <= i < |edges| ==> edges[i].Valid() }

  /** The fault of the first resource that has one, in the order given. */
  function FirstFault(resources: seq<Resource>): (e: Option<Error>) {
    if resources == [] then None
    else
      var fault := ResourceFault(resources[0]);
      if fault.Some? then fault else FirstFault(resources[1..])
  }

  function FirstEdgeFault(edges: seq<Edge>): (e: Option<Error>) {
    if edges == [] then None
    else
      var fault := EdgeFault(edges[0]);
      if fault.Some? then fault else FirstEdgeFault(edges[1..])
  }

  lemma {:induction false} NoFaultIsValid(resources: seq<Resource>)
    ensures FirstFault(resources).None? <==> ResourcesValid(resources)
  {
    if resources != [] {
      NoFaultIsValid(resources[1..]);
      assert resources[0].Valid() && ResourcesValid(resources[1..]) ==> ResourcesValid(resources) by {
        assert forall i :: 0 < i < |resources| ==> resources[i] == resources[1..][i - 1];
      }
      assert ResourcesValid(resources) ==> ResourcesValid(resources[1..]);
    }
  }

  lemma {:induction false} NoEdgeFaultIsValid(edges: seq<Edge>)
    ensures FirstEdgeFault(edges).None? <==> EdgesValid(edges)
  {
    if edges != [] {
      NoEdgeFaultIsValid(edges[1..]);
      assert edges[0].Valid() && EdgesValid(edges[1..]) ==> EdgesValid(edges) by {
        assert forall i :: 0 < i < |edges| ==> edges[i] == edges[1..][i - 1];
      }
      assert EdgesValid(edges) ==> EdgesValid(edges[1..]);
    }
  }

  /** Position of an identity in the resource table, or its length. */
  function Position(resources: seq<Resource>, id: nat): (p: nat)
    ensures p <= |resources|
    ensures p < |resources| ==> resources[p].id == id
    ensures p == |resources| ==> forall i :: 0 <= i < |resources| ==> resources[i].id != id
  {
    if resources == [] then 0 else if resources[0].id == id then 0 else 1 + Position(resources[1..], id)
  }

  function Sources(resources: seq<Resource>, edges: seq<Edge>): (s: seq<nat>)
    ensures |s| == |edges| && forall e :: 0 <= e < |edges| ==> s[e] == Position(resources, edges[e].source)
  {
    seq(|edges|, e requires 0 <= e < |edges| => Position(resources, edges[e].source))
  }

  function Targets(resources: seq<Resource>, edges: seq<Edge>): (s: seq<nat>)
    ensures |s| == |edges| && forall e :: 0 <= e < |edges| ==> s[e] == Position(resources, edges[e].target)
  {
    seq(|edges|, e requires 0 <= e < |edges| => Position(resources, edges[e].target))
  }

  predicate Declared(n: nat, ends: seq<nat>) { forall e :: 0 <= e < |ends| ==> ends[e] < n }

  predicate DegreesWithin(n: nat, ends: seq<nat>, max: nat) {
    forall i :: 0 <= i < n ==> |Bucket(ends, i, |ends|)| <= max
  }

  /** Targets of the edges leaving resource i. */
  function Row(sources: seq<nat>, targets: seq<nat>, i: nat): (r: seq<nat>)
    requires |sources| == |targets|
  {
    BucketExact(sources, i, |sources|);
    var b := Bucket(sources, i, |sources|);
    seq(|b|, j requires 0 <= j < |b| => assert b[j] in b; targets[b[j]])
  }

  /** The dependency graph over positions. */
  function Links(n: nat, sources: seq<nat>, targets: seq<nat>): (g: Adjacency)
    requires |sources| == |targets|
    ensures |g| == n && forall i :: 0 <= i < n ==> g[i] == Row(sources, targets, i)
  {
    seq(n, i requires 0 <= i < n => Row(sources, targets, i))
  }

  /** w follows v in the graph exactly when some edge leads from v to w. */
  lemma RowMembers(sources: seq<nat>, targets: seq<nat>, v: nat, w: nat)
    requires |sources| == |targets|
    ensures w in Row(sources, targets, v) <==> exists e :: 0 <= e < |sources| && sources[e] == v && targets[e] == w
  {
    BucketExact(sources, v, |sources|);
    var b := Bucket(sources, v, |sources|);
    if w in Row(sources, targets, v) {
      var j :| 0 <= j < |b| && Row(sources, targets, v)[j] == w;
      assert b[j] in b;
    }
    if e :| 0 <= e < |sources| && sources[e] == v && targets[e] == w {
      assert e in b;
      var j :| 0 <= j < |b| && b[j] == e;
      assert Row(sources, targets, v)[j] == w;
    }
  }

  ghost predicate Acyclic(g: Adjacency) { forall v :: 0 <= v < |g| ==> !OnCycle(g, v) }

  /** Everything the builder demands. */
  ghost predicate Accepts(limits: Limits, resources: seq<Resource>, edges: seq<Edge>, allowCycles: bool) {
    var n, sources, targets := |resources|, Sources(resources, edges), Targets(resources, edges);
    && limits.maxOut > 0 && limits.maxIn > 0 && limits.maxResources > 0 && limits.maxEdges > 0
    && n <= limits.maxResources && |edges| <= limits.maxEdges
    && ResourcesValid(resources) && NeighboursDiffer(resources) && EdgesValid(edges) && NeighbourIdsDiffer(edges)
    && Declared(n, sources) && Declared(n, targets)
    && DegreesWithin(n, sources, limits.maxOut) && DegreesWithin(n, targets, limits.maxIn)
    && (allowCycles || Acyclic(Links(n, sources, targets)))
  }

  /** The error the builder reports, if any: the first demand that is not met. */
  ghost function Refusal(
    limits: Limits, rs: seq<Resource>, es: seq<Edge>, a: seq<Resource>, b: seq<Edge>, allowCycles: bool)
    : Option<Error>
  {
    var n, sources, targets := |a|, Sources(a, b), Targets(a, b);
    if limits.maxOut == 0 || limits.maxIn == 0 || limits.maxResources == 0 || limits.maxEdges == 0 then
      Some(InvalidArgument)
    else if |rs| > limits.maxResources || |es| > limits.maxEdges then Some(LimitExceeded)
    else if FirstFault(rs).Some? then FirstFault(rs)
    else if !NeighboursDiffer(a) then Some(Duplicate)
    else if FirstEdgeFault(es).Some? then FirstEdgeFault(es)
    else if !NeighbourIdsDiffer(b) then Some(Duplicate)
    else if !Declared(n, sources) || !Declared(n, targets) then Some(NotFound)
    else if !DegreesWithin(n, sources, limits.maxOut) || !DegreesWithin(n, targets, limits.maxIn) then
      Some(LimitExceeded)
    else if !allowCycles && !Acyclic(Links(n, sources, targets)) then Some(CycleDetected)
    else None
  }

  lemma RefusalIff(limits: Limits, rs: seq<Resource>, es: seq<Edge>, a: seq<Resource>, b: seq<Edge>, allowCycles: bool)
    requires SortOf(a, rs, ResourcePrecedes) && SortOf(b, es, EdgePrecedes)
    ensures Refusal(limits, rs, es, a, b, allowCycles).None? <==> Accepts(limits, a, b, allowCycles)
  {
    NoFaultIsValid(rs);
    NoEdgeFaultIsValid(es);
    if ResourcesValid(rs) { ValidityPermutes(rs, a); }
    if ResourcesValid(a) { ValidityPermutes(a, rs); }
    if EdgesValid(es) { EdgeValidityPermutes(es, b); }
    if EdgesValid(b) { EdgeValidityPermutes(b, es); }
    SameSizes(a, rs, b, es);
  }

  lemma ValidityPermutes(a: seq<Resource>, b: seq<Resource>)
    requires multiset(a) == multiset(b) && ResourcesValid(a)
    ensures ResourcesValid(b)
  {
    forall i | 0 <= i < |b| ensures b[i].Valid() {
      assert b[i] in multiset(a);
      var j :| 0 <= j < |a| && a[j] == b[i];
    }
  }

  lemma EdgeValidityPermutes(a: seq<Edge>, b: seq<Edge>)
    requires multiset(a) == multiset(b) && EdgesValid(a)
    ensures EdgesValid(b)
  {
    forall i | 0 <= i < |b| ensures b[i].Valid() {
      assert b[i] in multiset(a);
      var j :| 0 <= j < |a| && a[j] == b[i];
    }
  }

  /** Permuted inputs succeed or fail together, and on success give the same resources and edges. */
  lemma PermutedInputsAgree(limits: Limits, allowCycles: bool,
                            rs: seq<Resource>, rs': seq<Resource>, es: seq<Edge>, es': seq<Edge>,
                            a: seq<Resource>, a': seq<Resource>, b: seq<Edge>, b': seq<Edge>)
    requires multiset(rs) == multiset(rs') && multiset(es) == multiset(es')
    requires SortOf(a, rs, ResourcePrecedes) && SortOf(a', rs', ResourcePrecedes)
    requires SortOf(b, es, EdgePrecedes) && SortOf(b', es', EdgePrecedes)
    ensures Accepts(limits, a, b, allowCycles) <==> Accepts(limits, a', b', allowCycles)
    ensures Accepts(limits, a, b, allowCycles) ==> a == a' && b == b'
  {
    ResourcesCanonical(rs, rs', a, a');
    EdgesCanonical(es, es', b, b');
  }

  // ----- building

  method CheckedResources(input: seq<Resource>) returns (r: Result<seq<Resource>>, ghost s: seq<Resource>)
    ensures SortOf(s, input, ResourcePrecedes)
    ensures r == if FirstFault(input).Some? then Err(FirstFault(input).value)
                 else if !NeighboursDiffer(s) then Err(Duplicate) else Ok(s)
  {
    OrderingsHold();
    var sorted := Sort(input, ResourcePrecedes);
    s := sorted;
    assert input[0..] == input;
    for i := 0 to |input|
      invariant FirstFault(input[i..]) == FirstFault(input)
    {
      var fault := ResourceFault(input[i]);
      assert input[i..][1..] == input[i + 1..];
      if fault.Some? { return Err(fault.value), s; }
    }
    for i := 0 to |sorted|
      invariant forall j :: 0 < j < i ==> sorted[j - 1].id != sorted[j].id
    {
      if i > 0 && sorted[i - 1].id == sorted[i].id { return Err(Duplicate), s; }
    }
    return Ok(sorted), s;
  }

  method CheckedEdges(input: seq<Edge>) returns (r: Result<seq<Edge>>, ghost s: seq<Edge>)
    ensures SortOf(s, input, EdgePrecedes)
    ensures r == if FirstEdgeFault(input).Some? then Err(FirstEdgeFault(input).value)
                 else if !NeighbourIdsDiffer(s) then Err(Duplicate) else Ok(s)
  {
    OrderingsHold();
    var sorted := Sort(input, EdgePrecedes);
    s := sorted;
    assert input[0..] == input;
    for i := 0 to |input|
      invariant FirstEdgeFault(input[i..]) == FirstEdgeFault(input)
    {
      var fault := EdgeFault(input[i]);
      assert input[i..][1..] == input[i + 1..];
      if fault.Some? { return Err(fault.value), s; }
    }
    for i := 0 to |sorted|
      invariant forall j :: 0 < j < i ==> sorted[j - 1].id != sorted[j].id
    {
      if i > 0 && sorted[i - 1].id == sorted[i].id { return Err(Duplicate), s; }
    }
    return Ok(sorted), s;
  }

  /** The identity index lists every resource at its position. */
  ghost predicate IndexOf(resources: seq<Resource>, index: map<nat, nat>) {
    && (forall i :: 0 <= i < |resources| ==> resources[i].id in index && index[resources[i].id] == i)
    && (forall id :: id in index ==> index[id] < |resources| && resources[index[id]].id == id)
  }

  method IndexResources(resources: seq<Resource>) returns (index: map<nat, nat>)
    requires forall i, j :: 0 <= i < j < |resources| ==> resources[i].id != resources[j].id
    ensures IndexOf(resources, index)
  {
    index := map[];
    for i := 0 to |resources|
      invariant forall k :: 0 <= k < i ==> resources[k].id in index && index[resources[k].id] == k
      invariant forall id :: id in index ==> index[id] < i && resources[index[id]].id == id
    {
      index := index[resources[i].id := i];
    }
  }

  lemma IndexIsPosition(resources: seq<Resource>, index: map<nat, nat>, id: nat)
    requires IndexOf(resources, index)
    ensures Position(resources, id) == if id in index then index[id] else |resources|
  {
    var p := Position(resources, id);
    if p < |resources| { assert resources[p].id == id; }
  }

  /** Positions of the endpoints, or None when one is not declared. */
  method Endpoints(resources: seq<Resource>, edges: seq<Edge>, index: map<nat, nat>)
    returns (r: Option<(seq<nat>, seq<nat>)>)
    requires IndexOf(resources, index)
    ensures var s, t := Sources(resources, edges), Targets(resources, edges);
            r == if Declared(|resources|, s) && Declared(|resources|, t) then Some((s, t)) else None
  {
    var s, t := [], [];
    for e := 0 to |edges|
      invariant s == Sources(resources, edges)[..e] && t == Targets(resources, edges)[..e]
      invariant Declared(|resources|, s) && Declared(|resources|, t)
    {
      IndexIsPosition(resources, index, edges[e].source);
      IndexIsPosition(resources, index, edges[e].target);
      if edges[e].source !in index || edges[e].target !in index {
        assert Sources(resources, edges)[e] == |resources| || Targets(resources, edges)[e] == |resources|;
        return None;
      }
      s := s + [index[edges[e].source]];
      t := t + [index[edges[e].target]];
    }
    assert Sources(resources, edges)[..|edges|] == Sources(resources, edges);
    assert Targets(resources, edges)[..|edges|] == Targets(resources, edges);
    return Some((s, t));
  }

  method DegreesFit(n: nat, ends: seq<nat>, degree: array<nat>, max: nat) returns (ok: bool)
    requires degree.Length == n && forall i :: 0 <= i < n ==> DegreeAt(ends, i, |ends|, degree[i])
    ensures ok == DegreesWithin(n, ends, max)
  {
    for i := 0 to n
      invariant forall k :: 0 <= k < i ==> |Bucket(ends, k, |ends|)| <= max
    {
      assert DegreeAt(ends, i, |ends|, degree[i]);
      if degree[i] > max { return false; }
    }
    return true;
  }

  /** Resources with an edge to themselves. */
  method SelfLoops(n: nat, sources: seq<nat>, targets: seq<nat>) returns (loops: seq<bool>)
    requires |sources| == |targets| && Declared(n, sources)
    ensures LoopsOf(Links(n, sources, targets), loops)
  {
    var mark := new bool[n](_ => false);
    for e := 0 to |sources|
      invariant forall v :: 0 <= v < n ==> (mark[v] <==> LoopBefore(sources, targets, v, e))
    {
      if sources[e] == targets[e] { mark[sources[e]] := true; }
    }
    loops := mark[..];
    forall v | 0 <= v < n ensures loops[v] <==> v in Links(n, sources, targets)[v] {
      RowMembers(sources, targets, v, v);
    }
  }

  ghost predicate LoopBefore(sources: seq<nat>, targets: seq<nat>, v: nat, upto: nat)
    requires |sources| == |targets|
  {
    exists e :: 0 <= e < upto && e < |sources| && sources[e] == v && targets[e] == v
  }

  // ----- the finished topology

  datatype Built = Built(topo: Topology, cyclic: seq<nat>, components: nat)

  /** The rows of the adjacency are the buckets. */
  lemma OutsAreBuckets(topo: Topology, sources: seq<nat>, i: nat)
    requires topo.Shaped() && i < |topo.resources| && |sources| == |topo.outgoing|
    requires Offsets(sources, |topo.resources|, topo.offsets)
             && Rowed(sources, |topo.resources|, |sources|, topo.outgoing)
    ensures topo.Outs(i) == Bucket(sources, i, |sources|)
  {
    assert OffsetAt(sources, i, topo.offsets[i]) && OffsetAt(sources, i + 1, topo.offsets[i + 1]);
    assert RowAt(sources, i, |sources|, topo.outgoing);
  }

  lemma OffsetsShape(sources: seq<nat>, n: nat, offsets: seq<nat>, i: nat)
    requires Offsets(sources, n, offsets) && Declared(n, sources) && i <= n
    ensures offsets[i] <= |sources| && (i < n ==> offsets[i] <= offsets[i + 1])
  {
    assert OffsetAt(sources, i, offsets[i]);
    BucketsPartition(sources, n, |sources|);
    if i < n {
      assert OffsetAt(sources, i + 1, offsets[i + 1]);
      RowsFollow(sources, i, n, |sources|);
    }
  }

  lemma BuiltShaped(topo: Topology, sources: seq<nat>)
    requires Declared(|topo.resources|, sources) && Offsets(sources, |topo.resources|, topo.offsets)
             && |sources| == |topo.outgoing|
    ensures topo.Shaped()
  {
    var n := |topo.resources|;
    forall i | 0 <= i <= n ensures topo.offsets[i] <= |topo.outgoing| { OffsetsShape(sources, n, topo.offsets, i); }
    forall i | 0 <= i < n ensures topo.offsets[i] <= topo.offsets[i + 1] { OffsetsShape(sources, n, topo.offsets, i); }
  }

  lemma BuiltRow(topo: Topology, sources: seq<nat>, i: nat)
    requires topo.Indexed() && i < |topo.resources| && |sources| == |topo.edges|
    requires topo.Outs(i) == Bucket(sources, i, |sources|)
    requires forall e :: 0 <= e < |sources| ==> sources[e] == topo.index[topo.edges[e].source]
    ensures topo.RowExact(i)
  {
    BucketExact(sources, i, |sources|);
    var b := topo.Outs(i);
    forall j | 0 <= j < |b| ensures b[j] < |topo.edges| && topo.index[topo.edges[b[j]].source] == i {
      assert b[j] in b;
    }
  }

  lemma BuiltIndexed(topo: Topology)
    requires IndexOf(topo.resources, topo.index)
    requires Declared(|topo.resources|, Sources(topo.resources, topo.edges))
             && Declared(|topo.resources|, Targets(topo.resources, topo.edges))
    ensures topo.Indexed()
    ensures forall e :: 0 <= e < |topo.edges| ==>
            Sources(topo.resources, topo.edges)[e] == topo.index[topo.edges[e].source]
  {
    var s, t := Sources(topo.resources, topo.edges), Targets(topo.resources, topo.edges);
    forall e | 0 <= e < |topo.edges|
      ensures topo.edges[e].source in topo.index && topo.edges[e].target in topo.index
              && s[e] == topo.index[topo.edges[e].source] {
      assert s[e] < |topo.resources| && t[e] < |topo.resources|;
      IndexIsPosition(topo.resources, topo.index, topo.edges[e].source);
      IndexIsPosition(topo.resources, topo.index, topo.edges[e].target);
    }
  }

  /** What the builder leaves behind is what the engine relies on. */
  lemma BuiltValid(topo: Topology)
    requires IndexOf(topo.resources, topo.index) && |topo.edges| < 0xFFFF_FFFF && |topo.outgoing| == |topo.edges|
    requires Declared(|topo.resources|, Sources(topo.resources, topo.edges))
             && Declared(|topo.resources|, Targets(topo.resources, topo.edges))
    requires Offsets(Sources(topo.resources, topo.edges), |topo.resources|, topo.offsets)
    requires Rowed(Sources(topo.resources, topo.edges), |topo.resources|, |topo.edges|, topo.outgoing)
    ensures topo.Valid()
  {
    var s := Sources(topo.resources, topo.edges);
    BuiltIndexed(topo);
    BuiltShaped(topo, s);
    forall i | 0 <= i < |topo.resources| ensures topo.RowExact(i) {
      OutsAreBuckets(topo, s, i);
      BuiltRow(topo, s, i);
    }
  }

  lemma LinksWellFormed(n: nat, sources: seq<nat>, targets: seq<nat>)
    requires |sources| == |targets| && Declared(n, targets)
    ensures WellFormed(Links(n, sources, targets))
  {
    var g := Links(n, sources, targets);
    forall v, j | 0 <= v < |g| && 0 <= j < |g[v]| ensures g[v][j] < |g| {
      BucketExact(sources, v, |sources|);
      var b := Bucket(sources, v, |sources|);
      assert b[j] in b;
    }
  }

  /** Identities of the marked resources, in table order. */
  method Collect(resources: seq<Resource>, marks: seq<bool>) returns (ids: seq<nat>)
    requires |marks| == |resources|
    ensures forall id :: id in ids <==> exists i :: 0 <= i < |resources| && marks[i] && resources[i].id == id
    ensures ids == [] <==> forall i :: 0 <= i < |resources| ==> !marks[i]
  {
    ids := [];
    for k := 0 to |resources|
      invariant forall id :: id in ids <==> exists i :: 0 <= i < k && marks[i] && resources[i].id == id
      invariant ids == [] <==> forall i :: 0 <= i < k ==> !marks[i]
    {
      if marks[k] { ids := ids + [resources[k].id]; }
    }
  }

  ghost predicate CyclesFound(built: Built) {
    var topo := built.topo;
    var g := Links(|topo.resources|, Sources(topo.resources, topo.edges), Targets(topo.resources, topo.edges));
    && (forall id :: id in built.cyclic <==>
       exists i :: 0 <= i < |topo.resources| && OnCycle(g, i) && topo.resources[i].id == id)
    && built.components == |CyclicClasses(g)|
  }

  /** Build the topology from canonical parts whose endpoints are known. */
  method Assemble(
    resources: seq<Resource>, edges: seq<Edge>, index: map<nat, nat>, sources: seq<nat>, targets: seq<nat>,
    degree: array<nat>)
    returns (built: Built)
    requires IndexOf(resources, index) && |edges| < 0xFFFF_FFFF
    requires sources == Sources(resources, edges) && targets == Targets(resources, edges)
    requires Declared(|resources|, sources) && Declared(|resources|, targets)
    requires degree.Length == |resources|
    requires forall i :: 0 <= i < |resources| ==> DegreeAt(sources, i, |sources|, degree[i])
    ensures built.topo.Valid() && built.topo.resources == resources && built.topo.edges == edges
    ensures CyclesFound(built) && (built.cyclic == [] <==> Acyclic(Links(|resources|, sources, targets)))
  {
    var n := |resources|;
    var offsets := PlaceOffsets(n, sources, degree);
    var outgoing := FillRows(n, sources, offsets);
    var topo := Topology(resources, edges, index, offsets, outgoing);
    BuiltValid(topo);
    var loops := SelfLoops(n, sources, targets);
    LinksWellFormed(n, sources, targets);
    var marks, count := FindCycles(Links(n, sources, targets), loops);
    var cyclic := Collect(resources, marks);
    return Built(topo, cyclic, count);
  }

  /** Resources by identity, and edges by priority, then target, then identity. */
  predicate Ascending(topo: Topology) {
    && (forall i, j :: 0 <= i < j < |topo.resources| ==> topo.resources[i].id <= topo.resources[j].id)
    && (forall i, j :: 0 <= i < j < |topo.edges| ==> NotBehind(topo.edges[i], topo.edges[j]))
  }

  predicate NotBehind(a: Edge, b: Edge) {
    || a.priority < b.priority
    || (a.priority == b.priority && (a.target < b.target || (a.target == b.target && a.id <= b.id)))
  }

  lemma AscendingEdges(edges: seq<Edge>)
    requires Sorted(edges, EdgePrecedes)
    ensures forall i, j :: 0 <= i < j < |edges| ==> NotBehind(edges[i], edges[j])
  {
    forall i, j | 0 <= i < j < |edges| ensures NotBehind(edges[i], edges[j]) {
      assert !EdgePrecedes(edges[j], edges[i]);
    }
  }

  /** The builder. It succeeds exactly on what it demands of the canonical sequences, however they were arrived at;
      the result is those sequences with a sound index and adjacency, the resources that lie on a cycle, and the
      number of cyclic components. */
  method Build(rs: seq<Resource>, es: seq<Edge>, limits: Limits, allowCycles: bool) returns (r: Result<Built>)
    requires limits.maxEdges < 0xFFFF_FFFF
    ensures forall a, b :: SortOf(a, rs, ResourcePrecedes) && SortOf(b, es, EdgePrecedes) ==>
              && (r.Ok? <==> Accepts(limits, a, b, allowCycles))
              && (r.Ok? ==> r.value.topo.resources == a && r.value.topo.edges == b)
              && (r.Err? ==> Refusal(limits, rs, es, a, b, allowCycles) == Some(r.error))
    ensures r.Ok? ==> r.value.topo.Valid() && CyclesFound(r.value)
    ensures r.Ok? ==> Ascending(r.value.topo)
    ensures r.Ok? ==> multiset(r.value.topo.resources) == multiset(rs) && multiset(r.value.topo.edges) == multiset(es)
  {
    ghost var resources, edges;
    r, resources, edges := BuildSorted(rs, es, limits, allowCycles);
    if r.Ok? { AscendingEdges(r.value.topo.edges); }
    forall a, b | SortOf(a, rs, ResourcePrecedes) && SortOf(b, es, EdgePrecedes)
      ensures r.Ok? <==> Accepts(limits, a, b, allowCycles)
      ensures r.Ok? ==> r.value.topo.resources == a && r.value.topo.edges == b
      ensures r.Err? ==> Refusal(limits, rs, es, a, b, allowCycles) == Some(r.error)
    {
      PermutedInputsAgree(limits, allowCycles, rs, rs, es, es, resources, a, edges, b);
      RefusalIsSortIndependent(limits, rs, es, resources, a, edges, b, allowCycles);
      RefusalIff(limits, rs, es, resources, edges, allowCycles);
    }
  }

  lemma RefusalIsSortIndependent(limits: Limits, rs: seq<Resource>, es: seq<Edge>,
                                 a: seq<Resource>, a': seq<Resource>, b: seq<Edge>, b': seq<Edge>, allowCycles: bool)
    requires SortOf(a, rs, ResourcePrecedes) && SortOf(a', rs, ResourcePrecedes)
    requires SortOf(b, es, EdgePrecedes) && SortOf(b', es, EdgePrecedes)
    ensures Refusal(limits, rs, es, a, b, allowCycles) == Refusal(limits, rs, es, a', b', allowCycles)
  {
    ResourcesCanonical(rs, rs, a, a');
    EdgesCanonical(es, es, b, b');
  }

  method BuildSorted(rs: seq<Resource>, es: seq<Edge>, limits: Limits, allowCycles: bool)
    returns (r: Result<Built>, ghost resources: seq<Resource>, ghost edges: seq<Edge>)
    requires limits.maxEdges < 0xFFFF_FFFF
    ensures SortOf(resources, rs, ResourcePrecedes) && SortOf(edges, es, EdgePrecedes)
    ensures var refusal := Refusal(limits, rs, es, resources, edges, allowCycles);
            if refusal.Some? then r == Err(refusal.value) else r.Ok?
    ensures r.Ok? ==>
              && r.value.topo.Valid() && r.value.topo.resources == resources && r.value.topo.edges == edges
              && CyclesFound(r.value)
  {
    var sorted, list := CheckedResources(rs);
    var ranked, ends := CheckedEdges(es);
    resources, edges := list, ends;
    SameSizes(resources, rs, edges, es);
    if limits.maxOut == 0 || limits.maxIn == 0 || limits.maxResources == 0 || limits.maxEdges == 0 {
      return Err(InvalidArgument), resources, edges;
    }
    if |rs| > limits.maxResources || |es| > limits.maxEdges { return Err(LimitExceeded), resources, edges; }
    if sorted.Err? { return Err(sorted.error), resources, edges; }
    ResourceDuplicatesFound(sorted.value);
    var index := IndexResources(sorted.value);
    if ranked.Err? { return Err(ranked.error), resources, edges; }
    var n := |sorted.value|;
    var pairs := Endpoints(sorted.value, ranked.value, index);
    if pairs.None? { return Err(NotFound), resources, edges; }
    var (sources, targets) := pairs.value;
    var out := CountDegrees(n, sources);
    var into := CountDegrees(n, targets);
    var outFits := DegreesFit(n, sources, out, limits.maxOut);
    var inFits := DegreesFit(n, targets, into, limits.maxIn);
    if !outFits || !inFits { return Err(LimitExceeded), resources, edges; }
    var built := Assemble(sorted.value, ranked.value, index, sources, targets, out);
    if !allowCycles && built.cyclic != [] { return Err(CycleDetected), resources, edges; }
    return Ok(built), resources, edges;
  }

  lemma SameSizes(a: seq<Resource>, rs: seq<Resource>, b: seq<Edge>, es: seq<Edge>)
    requires multiset(a) == multiset(rs) && multiset(b) == multiset(es)
    ensures |a| == |rs| && |b| == |es|
  {
    assert |multiset(a)| == |a| && |multiset(rs)| == |rs| && |multiset(b)| == |b| && |multiset(es)| == |es|;
  }

  // ----- a duplicate edge identity that the builder does not notice

  function Node(id: nat): Resource { Resource(id, Unprotected, true, 1) }

  function Link(id: nat, target: nat): Edge { Edge(id, 1, target, 0, 0x1_0000, 0, 1, 0, 0, false, false, false) }

  const NODES := [Node(1), Node(2), Node(3)]
  const LINKS := [Link(7, 1), Link(8, 2), Link(7, 3)]

  lemma NodesSorted()
    ensures SortOf(NODES, NODES, ResourcePrecedes) && ResourcesValid(NODES) && NeighboursDiffer(NODES)
  {
  }

  lemma LinksSorted()
    ensures SortOf(LINKS, LINKS, EdgePrecedes) && EdgesValid(LINKS) && NeighbourIdsDiffer(LINKS)
  {
  }

  lemma ExampleEnds()
    ensures Sources(NODES, LINKS) == [0, 0, 0] && Targets(NODES, LINKS) == [0, 1, 2]
  {
    assert NODES[1..] == [Node(2), Node(3)] && NODES[1..][1..] == [Node(3)];
    assert Position(NODES, 1) == 0 && Position(NODES, 2) == 1 && Position(NODES, 3) == 2;
  }

  lemma SmallDegrees(n: nat, ends: seq<nat>, max: nat)
    requires |ends| <= max
    ensures DegreesWithin(n, ends, max)
  {
  }

  /** Two edges to different targets share identity 7, and the builder takes them: an edge of identity 8 sorts
      between. */
  lemma EdgeDuplicateMissed()
    ensures SortOf(NODES, NODES, ResourcePrecedes) && SortOf(LINKS, LINKS, EdgePrecedes)
    ensures LINKS[0].id == LINKS[2].id && Accepts(Limits(3, 3, 3, 3), NODES, LINKS, true)
  {
    NodesSorted();
    LinksSorted();
    ExampleEnds();
    SmallDegrees(3, Sources(NODES, LINKS), 3);
    SmallDegrees(3, Targets(NODES, LINKS), 3);
  }
}
