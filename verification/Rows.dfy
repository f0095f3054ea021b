/** Compressed adjacency by counting sort: degrees, offsets, and edge indices dropped into their rows. */
module Rows {
  /** Edges among the first `upto` that leave resource i, in order. */
  function Bucket(sources: seq<nat>, i: nat, upto: nat): (b: seq<nat>)
    requires upto <= |sources|
    ensures |b| <= upto
  {
    if upto == 0 then []
    else if sources[upto - 1] == i then Bucket(sources, i, upto - 1) + [upto - 1]
    else Bucket(sources, i, upto - 1)
  }

  /** The bucket holds exactly the edges leaving i, each once, in increasing order. */
  lemma {:induction false} BucketExact(sources: seq<nat>, i: nat, upto: nat)
    requires upto <= |sources|
    ensures forall e :: e in Bucket(sources, i, upto) <==> 0 <= e < upto && sources[e] == i
    ensures forall j, k :: 0 <= j < k < |Bucket(sources, i, upto)| ==>
            Bucket(sources, i, upto)[j] < Bucket(sources, i, upto)[k]
  {
    if upto > 0 {
      BucketExact(sources, i, upto - 1);
      var b := Bucket(sources, i, upto - 1);
      forall j | 0 <= j < |b| ensures b[j] < upto - 1 { assert b[j] in b; }
    }
  }

  lemma {:induction false} BucketGrows(sources: seq<nat>, i: nat, a: nat, b: nat)
    requires a <= b <= |sources|
    ensures |Bucket(sources, i, a)| <= |Bucket(sources, i, b)|
  {
    if a < b { BucketGrows(sources, i, a, b - 1); }
  }

  /** Edges leaving the resources before i. */
  function Before(sources: seq<nat>, i: nat, upto: nat): nat
    requires upto <= |sources|
  {
    if i == 0 then 0 else Before(sources, i - 1, upto) + |Bucket(sources, i - 1, upto)|
  }

  lemma {:induction false} BeforeSteps(sources: seq<nat>, i: nat, upto: nat)
    requires 0 < upto <= |sources|
    ensures Before(sources, i, upto) == Before(sources, i, upto - 1) + if sources[upto - 1] < i then 1 else 0
  {
    if i > 0 { BeforeSteps(sources, i - 1, upto); }
  }

  /** The buckets partition the edges. */
  lemma {:induction false} BucketsPartition(sources: seq<nat>, n: nat, upto: nat)
    requires upto <= |sources| && forall e :: 0 <= e < |sources| ==> sources[e] < n
    ensures Before(sources, n, upto) == upto
  {
    if upto == 0 {
      NoneBefore(sources, n);
    } else {
      BeforeSteps(sources, n, upto);
      BucketsPartition(sources, n, upto - 1);
    }
  }

  lemma {:induction false} NoneBefore(sources: seq<nat>, i: nat)
    ensures Before(sources, i, 0) == 0
  {
    if i > 0 { NoneBefore(sources, i - 1); }
  }

  lemma {:induction false} RowsFollow(sources: seq<nat>, i: nat, k: nat, upto: nat)
    requires i < k && upto <= |sources|
    ensures Before(sources, i, upto) + |Bucket(sources, i, upto)| <= Before(sources, k, upto)
    decreases k
  {
    if i < k - 1 { RowsFollow(sources, i, k - 1, upto); }
  }

  ghost predicate OffsetAt(sources: seq<nat>, i: nat, offset: nat) { offset == Before(sources, i, |sources|) }

  ghost predicate DegreeAt(sources: seq<nat>, i: nat, upto: nat, degree: nat)
    requires upto <= |sources|
  {
    degree == |Bucket(sources, i, upto)|
  }

  /** Offsets are where the rows begin. */
  ghost predicate Offsets(sources: seq<nat>, n: nat, offsets: seq<nat>) {
    |offsets| == n + 1 && forall i :: 0 <= i <= n ==> OffsetAt(sources, i, offsets[i])
  }

  method CountDegrees(n: nat, sources: seq<nat>) returns (degree: array<nat>)
    requires forall e :: 0 <= e < |sources| ==> sources[e] < n
    ensures fresh(degree) && degree.Length == n
    ensures forall i :: 0 <= i < n ==> DegreeAt(sources, i, |sources|, degree[i])
  {
    degree := new nat[n](_ => 0);
    for e := 0 to |sources|
      invariant forall i :: 0 <= i < n ==> DegreeAt(sources, i, e, degree[i])
    {
      degree[sources[e]] := degree[sources[e]] + 1;
    }
  }

  method PlaceOffsets(n: nat, sources: seq<nat>, degree: array<nat>) returns (starts: seq<nat>)
    requires degree.Length == n && forall i :: 0 <= i < n ==> DegreeAt(sources, i, |sources|, degree[i])
    ensures Offsets(sources, n, starts)
  {
    var offsets := new nat[n + 1](_ => 0);
    for i := 0 to n
      invariant forall k :: 0 <= k <= i ==> OffsetAt(sources, k, offsets[k])
    {
      assert OffsetAt(sources, i, offsets[i]) && DegreeAt(sources, i, |sources|, degree[i]);
      assert OffsetAt(sources, i + 1, offsets[i] + degree[i]);
      offsets[i + 1] := offsets[i] + degree[i];
    }
    starts := offsets[..];
  }

  /** Row i holds the first edges of its bucket. */
  ghost predicate Filled(sources: seq<nat>, start: nat, i: nat, upto: nat, outgoing: seq<nat>)
    requires upto <= |sources|
  {
    && start + |Bucket(sources, i, upto)| <= |outgoing|
    && outgoing[start..start + |Bucket(sources, i, upto)|] == Bucket(sources, i, upto)
  }

  lemma FillOne(sources: seq<nat>, start: nat, i: nat, e: nat, outgoing: seq<nat>, at: nat)
    requires e < |sources| && Filled(sources, start, i, e, outgoing) && at < |outgoing|
    requires at == start + |Bucket(sources, i, e)|
    requires sources[e] == i
    ensures Filled(sources, start, i, e + 1, outgoing[at := e])
  {
    var next := outgoing[at := e];
    assert next[start..at + 1] == outgoing[start..at] + [e];
  }

  lemma FillOther(sources: seq<nat>, start: nat, i: nat, e: nat, outgoing: seq<nat>, at: nat)
    requires e < |sources| && Filled(sources, start, i, e, outgoing) && at < |outgoing| && sources[e] != i
    requires at < start || start + |Bucket(sources, i, e)| <= at
    ensures Filled(sources, start, i, e + 1, outgoing[at := e])
  {
    var end := start + |Bucket(sources, i, e)|;
    assert outgoing[at := e][start..end] == outgoing[start..end];
  }

  /** The slot an edge is dropped into belongs to its own row. */
  lemma SlotIsOwn(sources: seq<nat>, n: nat, e: nat, i: nat)
    requires e < |sources| && i < n && forall k :: 0 <= k < |sources| ==> sources[k] < n
    ensures var s := sources[e];
            var at := Before(sources, s, |sources|) + |Bucket(sources, s, e)|;
            && at < |sources|
            && (i != s ==>
                  || at < Before(sources, i, |sources|)
                  || Before(sources, i, |sources|) + |Bucket(sources, i, e)| <= at)
  {
    var s := sources[e];
    BucketGrows(sources, s, e + 1, |sources|);
    BucketGrows(sources, i, e, |sources|);
    RowsFollow(sources, s, n, |sources|);
    BucketsPartition(sources, n, |sources|);
    if i < s { RowsFollow(sources, i, s, |sources|); } else if s < i { RowsFollow(sources, s, i, |sources|); }
  }

  ghost predicate RowAt(sources: seq<nat>, i: nat, upto: nat, outgoing: seq<nat>)
    requires upto <= |sources|
  {
    Filled(sources, Before(sources, i, |sources|), i, upto, outgoing)
  }

  ghost predicate Rowed(sources: seq<nat>, n: nat, upto: nat, outgoing: seq<nat>)
    requires upto <= |sources|
  {
    forall i :: 0 <= i < n ==> RowAt(sources, i, upto, outgoing)
  }

  ghost predicate CursorAt(sources: seq<nat>, i: nat, upto: nat, cursor: nat)
    requires upto <= |sources|
  {
    cursor == Before(sources, i, |sources|) + |Bucket(sources, i, upto)|
  }

  lemma NothingFilled(sources: seq<nat>, n: nat, outgoing: seq<nat>)
    requires |outgoing| == |sources| && forall e :: 0 <= e < |sources| ==> sources[e] < n
    ensures Rowed(sources, n, 0, outgoing)
  {
    BucketsPartition(sources, n, |sources|);
    forall i | 0 <= i < n ensures RowAt(sources, i, 0, outgoing) { RowsFollow(sources, i, n, |sources|); }
  }

  /** Dropping an edge into its slot extends its own row and leaves the others alone. */
  lemma FillStep(sources: seq<nat>, n: nat, e: nat, outgoing: seq<nat>, at: nat)
    requires e < |sources| && |outgoing| == |sources| && forall k :: 0 <= k < |sources| ==> sources[k] < n
    requires Rowed(sources, n, e, outgoing) && CursorAt(sources, sources[e], e, at)
    ensures at < |outgoing| && Rowed(sources, n, e + 1, outgoing[at := e])
  {
    SlotIsOwn(sources, n, e, sources[e]);
    var next, upto := outgoing[at := e], e + 1;
    forall i | 0 <= i < n ensures RowAt(sources, i, upto, next) {
      SlotIsOwn(sources, n, e, i);
      assert RowAt(sources, i, e, outgoing);
      if i == sources[e] {
        FillOne(sources, Before(sources, i, |sources|), i, e, outgoing, at);
      } else {
        FillOther(sources, Before(sources, i, |sources|), i, e, outgoing, at);
      }
    }
  }

  method FillRows(n: nat, sources: seq<nat>, offsets: seq<nat>) returns (outgoing: seq<nat>)
    requires Offsets(sources, n, offsets) && forall e :: 0 <= e < |sources| ==> sources[e] < n
    ensures |outgoing| == |sources| && Rowed(sources, n, |sources|, outgoing)
  {
    var out := new nat[|sources|](_ => 0);
    var cursor := new nat[n](i requires 0 <= i < n => offsets[i]);
    forall i | 0 <= i < n ensures CursorAt(sources, i, 0, cursor[i]) { assert OffsetAt(sources, i, offsets[i]); }
    NothingFilled(sources, n, out[..]);
    for e := 0 to |sources|
      invariant forall i :: 0 <= i < n ==> CursorAt(sources, i, e, cursor[i])
      invariant Rowed(sources, n, e, out[..])
    {
      var s := sources[e];
      var at := cursor[s];
      assert CursorAt(sources, s, e, at);
      FillStep(sources, n, e, out[..], at);
      ghost var next := out[..][at := e];
      out[at] := e;
      assert out[..] == next;
      cursor[s] := at + 1;
      forall i | 0 <= i < n ensures CursorAt(sources, i, e + 1, cursor[i]) {
        assert i != s ==> CursorAt(sources, i, e, cursor[i]);
      }
    }
    outgoing := out[..];
  }
}
