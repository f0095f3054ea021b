/** Canonical order: sorting makes a topology independent of the order its parts are given in. */
module Canonical {
  import opened Model

  /** A strict order told by a key: resources by identity, edges by priority, target and identity. */
  predicate ResourcePrecedes(a: Resource, b: Resource) { a.id < b.id }

  predicate EdgePrecedes(a: Edge, b: Edge) {
    if a.priority != b.priority then a.priority < b.priority
    else if a.target != b.target then a.target < b.target
    else a.id < b.id
  }

  /** No element stands before one that precedes it. */
  ghost predicate Sorted<T(!new)>(s: seq<T>, less: (T, T) -> bool) {
    forall i, j :: 0 <= i < j < |s| ==> !less(s[j], s[i])
  }

  ghost predicate StrictlySorted<T(!new)>(s: seq<T>, less: (T, T) -> bool) {
    forall i, j :: 0 <= i < j < |s| ==> less(s[i], s[j])
  }

  /** A strict weak order. */
  ghost predicate Ordering<T(!new)>(less: (T, T) -> bool) {
    && (forall a, b :: less(a, b) ==> !less(b, a))
    && (forall a, b, c :: less(a, b) && !less(c, b) ==> less(a, c))
  }

  ghost predicate SortOf<T(!new)>(s: seq<T>, input: seq<T>, less: (T, T) -> bool) {
    Sorted(s, less) && multiset(s) == multiset(input)
  }

  lemma OrderingsHold()
    ensures Ordering(ResourcePrecedes) && Ordering(EdgePrecedes)
  {
  }

  // ----- sorting

  method InsertSorted<T(!new)>(s: seq<T>, x: T, less: (T, T) -> bool) returns (r: seq<T>)
    requires Ordering(less) && Sorted(s, less)
    ensures SortOf(r, s + [x], less)
  {
    var i := |s|;
    while i > 0 && less(x, s[i - 1])
      invariant 0 <= i <= |s| && forall j :: i <= j < |s| ==> less(x, s[j])
    {
      i := i - 1;
    }
    r := s[..i] + [x] + s[i..];
    assert s == s[..i] + s[i..];
    InsertKeepsOrder(s, x, i, less);
  }

  lemma InsertKeepsOrder<T(!new)>(s: seq<T>, x: T, i: nat, less: (T, T) -> bool)
    requires Ordering(less) && Sorted(s, less) && i <= |s|
    requires (i > 0 ==> !less(x, s[i - 1])) && forall j :: i <= j < |s| ==> less(x, s[j])
    ensures Sorted(s[..i] + [x] + s[i..], less)
  {
    var r := s[..i] + [x] + s[i..];
    forall j, k | 0 <= j < k < |r| ensures !less(r[k], r[j]) {
      assert j < i - 1 ==> !less(s[i - 1], s[j]);
    }
  }

  /** Any sorting procedure will do; this one inserts. */
  method Sort<T(!new)>(input: seq<T>, less: (T, T) -> bool) returns (r: seq<T>)
    requires Ordering(less)
    ensures SortOf(r, input, less)
  {
    r := [];
    for i := 0 to |input|
      invariant SortOf(r, input[..i], less)
    {
      assert input[..i + 1] == input[..i] + [input[i]];
      r := InsertSorted(r, input[i], less);
    }
    assert input[..|input|] == input;
  }

  // ----- uniqueness

  lemma FirstIsLeast<T(!new)>(a: seq<T>, less: (T, T) -> bool, j: nat)
    requires StrictlySorted(a, less) && j < |a|
    ensures j == 0 || less(a[0], a[j])
  {
  }

  lemma FirstIsSame<T(!new)>(a: seq<T>, b: seq<T>, less: (T, T) -> bool)
    requires Ordering(less) && StrictlySorted(a, less) && Sorted(b, less) && multiset(a) == multiset(b) && a != []
    ensures b != [] && a[0] == b[0]
  {
    assert a[0] in multiset(b) && |multiset(a)| == |a| && |multiset(b)| == |b|;
    assert b[0] in multiset(a);
    var k :| 0 <= k < |b| && b[k] == a[0];
    var j :| 0 <= j < |a| && a[j] == b[0];
    FirstIsLeast(a, less, j);
  }

  lemma DropFirst<T>(s: seq<T>)
    requires s != []
    ensures multiset(s[1..]) == multiset(s) - multiset{s[0]}
  {
    assert s == [s[0]] + s[1..];
  }

  /** A sequence without ties has one sorted arrangement. */
  lemma {:induction false} SortUnique<T(!new)>(a: seq<T>, b: seq<T>, less: (T, T) -> bool)
    requires Ordering(less) && StrictlySorted(a, less) && Sorted(b, less) && multiset(a) == multiset(b)
    ensures a == b
    decreases |a|
  {
    if a == [] {
      assert |multiset(a)| == |a| && |multiset(b)| == |b|;
    } else {
      FirstIsSame(a, b, less);
      DropFirst(a);
      DropFirst(b);
      SortUnique(a[1..], b[1..], less);
    }
  }

  // ----- duplicates are looked for among neighbours only

  predicate NeighbourIdsDiffer(edges: seq<Edge>) { forall i :: 0 < i < |edges| ==> edges[i - 1].id != edges[i].id }

  predicate NeighboursDiffer(resources: seq<Resource>) {
    forall i :: 0 < i < |resources| ==> resources[i - 1].id != resources[i].id
  }

  /** Sorted without tied neighbours is strictly sorted. */
  lemma {:induction false} StrictByNeighbours<T(!new)>(s: seq<T>, less: (T, T) -> bool, i: nat, j: nat)
    requires Ordering(less) && i < j < |s| && forall k :: 0 < k < |s| ==> LessAt(s, less, k)
    ensures less(s[i], s[j])
    decreases j
  {
    assert LessAt(s, less, j);
    if i < j - 1 { StrictByNeighbours(s, less, i, j - 1); }
  }

  ghost predicate LessAt<T(!new)>(s: seq<T>, less: (T, T) -> bool, k: nat)
    requires k < |s|
  {
    0 < k ==> less(s[k - 1], s[k])
  }

  lemma EdgesStrict(s: seq<Edge>)
    requires Sorted(s, EdgePrecedes) && NeighbourIdsDiffer(s)
    ensures StrictlySorted(s, EdgePrecedes)
  {
    OrderingsHold();
    forall k | 0 < k < |s| ensures LessAt(s, EdgePrecedes, k) {
      assert s[k - 1].id != s[k].id && !EdgePrecedes(s[k], s[k - 1]);
    }
    forall i, j | 0 <= i < j < |s| ensures EdgePrecedes(s[i], s[j]) { StrictByNeighbours(s, EdgePrecedes, i, j); }
  }

  lemma ResourcesStrict(s: seq<Resource>)
    requires Sorted(s, ResourcePrecedes) && NeighboursDiffer(s)
    ensures StrictlySorted(s, ResourcePrecedes)
  {
    OrderingsHold();
    forall k | 0 < k < |s| ensures LessAt(s, ResourcePrecedes, k) {
      assert s[k - 1].id != s[k].id && !ResourcePrecedes(s[k], s[k - 1]);
    }
    forall i, j | 0 <= i < j < |s| ensures ResourcePrecedes(s[i], s[j]) {
      StrictByNeighbours(s, ResourcePrecedes, i, j);
    }
  }

  /** Canonical edges: however the edges are given and whichever sorting procedure is used, the duplicate check
      gives the same answer, and the same sequence when it passes. */
  lemma EdgesCanonical(input: seq<Edge>, other: seq<Edge>, a: seq<Edge>, b: seq<Edge>)
    requires multiset(input) == multiset(other) && SortOf(a, input, EdgePrecedes) && SortOf(b, other, EdgePrecedes)
    ensures NeighbourIdsDiffer(a) <==> NeighbourIdsDiffer(b)
    ensures NeighbourIdsDiffer(a) ==> a == b
  {
    OrderingsHold();
    if NeighbourIdsDiffer(a) {
      EdgesStrict(a);
      SortUnique(a, b, EdgePrecedes);
    }
    if NeighbourIdsDiffer(b) {
      EdgesStrict(b);
      SortUnique(b, a, EdgePrecedes);
    }
  }

  lemma ResourcesCanonical(input: seq<Resource>, other: seq<Resource>, a: seq<Resource>, b: seq<Resource>)
    requires multiset(input) == multiset(other) && SortOf(a, input, ResourcePrecedes)
             && SortOf(b, other, ResourcePrecedes)
    ensures NeighboursDiffer(a) <==> NeighboursDiffer(b)
    ensures NeighboursDiffer(a) ==> a == b
  {
    OrderingsHold();
    if NeighboursDiffer(a) {
      ResourcesStrict(a);
      SortUnique(a, b, ResourcePrecedes);
    }
    if NeighboursDiffer(b) {
      ResourcesStrict(b);
      SortUnique(b, a, ResourcePrecedes);
    }
  }

  /** For resources the neighbour check finds every duplicate. */
  lemma ResourceDuplicatesFound(s: seq<Resource>)
    requires Sorted(s, ResourcePrecedes)
    ensures NeighboursDiffer(s) <==> forall i, j :: 0 <= i < j < |s| ==> s[i].id != s[j].id
  {
    if NeighboursDiffer(s) { ResourcesStrict(s); }
  }

  // ----- duplicate edges that are found

  /** Two edges share an identity and no edge of another identity lies between them. */
  ghost predicate Clash(edges: seq<Edge>, p: nat, q: nat) {
    && p < |edges| && q < |edges| && p != q && edges[p].id == edges[q].id && !EdgePrecedes(edges[q], edges[p])
    && forall r :: 0 <= r < |edges| && edges[r].id != edges[p].id ==> !Between(edges[p], edges[r], edges[q])
  }

  predicate Between(a: Edge, b: Edge, c: Edge) { EdgePrecedes(a, b) && EdgePrecedes(b, c) }

  lemma NeighboursClash(s: seq<Edge>, i: nat)
    requires Sorted(s, EdgePrecedes) && 0 < i < |s| && s[i - 1].id == s[i].id
    ensures Clash(s, i - 1, i)
  {
    forall r | 0 <= r < |s| && s[r].id != s[i].id ensures !Between(s[i - 1], s[r], s[i]) {
      assert r < i - 1 ==> !EdgePrecedes(s[i - 1], s[r]);
      assert i < r ==> !EdgePrecedes(s[r], s[i]);
    }
  }

  lemma NoneBetween(s: seq<Edge>, p: nat, q: nat, r: nat)
    requires Clash(s, p, q) && r < |s|
    ensures s[r].id != s[p].id ==> !Between(s[p], s[r], s[q])
  {
  }

  lemma ClashBringsNeighbours(s: seq<Edge>, p: nat, q: nat)
    requires Sorted(s, EdgePrecedes) && Clash(s, p, q)
    ensures !NeighbourIdsDiffer(s)
  {
    var lo, hi := if p < q then p else q, if p < q then q else p;
    assert !EdgePrecedes(s[hi], s[lo]);
    if lo + 1 < hi {
      assert !EdgePrecedes(s[lo + 1], s[lo]) && !EdgePrecedes(s[hi], s[lo + 1]);
      NoneBetween(s, p, q, lo + 1);
    }
    assert s[lo + 1 - 1].id == s[lo + 1].id;
  }

  lemma RemovePosition<T>(s: seq<T>, i: nat)
    requires i < |s|
    ensures multiset(s[..i] + s[i + 1..]) == multiset(s) - multiset{s[i]}
  {
    assert s == s[..i] + [s[i]] + s[i + 1..];
  }

  /** Two positions of a sequence have counterparts in every permutation of it. */
  lemma TwoPositions<T>(a: seq<T>, b: seq<T>, p: nat, q: nat) returns (p': nat, q': nat)
    requires multiset(a) == multiset(b) && p < |a| && q < |a| && p != q
    ensures p' < |b| && q' < |b| && p' != q' && b[p'] == a[p] && b[q'] == a[q]
  {
    assert a[p] in multiset(b);
    p' :| 0 <= p' < |b| && b[p'] == a[p];
    RemovePosition(a, p);
    RemovePosition(b, p');
    OtherStays(a, p, q);
    q' := FindOther(b, p', a[q]);
  }

  lemma OtherStays<T>(s: seq<T>, p: nat, q: nat)
    requires p < |s| && q < |s| && p != q
    ensures s[q] in multiset(s[..p] + s[p + 1..])
  {
    assert (s[..p] + s[p + 1..])[if q < p then q else q - 1] == s[q];
  }

  lemma FindOther<T>(s: seq<T>, p: nat, x: T) returns (q: nat)
    requires p < |s| && x in multiset(s[..p] + s[p + 1..])
    ensures q < |s| && q != p && s[q] == x
  {
    var d := s[..p] + s[p + 1..];
    var j :| 0 <= j < |d| && d[j] == x;
    q := if j < p then j else j + 1;
  }

  lemma ClashPermutes(a: seq<Edge>, b: seq<Edge>, p: nat, q: nat) returns (p': nat, q': nat)
    requires multiset(a) == multiset(b) && Clash(a, p, q)
    ensures Clash(b, p', q')
  {
    p', q' := TwoPositions(a, b, p, q);
    forall r | 0 <= r < |b| && b[r].id != b[p'].id ensures !Between(b[p'], b[r], b[q']) {
      assert b[r] in multiset(a);
      var k :| 0 <= k < |a| && a[k] == b[r];
    }
  }

  /** Exactly which duplicate edge identities are found, whatever order the edges are given in: those of two edges with
      no edge of another identity between them in the order of priority, target and identity. */
  lemma EdgeDuplicatesFound(input: seq<Edge>, s: seq<Edge>)
    requires SortOf(s, input, EdgePrecedes)
    ensures !NeighbourIdsDiffer(s) <==> exists p, q :: Clash(input, p, q)
  {
    if !NeighbourIdsDiffer(s) { var p, q := TieIsClash(input, s); }
    if p, q :| Clash(input, p, q) { ClashIsTie(input, s, p, q); }
  }

  lemma TieIsClash(input: seq<Edge>, s: seq<Edge>) returns (p: nat, q: nat)
    requires SortOf(s, input, EdgePrecedes) && !NeighbourIdsDiffer(s)
    ensures Clash(input, p, q)
  {
    var i :| 0 < i < |s| && s[i - 1].id == s[i].id;
    NeighboursClash(s, i);
    p, q := ClashPermutes(s, input, i - 1, i);
  }

  lemma ClashIsTie(input: seq<Edge>, s: seq<Edge>, p: nat, q: nat)
    requires SortOf(s, input, EdgePrecedes) && Clash(input, p, q)
    ensures !NeighbourIdsDiffer(s)
  {
    var p', q' := ClashPermutes(input, s, p, q);
    ClashBringsNeighbours(s, p', q');
  }
}
