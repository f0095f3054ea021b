/** Iterative Tarjan: the invariants of the explicit frame stack. */
module Components {
  import opened Reachability

  datatype Frame = Frame(node: nat, cursor: nat)

  /** The scan's tables; -1 in `index` marks an unvisited vertex. */
  datatype Scan = Scan(index: seq<int>, low: seq<int>, stack: seq<nat>, frames: seq<Frame>, next: nat)

  // ----- invariants

  ghost predicate Sized(g: Adjacency, t: Scan) {
    && |t.index| == |t.low| == |g|
    && (forall v :: 0 <= v < |g| ==> -1 <= t.index[v] < t.next)
    && (forall i :: 0 <= i < |t.stack| ==> t.stack[i] < |g| && t.index[t.stack[i]] >= 0)
    && (forall k :: 0 <= k < |t.frames| ==>
          t.frames[k].node < |g| && t.frames[k].cursor <= |g[t.frames[k].node]| && t.frames[k].node in t.stack)
  }

  /** Visited vertices are finished or stacked, never both. */
  ghost predicate Partitioned(g: Adjacency, t: Scan, done: set<nat>)
    requires Sized(g, t)
  {
    && (forall v :: v in done ==> v < |g| && t.index[v] >= 0 && v !in t.stack)
    && (forall v :: 0 <= v < |g| && t.index[v] >= 0 ==> v in done || v in t.stack)
  }

  /** Stack and frames are in visiting order; the first frame is the bottom of the stack. */
  ghost predicate Ordered(g: Adjacency, t: Scan)
    requires Sized(g, t)
  {
    && (forall i, j :: 0 <= i < j < |t.stack| ==> t.index[t.stack[i]] < t.index[t.stack[j]])
    && (forall i, j :: 0 <= i < j < |t.frames| ==> t.index[t.frames[i].node] < t.index[t.frames[j].node])
    && (t.frames == [] ==> t.stack == [])
    && (t.frames != [] ==> t.stack != [] && t.stack[0] == t.frames[0].node)
  }

  /** Frame k is the innermost frame at or below x. */
  ghost predicate Home(t: Scan, x: nat, k: nat) {
    && k < |t.frames| && x < |t.index| && t.frames[k].node < |t.index|
    && t.index[t.frames[k].node] <= t.index[x]
    && (k + 1 < |t.frames| ==> t.frames[k + 1].node < |t.index| && t.index[x] < t.index[t.frames[k + 1].node])
  }

  /** Lower stack entries reach higher ones. */
  ghost predicate UpAt(g: Adjacency, t: Scan, i: nat, j: nat) {
    i <= j < |t.stack| ==> Reach(g, t.stack[i], t.stack[j])
  }

  ghost predicate Up(g: Adjacency, t: Scan) {
    forall i: nat, j: nat :: UpAt(g, t, i, j)
  }

  /** Every stack entry reaches its home frame. */
  ghost predicate DownAt(g: Adjacency, t: Scan, i: nat, k: nat) {
    i < |t.stack| && Home(t, t.stack[i], k) ==> Reach(g, t.stack[i], t.frames[k].node)
  }

  ghost predicate Down(g: Adjacency, t: Scan) {
    forall i: nat, k: nat :: DownAt(g, t, i, k)
  }

  /** A frame's low link is the index of a stack entry the frame reaches. */
  ghost predicate LowAt(g: Adjacency, t: Scan, k: nat)
    requires Sized(g, t) && k < |t.frames|
  {
    var v := t.frames[k].node;
    && t.low[v] <= t.index[v]
    && exists i :: 0 <= i < |t.stack| && t.index[t.stack[i]] == t.low[v] && Reach(g, v, t.stack[i])
  }

  ghost predicate Low(g: Adjacency, t: Scan)
    requires Sized(g, t)
  {
    forall k :: 0 <= k < |t.frames| ==> LowAt(g, t, k)
  }

  /** Edge j of x has been looked at. */
  ghost predicate Looked(g: Adjacency, t: Scan, x: nat, j: nat) {
    && x < |g| && j < |g[x]|
    && forall k :: 0 <= k < |t.frames| && t.frames[k].node == x ==> j < t.frames[k].cursor
  }

  /** Edge j of stack entry i, once looked at, leads to a visited vertex, and to no stack entry below the
      low link of the entry's home. */
  ghost predicate BoundAt(g: Adjacency, t: Scan, i: nat, j: nat, k: nat)
    requires Sized(g, t) && WellFormed(g)
  {
    i < |t.stack| && Looked(g, t, t.stack[i], j) && Home(t, t.stack[i], k) ==>
      var y := g[t.stack[i]][j];
      t.index[y] >= 0 && (y in t.stack ==> t.low[t.frames[k].node] <= t.index[y])
  }

  ghost predicate Bound(g: Adjacency, t: Scan)
    requires Sized(g, t) && WellFormed(g)
  {
    forall i: nat, j: nat, k: nat :: BoundAt(g, t, i, j, k)
  }

  ghost predicate ClosedSet(g: Adjacency, done: set<nat>) {
    forall v, w :: v in done && v < |g| && w in g[v] ==> w in done
  }

  ghost predicate Inv(g: Adjacency, t: Scan, done: set<nat>) {
    && WellFormed(g) && Sized(g, t) && Partitioned(g, t, done) && Ordered(g, t)
    && Up(g, t) && Down(g, t) && Low(g, t) && Bound(g, t) && ClosedSet(g, done)
  }

  function Top(t: Scan): Frame
    requires t.frames != []
  {
    t.frames[|t.frames| - 1]
  }

  // ----- consequences

  lemma StackOrder(g: Adjacency, t: Scan, i: nat, j: nat)
    requires Sized(g, t) && Ordered(g, t) && i < |t.stack| && j < |t.stack|
    ensures i < j <==> t.index[t.stack[i]] < t.index[t.stack[j]]
    ensures i == j <==> t.stack[i] == t.stack[j]
  {
  }

  lemma FrameOrder(g: Adjacency, t: Scan, i: nat, j: nat)
    requires Sized(g, t) && Ordered(g, t) && i < |t.frames| && j < |t.frames|
    ensures i < j <==> t.index[t.frames[i].node] < t.index[t.frames[j].node]
    ensures i == j <==> t.frames[i].node == t.frames[j].node
  {
  }

  /** Every stack entry reaches the vertex being expanded. */
  lemma AllReachTop(g: Adjacency, t: Scan, i: nat)
    requires Sized(g, t) && Ordered(g, t) && Up(g, t) && Down(g, t) && i < |t.stack|
    ensures t.frames != [] && Reach(g, t.stack[i], Top(t).node)
  {
    var v := Top(t).node;
    var p :| 0 <= p < |t.stack| && t.stack[p] == v;
    assert UpAt(g, t, i, p) && DownAt(g, t, i, |t.frames| - 1);
    if i > p {
      assert Home(t, t.stack[i], |t.frames| - 1);
    }
  }

  // ----- starting from a root

  function Begin(t: Scan, root: nat): Scan
    requires root < |t.index| == |t.low|
  {
    Scan(t.index[root := t.next], t.low[root := t.next], [root], [Frame(root, 0)], t.next + 1)
  }

  lemma BeginInv(g: Adjacency, t: Scan, done: set<nat>, root: nat)
    requires Inv(g, t, done) && t.frames == [] && root < |g| && t.index[root] == -1
    ensures Inv(g, Begin(t, root), done)
  {
    var t' := Begin(t, root);
    ReachSelf(g, root);
    assert t'.stack[0] == root;
    assert LowAt(g, t', 0);
  }

  // ----- visiting a new vertex

  /** Step over the edge under the top cursor to the unvisited vertex w. */
  function Visit(t: Scan, w: nat): Scan
    requires t.frames != [] && w < |t.index| == |t.low|
  {
    var n := |t.frames| - 1;
    Scan(t.index[w := t.next], t.low[w := t.next], t.stack + [w],
         t.frames[..n] + [Frame(t.frames[n].node, t.frames[n].cursor + 1), Frame(w, 0)], t.next + 1)
  }

  /** The edge under the top cursor leads to w. */
  ghost predicate Facing(g: Adjacency, t: Scan, w: nat) {
    && Sized(g, t) && t.frames != [] && Top(t).cursor < |g[Top(t).node]|
    && w == g[Top(t).node][Top(t).cursor] && w < |g|
  }

  ghost predicate FacingNew(g: Adjacency, t: Scan, w: nat) {
    Facing(g, t, w) && t.index[w] == -1
  }

  /** What a visit leaves in place. */
  lemma VisitKeeps(g: Adjacency, t: Scan, w: nat)
    requires FacingNew(g, t, w)
    ensures var t' := Visit(t, w);
            && (forall i :: 0 <= i < |t.stack| ==> t'.stack[i] == t.stack[i] != w)
            && t'.stack[|t.stack|] == w && |t'.stack| == |t.stack| + 1
            && (forall k :: 0 <= k < |t.frames| ==> t'.frames[k].node == t.frames[k].node != w)
            && (forall k :: 0 <= k < |t.frames| - 1 ==> t'.frames[k] == t.frames[k])
            && t'.frames[|t.frames| - 1] == Frame(Top(t).node, Top(t).cursor + 1)
            && t'.frames[|t.frames|] == Frame(w, 0) && |t'.frames| == |t.frames| + 1
  {
  }

  lemma VisitSized(g: Adjacency, t: Scan, w: nat)
    requires FacingNew(g, t, w)
    ensures Sized(g, Visit(t, w))
  {
    VisitKeeps(g, t, w);
    var t' := Visit(t, w);
    forall k | 0 <= k < |t'.frames| ensures t'.frames[k].node in t'.stack {
      if k < |t.frames| {
        assert t.frames[k].node in t.stack;
        var i :| 0 <= i < |t.stack| && t.stack[i] == t.frames[k].node;
        assert t'.stack[i] == t'.frames[k].node;
      } else {
        assert t'.stack[|t.stack|] == w;
      }
    }
  }

  lemma VisitPartitioned(g: Adjacency, t: Scan, done: set<nat>, w: nat)
    requires FacingNew(g, t, w) && Partitioned(g, t, done)
    ensures Sized(g, Visit(t, w)) && Partitioned(g, Visit(t, w), done)
  {
    VisitSized(g, t, w);
    var t' := Visit(t, w);
    assert t'.stack == t.stack + [w];
  }

  lemma VisitOrdered(g: Adjacency, t: Scan, w: nat)
    requires FacingNew(g, t, w) && Ordered(g, t)
    ensures Sized(g, Visit(t, w)) && Ordered(g, Visit(t, w))
  {
    VisitSized(g, t, w);
    VisitKeeps(g, t, w);
  }

  lemma VisitUp(g: Adjacency, t: Scan, w: nat)
    requires FacingNew(g, t, w) && Ordered(g, t) && Up(g, t) && Down(g, t)
    ensures Up(g, Visit(t, w))
  {
    var t' := Visit(t, w);
    var v := Top(t).node;
    ReachEdge(g, v, w);
    ReachSelf(g, w);
    forall i: nat, j: nat | i <= j < |t'.stack| ensures UpAt(g, t', i, j) {
      if j < |t.stack| {
        assert UpAt(g, t, i, j) && t'.stack[i] == t.stack[i] && t'.stack[j] == t.stack[j];
      } else if i < |t.stack| {
        AllReachTop(g, t, i);
        ReachTrans(g, t.stack[i], v, w);
      }
    }
  }

  /** Homes of old entries do not change; the new entry is its own home. */
  lemma VisitHome(g: Adjacency, t: Scan, w: nat, i: nat, k: nat)
    requires FacingNew(g, t, w) && i <= |t.stack| && Home(Visit(t, w), (t.stack + [w])[i], k)
    ensures if i < |t.stack| then Home(t, t.stack[i], k) else k == |t.frames|
  {
    VisitKeeps(g, t, w);
    var t' := Visit(t, w);
    if i < |t.stack| {
      var x := t.stack[i];
      assert t'.stack[i] == x && x != w && t'.index[x] == t.index[x] < t.next;
      assert k < |t.frames|;
    }
  }

  lemma VisitDown(g: Adjacency, t: Scan, w: nat)
    requires FacingNew(g, t, w) && Down(g, t)
    ensures Down(g, Visit(t, w))
  {
    var t' := Visit(t, w);
    VisitKeeps(g, t, w);
    ReachSelf(g, w);
    forall i: nat, k: nat | i < |t'.stack| && Home(t', t'.stack[i], k) ensures DownAt(g, t', i, k) {
      VisitHome(g, t, w, i, k);
      assert DownAt(g, t, i, k);
    }
  }

  lemma VisitLow(g: Adjacency, t: Scan, w: nat)
    requires FacingNew(g, t, w) && Low(g, t)
    ensures Sized(g, Visit(t, w)) && Low(g, Visit(t, w))
  {
    var t' := Visit(t, w);
    VisitSized(g, t, w);
    VisitKeeps(g, t, w);
    ReachSelf(g, w);
    forall k | 0 <= k < |t'.frames| ensures LowAt(g, t', k) {
      if k < |t.frames| {
        assert LowAt(g, t, k);
        var v := t.frames[k].node;
        var i :| 0 <= i < |t.stack| && t.index[t.stack[i]] == t.low[v] && Reach(g, v, t.stack[i]);
        assert t'.stack[i] == t.stack[i] != w;
      }
    }
  }

  /** The only newly looked-at edge of an old entry leads to w. */
  lemma VisitLooked(g: Adjacency, t: Scan, w: nat, x: nat, j: nat)
    requires FacingNew(g, t, w) && x != w && Looked(g, Visit(t, w), x, j)
    ensures Looked(g, t, x, j) || g[x][j] == w
  {
    VisitKeeps(g, t, w);
    var t' := Visit(t, w);
    var n := |t.frames| - 1;
    if g[x][j] != w {
      forall m | 0 <= m < |t.frames| && t.frames[m].node == x ensures j < t.frames[m].cursor {
        assert t'.frames[m].node == x;
      }
    }
  }

  lemma VisitBoundAt(g: Adjacency, t: Scan, w: nat, i: nat, j: nat, k: nat)
    requires WellFormed(g) && FacingNew(g, t, w) && Bound(g, t) && Low(g, t) && i < |t.stack|
    requires Home(t, t.stack[i], k)
             && (Looked(g, t, t.stack[i], j) || (t.stack[i] < |g| && j < |g[t.stack[i]]| && g[t.stack[i]][j] == w))
    ensures var y := g[t.stack[i]][j];
            var t' := Visit(t, w);
            t'.index[y] >= 0 && (y in t'.stack ==> t'.low[t.frames[k].node] <= t'.index[y])
  {
    assert t.frames[k].node in t.stack && t.frames[k].node != w;
    assert LowAt(g, t, k) && BoundAt(g, t, i, j, k);
  }

  lemma VisitBound(g: Adjacency, t: Scan, w: nat)
    requires WellFormed(g) && FacingNew(g, t, w) && Bound(g, t) && Low(g, t)
    ensures Sized(g, Visit(t, w)) && Bound(g, Visit(t, w))
  {
    var t' := Visit(t, w);
    VisitSized(g, t, w);
    VisitKeeps(g, t, w);
    forall i: nat, j: nat, k: nat | i < |t'.stack| && Looked(g, t', t'.stack[i], j) && Home(t', t'.stack[i], k)
      ensures BoundAt(g, t', i, j, k)
    {
      VisitHome(g, t, w, i, k);
      if i < |t.stack| {
        VisitLooked(g, t, w, t.stack[i], j);
        VisitBoundAt(g, t, w, i, j, k);
      }
    }
  }

  lemma VisitInv(g: Adjacency, t: Scan, done: set<nat>, w: nat)
    requires Inv(g, t, done) && FacingNew(g, t, w)
    ensures Inv(g, Visit(t, w), done)
  {
    VisitPartitioned(g, t, done, w);
    VisitOrdered(g, t, w);
    VisitUp(g, t, w);
    VisitDown(g, t, w);
    VisitLow(g, t, w);
    VisitBound(g, t, w);
  }

  // ----- stepping over an edge to a visited vertex

  function Skip(t: Scan, w: nat): Scan
    requires t.frames != [] && w < |t.index| == |t.low| && Top(t).node < |t.low|
  {
    var n, v := |t.frames| - 1, Top(t).node;
    t.(low := if w in t.stack && t.index[w] < t.low[v] then t.low[v := t.index[w]] else t.low,
       frames := t.frames[..n] + [Frame(v, t.frames[n].cursor + 1)])
  }

  lemma SkipKeeps(g: Adjacency, t: Scan, w: nat)
    requires Facing(g, t, w)
    ensures var t' := Skip(t, w);
            && |t'.frames| == |t.frames| && t'.stack == t.stack && t'.index == t.index
            && (forall k :: 0 <= k < |t.frames| ==> t'.frames[k].node == t.frames[k].node)
            && (forall k :: 0 <= k < |t.frames| - 1 ==> t'.frames[k] == t.frames[k])
            && Top(t').cursor == Top(t).cursor + 1
            && Sized(g, t')
            && (forall v :: 0 <= v < |g| ==> t'.low[v] <= t.low[v])
            && (forall x, k: nat :: Home(t', x, k) <==> Home(t, x, k))
            && (w in t.stack ==> t'.low[Top(t).node] <= t.index[w])
  {
  }

  lemma SkipLow(g: Adjacency, t: Scan, w: nat)
    requires Facing(g, t, w) && Ordered(g, t) && Low(g, t)
    ensures Sized(g, Skip(t, w)) && Low(g, Skip(t, w))
  {
    SkipKeeps(g, t, w);
    var t' := Skip(t, w);
    var v := Top(t).node;
    forall k | 0 <= k < |t'.frames| ensures LowAt(g, t', k) {
      assert LowAt(g, t, k);
      if t'.low[t.frames[k].node] != t.low[t.frames[k].node] {
        assert t.frames[k].node == v;
        var i :| 0 <= i < |t.stack| && t.stack[i] == w;
        ReachEdge(g, v, w);
        assert t'.index[t'.stack[i]] == t'.low[v];
      }
    }
  }

  lemma SkipLooked(g: Adjacency, t: Scan, w: nat, x: nat, j: nat)
    requires Facing(g, t, w) && Looked(g, Skip(t, w), x, j)
    ensures Looked(g, t, x, j) || (x == Top(t).node && g[x][j] == w)
  {
    SkipKeeps(g, t, w);
    var t' := Skip(t, w);
    if !(x == Top(t).node && g[x][j] == w) {
      forall m | 0 <= m < |t.frames| && t.frames[m].node == x ensures j < t.frames[m].cursor {
        assert t'.frames[m].node == x;
      }
    }
  }

  lemma SkipBound(g: Adjacency, t: Scan, w: nat)
    requires WellFormed(g) && Facing(g, t, w) && Ordered(g, t) && Bound(g, t) && t.index[w] >= 0
    ensures Sized(g, Skip(t, w)) && Bound(g, Skip(t, w))
  {
    SkipKeeps(g, t, w);
    var t' := Skip(t, w);
    forall i: nat, j: nat, k: nat | i < |t'.stack| && Looked(g, t', t'.stack[i], j) && Home(t', t'.stack[i], k)
      ensures BoundAt(g, t', i, j, k)
    {
      SkipLooked(g, t, w, t.stack[i], j);
      assert Home(t, t.stack[i], k) && BoundAt(g, t, i, j, k);
      if !Looked(g, t, t.stack[i], j) {
        TopIsOwnHome(g, t, k);
      }
    }
  }

  lemma TopIsOwnHome(g: Adjacency, t: Scan, k: nat)
    requires Sized(g, t) && Ordered(g, t) && t.frames != [] && Home(t, Top(t).node, k)
    ensures k == |t.frames| - 1
  {
    FrameOrder(g, t, if k + 1 < |t.frames| then k + 1 else k, |t.frames| - 1);
  }

  lemma SkipInv(g: Adjacency, t: Scan, done: set<nat>, w: nat)
    requires Inv(g, t, done) && Facing(g, t, w) && t.index[w] >= 0
    ensures Inv(g, Skip(t, w), done)
  {
    SkipKeeps(g, t, w);
    var t' := Skip(t, w);
    forall i: nat, j: nat ensures UpAt(g, t', i, j) { assert UpAt(g, t, i, j); }
    forall i: nat, k: nat ensures DownAt(g, t', i, k) { assert DownAt(g, t, i, k); }
    SkipLow(g, t, w);
    SkipBound(g, t, w);
  }

  // ----- returning to the parent frame

  function LowerOf(a: int, b: int): int { if a < b then a else b }

  /** Leave the top frame, whose vertex is not the root of its component. */
  function Return(t: Scan): Scan
    requires |t.frames| > 1 && Top(t).node < |t.low| && t.frames[|t.frames| - 2].node < |t.low|
  {
    var n := |t.frames| - 1;
    var v, p := t.frames[n].node, t.frames[n - 1].node;
    t.(low := t.low[p := LowerOf(t.low[p], t.low[v])], frames := t.frames[..n])
  }

  ghost predicate Exhausted(g: Adjacency, t: Scan) {
    Sized(g, t) && t.frames != [] && Top(t).cursor == |g[Top(t).node]|
  }

  /** Only the root of the stack can have no frame below it. */
  lemma NotRootHasParent(g: Adjacency, t: Scan)
    requires Exhausted(g, t) && Ordered(g, t) && Low(g, t) && t.low[Top(t).node] < t.index[Top(t).node]
    ensures |t.frames| > 1
  {
    assert LowAt(g, t, |t.frames| - 1);
    var v := Top(t).node;
    var i :| 0 <= i < |t.stack| && t.index[t.stack[i]] == t.low[v] && Reach(g, v, t.stack[i]);
    assert t.index[t.stack[0]] <= t.index[t.stack[i]];
  }

  ghost predicate Returning(g: Adjacency, t: Scan) {
    && Exhausted(g, t) && Ordered(g, t) && |t.frames| > 1
    && t.low[Top(t).node] < t.index[Top(t).node]
  }

  lemma ReturnKeeps(g: Adjacency, t: Scan)
    requires Returning(g, t)
    ensures var t' := Return(t);
            && t'.stack == t.stack && t'.index == t.index && |t'.frames| == |t.frames| - 1
            && (forall k :: 0 <= k < |t'.frames| ==> t'.frames[k] == t.frames[k])
            && Sized(g, t') && Ordered(g, t')
            && (forall v :: 0 <= v < |g| ==> t'.low[v] <= t.low[v])
            && t'.low[Top(t').node] <= t.low[Top(t).node]
  {
  }

  /** After the return, entries at home in the left frame are at home in its parent. */
  lemma ReturnHome(g: Adjacency, t: Scan, x: nat, k: nat)
    requires Returning(g, t) && Home(Return(t), x, k)
    ensures Home(t, x, k) || (k == |t.frames| - 2 && Home(t, x, |t.frames| - 1))
  {
    ReturnKeeps(g, t);
  }

  lemma ReturnReaches(g: Adjacency, t: Scan)
    requires Returning(g, t) && Up(g, t) && Down(g, t) && Low(g, t)
    ensures Reach(g, Top(t).node, t.frames[|t.frames| - 2].node)
  {
    var n := |t.frames| - 1;
    var v, p := t.frames[n].node, t.frames[n - 1].node;
    assert LowAt(g, t, n);
    var i :| 0 <= i < |t.stack| && t.index[t.stack[i]] == t.low[v] && Reach(g, v, t.stack[i]);
    var q :| 0 <= q < |t.stack| && t.stack[q] == p;
    assert UpAt(g, t, i, q) && DownAt(g, t, i, n - 1);
    if i > q {
      assert Home(t, t.stack[i], n - 1);
    }
    ReachTrans(g, v, t.stack[i], p);
  }

  lemma ReturnDown(g: Adjacency, t: Scan)
    requires Returning(g, t) && Up(g, t) && Down(g, t) && Low(g, t)
    ensures Down(g, Return(t))
  {
    ReturnKeeps(g, t);
    ReturnReaches(g, t);
    var t' := Return(t);
    forall i: nat, k: nat | i < |t'.stack| && Home(t', t'.stack[i], k) ensures DownAt(g, t', i, k) {
      ReturnHome(g, t, t.stack[i], k);
      assert DownAt(g, t, i, k) && DownAt(g, t, i, |t.frames| - 1);
      if !Home(t, t.stack[i], k) {
        ReachTrans(g, t.stack[i], Top(t).node, t.frames[k].node);
      }
    }
  }

  lemma ReturnLow(g: Adjacency, t: Scan)
    requires Returning(g, t) && Up(g, t) && Low(g, t)
    ensures Sized(g, Return(t)) && Low(g, Return(t))
  {
    ReturnKeeps(g, t);
    var t' := Return(t);
    var n := |t.frames| - 1;
    var v, p := t.frames[n].node, t.frames[n - 1].node;
    forall k | 0 <= k < n ensures LowAt(g, t', k) {
      assert LowAt(g, t, k);
      if t'.low[t.frames[k].node] != t.low[t.frames[k].node] {
        assert LowAt(g, t, n);
        var i :| 0 <= i < |t.stack| && t.index[t.stack[i]] == t.low[v] && Reach(g, v, t.stack[i]);
        FramesReach(g, t, n - 1, n);
        ReachTrans(g, p, v, t.stack[i]);
      }
    }
  }

  lemma FramesReach(g: Adjacency, t: Scan, a: nat, b: nat)
    requires Sized(g, t) && Ordered(g, t) && Up(g, t) && a <= b < |t.frames|
    ensures Reach(g, t.frames[a].node, t.frames[b].node)
  {
    var i :| 0 <= i < |t.stack| && t.stack[i] == t.frames[a].node;
    var j :| 0 <= j < |t.stack| && t.stack[j] == t.frames[b].node;
    assert UpAt(g, t, i, j);
    FrameOrder(g, t, a, b);
    StackOrder(g, t, i, j);
    StackOrder(g, t, j, i);
  }

  lemma ReturnLooked(g: Adjacency, t: Scan, x: nat, j: nat)
    requires Returning(g, t) && Looked(g, Return(t), x, j)
    ensures Looked(g, t, x, j)
  {
    ReturnKeeps(g, t);
    var t' := Return(t);
    forall m | 0 <= m < |t.frames| && t.frames[m].node == x ensures j < t.frames[m].cursor {
      if m < |t.frames| - 1 { assert t'.frames[m].node == x; }
    }
  }

  lemma ReturnBoundAt(g: Adjacency, t: Scan, i: nat, j: nat, k: nat)
    requires WellFormed(g) && Returning(g, t) && Bound(g, t) && i < |t.stack|
    requires Looked(g, Return(t), t.stack[i], j) && Home(Return(t), t.stack[i], k)
    ensures var y := g[t.stack[i]][j];
            t.index[y] >= 0 && (y in t.stack ==> Return(t).low[t.frames[k].node] <= t.index[y])
  {
    ReturnKeeps(g, t);
    ReturnLooked(g, t, t.stack[i], j);
    ReturnHome(g, t, t.stack[i], k);
    assert BoundAt(g, t, i, j, k) && BoundAt(g, t, i, j, |t.frames| - 1);
  }

  lemma ReturnBound(g: Adjacency, t: Scan)
    requires WellFormed(g) && Returning(g, t) && Bound(g, t)
    ensures Sized(g, Return(t)) && Bound(g, Return(t))
  {
    ReturnKeeps(g, t);
    var t' := Return(t);
    forall i: nat, j: nat, k: nat | i < |t'.stack| && Looked(g, t', t'.stack[i], j) && Home(t', t'.stack[i], k)
      ensures BoundAt(g, t', i, j, k)
    {
      ReturnBoundAt(g, t, i, j, k);
    }
  }

  lemma ReturnInv(g: Adjacency, t: Scan, done: set<nat>)
    requires Inv(g, t, done) && Returning(g, t)
    ensures Inv(g, Return(t), done)
  {
    ReturnKeeps(g, t);
    forall i: nat, j: nat ensures UpAt(g, Return(t), i, j) { assert UpAt(g, t, i, j); }
    ReturnDown(g, t);
    ReturnLow(g, t);
    ReturnBound(g, t);
  }

  // ----- closing a component

  /** Leave the top frame, whose vertex sits at stack position q and is the root of its component. */
  function Close(t: Scan, q: nat): Scan
    requires t.frames != [] && q <= |t.stack|
  {
    t.(stack := t.stack[..q], frames := t.frames[..|t.frames| - 1])
  }

  ghost predicate Closing(g: Adjacency, t: Scan, q: nat) {
    && Exhausted(g, t) && Ordered(g, t)
    && t.low[Top(t).node] == t.index[Top(t).node] && q < |t.stack| && t.stack[q] == Top(t).node
  }

  /** The closed component: everything from the root upwards. */
  function Tail(t: Scan, q: nat): (c: set<nat>)
    requires q <= |t.stack|
    ensures forall v :: v in c <==> v in t.stack[q..]
  {
    set v | v in t.stack[q..]
  }

  lemma CloseKeeps(g: Adjacency, t: Scan, q: nat)
    requires Closing(g, t, q)
    ensures var t' := Close(t, q);
            && |t'.stack| == q && (forall i :: 0 <= i < q ==> t'.stack[i] == t.stack[i])
            && |t'.frames| == |t.frames| - 1 && (forall k :: 0 <= k < |t'.frames| ==> t'.frames[k] == t.frames[k])
            && (forall v :: v in t.stack <==> v in t'.stack || v in Tail(t, q))
            && (forall v :: v in t'.stack ==> v !in Tail(t, q))
  {
    assert t.stack == t.stack[..q] + t.stack[q..];
    forall v | v in t.stack[..q] ensures v !in t.stack[q..] {
      var i :| 0 <= i < q && t.stack[i] == v;
      forall j | q <= j < |t.stack| ensures t.stack[j] != v { assert t.index[t.stack[i]] < t.index[t.stack[j]]; }
    }
  }

  lemma CloseShape(g: Adjacency, t: Scan, q: nat)
    requires Closing(g, t, q)
    ensures Sized(g, Close(t, q)) && Ordered(g, Close(t, q))
  {
    CloseKeeps(g, t, q);
    var t' := Close(t, q);
    forall k | 0 <= k < |t'.frames| ensures t'.frames[k].node in t'.stack {
      var i :| 0 <= i < |t.stack| && t.stack[i] == t.frames[k].node;
      assert t.index[t.frames[k].node] < t.index[Top(t).node];
      assert i < q;
      assert t'.stack[i] == t.frames[k].node;
    }
    if |t.frames| == 1 {
      assert t.stack[0] == t.stack[q];
    } else {
      assert t.index[t.frames[0].node] < t.index[Top(t).node];
      assert q > 0;
    }
  }

  lemma CloseHome(g: Adjacency, t: Scan, q: nat, i: nat, k: nat)
    requires Closing(g, t, q) && i < q && Home(Close(t, q), t.stack[i], k)
    ensures Home(t, t.stack[i], k)
  {
    CloseKeeps(g, t, q);
    assert t.index[t.stack[i]] < t.index[t.stack[q]];
  }

  lemma CloseDown(g: Adjacency, t: Scan, q: nat)
    requires Closing(g, t, q) && Down(g, t)
    ensures Down(g, Close(t, q))
  {
    CloseKeeps(g, t, q);
    var t' := Close(t, q);
    forall i: nat, k: nat | i < |t'.stack| && Home(t', t'.stack[i], k) ensures DownAt(g, t', i, k) {
      CloseHome(g, t, q, i, k);
      assert DownAt(g, t, i, k);
    }
  }

  lemma CloseLow(g: Adjacency, t: Scan, q: nat)
    requires Closing(g, t, q) && Low(g, t)
    ensures Sized(g, Close(t, q)) && Low(g, Close(t, q))
  {
    CloseKeeps(g, t, q);
    CloseShape(g, t, q);
    var t' := Close(t, q);
    forall k | 0 <= k < |t'.frames| ensures LowAt(g, t', k) {
      assert LowAt(g, t, k);
      var v := t.frames[k].node;
      var i :| 0 <= i < |t.stack| && t.index[t.stack[i]] == t.low[v] && Reach(g, v, t.stack[i]);
      FrameOrder(g, t, k, |t.frames| - 1);
      StackOrder(g, t, i, q);
      assert t'.stack[i] == t.stack[i];
    }
  }

  lemma CloseLooked(g: Adjacency, t: Scan, q: nat, x: nat, j: nat)
    requires Closing(g, t, q) && Looked(g, Close(t, q), x, j)
    ensures Looked(g, t, x, j)
  {
    CloseKeeps(g, t, q);
    var t' := Close(t, q);
    forall m | 0 <= m < |t.frames| && t.frames[m].node == x ensures j < t.frames[m].cursor {
      if m < |t.frames| - 1 { assert t'.frames[m].node == x; }
    }
  }

  lemma CloseBound(g: Adjacency, t: Scan, q: nat)
    requires WellFormed(g) && Closing(g, t, q) && Bound(g, t)
    ensures Sized(g, Close(t, q)) && Bound(g, Close(t, q))
  {
    CloseKeeps(g, t, q);
    CloseShape(g, t, q);
    var t' := Close(t, q);
    forall i: nat, j: nat, k: nat | i < |t'.stack| && Looked(g, t', t'.stack[i], j) && Home(t', t'.stack[i], k)
      ensures BoundAt(g, t', i, j, k)
    {
      CloseBoundAt(g, t, q, i, j, k);
    }
  }

  lemma CloseBoundAt(g: Adjacency, t: Scan, q: nat, i: nat, j: nat, k: nat)
    requires WellFormed(g) && Closing(g, t, q) && Bound(g, t) && i < q
    requires Looked(g, Close(t, q), t.stack[i], j) && Home(Close(t, q), t.stack[i], k)
    ensures var y := g[t.stack[i]][j];
            t.index[y] >= 0 && (y in t.stack[..q] ==> t.low[t.frames[k].node] <= t.index[y])
  {
    CloseKeeps(g, t, q);
    CloseLooked(g, t, q, t.stack[i], j);
    CloseHome(g, t, q, i, k);
    assert BoundAt(g, t, i, j, k);
  }

  /** No edge leaves the component except into finished vertices. */
  lemma TailClosed(g: Adjacency, t: Scan, done: set<nat>, q: nat)
    requires WellFormed(g) && Closing(g, t, q) && Partitioned(g, t, done) && Bound(g, t) && ClosedSet(g, done)
    ensures ClosedSet(g, done + Tail(t, q))
  {
    forall v, y | v in done + Tail(t, q) && v < |g| && y in g[v] ensures y in done + Tail(t, q) {
      if v !in done { TailEdge(g, t, done, q, v, y); }
    }
  }

  lemma TailEdge(g: Adjacency, t: Scan, done: set<nat>, q: nat, v: nat, y: nat)
    requires WellFormed(g) && Closing(g, t, q) && Partitioned(g, t, done) && Bound(g, t)
    requires v in Tail(t, q) && v < |g| && y in g[v]
    ensures y in done + Tail(t, q)
  {
    var i :| q <= i < |t.stack| && t.stack[i] == v;
    var j :| 0 <= j < |g[v]| && g[v][j] == y;
    TailLooked(g, t, q, i, j);
    assert BoundAt(g, t, i, j, |t.frames| - 1);
    if y !in done {
      var m :| 0 <= m < |t.stack| && t.stack[m] == y;
      StackOrder(g, t, m, q);
      assert t.stack[q..][m - q] == y;
    }
  }

  lemma TailLooked(g: Adjacency, t: Scan, q: nat, i: nat, j: nat)
    requires Closing(g, t, q) && q <= i < |t.stack| && j < |g[t.stack[i]]|
    ensures Looked(g, t, t.stack[i], j) && Home(t, t.stack[i], |t.frames| - 1)
  {
    StackOrder(g, t, q, i);
    forall m | 0 <= m < |t.frames| && t.frames[m].node == t.stack[i] ensures j < t.frames[m].cursor {
      FrameOrder(g, t, m, |t.frames| - 1);
    }
  }

  lemma ClosePartitioned(g: Adjacency, t: Scan, done: set<nat>, q: nat)
    requires Closing(g, t, q) && Partitioned(g, t, done)
    ensures Sized(g, Close(t, q)) && Partitioned(g, Close(t, q), done + Tail(t, q))
  {
    CloseKeeps(g, t, q);
    CloseShape(g, t, q);
  }

  lemma CloseInv(g: Adjacency, t: Scan, done: set<nat>, q: nat)
    requires Inv(g, t, done) && Closing(g, t, q)
    ensures Inv(g, Close(t, q), done + Tail(t, q))
  {
    CloseKeeps(g, t, q);
    CloseShape(g, t, q);
    ClosePartitioned(g, t, done, q);
    forall i: nat, j: nat ensures UpAt(g, Close(t, q), i, j) { assert UpAt(g, t, i, j); }
    CloseDown(g, t, q);
    CloseLow(g, t, q);
    CloseBound(g, t, q);
    TailClosed(g, t, done, q);
  }

  /** What is closed is exactly the strongly connected component of its root. */
  lemma TailIsClass(g: Adjacency, t: Scan, done: set<nat>, q: nat)
    requires Inv(g, t, done) && Closing(g, t, q)
    ensures Tail(t, q) == Class(g, Top(t).node)
  {
    var v := Top(t).node;
    TailClosed(g, t, done, q);
    forall x | x in Tail(t, q) ensures x in Class(g, v) {
      var i :| q <= i < |t.stack| && t.stack[i] == x;
      AllReachTop(g, t, i);
      assert UpAt(g, t, q, i);
    }
    forall x | x in Class(g, v) ensures x in Tail(t, q) {
      assert t.stack[q..][0] == v;
      ClosedReach(g, done + Tail(t, q), v, x);
      if x in done { ClosedReach(g, done, x, v); }
    }
  }
}
