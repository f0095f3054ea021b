/** The strongly-connected-component scan of the topology builder, with its explicit frame stack. */
module Tarjan {
  import opened Reachability
  import opened Components

  /** Vertices not visited yet. */
  ghost function Unvisited(t: Scan): set<nat> { set v | 0 <= v < |t.index| && t.index[v] == -1 }

  ghost function Remaining(g: Adjacency, t: Scan): int {
    if t.frames == [] || Top(t).node >= |g| then 0 else |g[Top(t).node]| - Top(t).cursor
  }

  /** Finished vertices carry their final mark, others none; `classes` holds the cyclic components of the
      finished vertices. */
  ghost predicate Marked(g: Adjacency, done: set<nat>, marks: seq<bool>, classes: set<set<nat>>) {
    && |marks| == |g|
    && (forall v :: 0 <= v < |g| ==> (marks[v] <==> v in done && OnCycle(g, v)))
    && (forall c :: c in classes ==> exists v :: v in done && OnCycle(g, v) && c == Class(g, v))
    && (forall v :: v in done && OnCycle(g, v) ==> Class(g, v) in classes)
  }

  lemma MarkedAll(g: Adjacency, done: set<nat>, marks: seq<bool>, classes: set<set<nat>>)
    requires Marked(g, done, marks, classes) && (forall v :: v in done <==> 0 <= v < |g|)
    ensures classes == CyclicClasses(g)
  {
    forall c ensures c in classes <==> c in CyclicClasses(g) {
      if c in classes {
        var v :| v in done && OnCycle(g, v) && c == Class(g, v);
      }
      if c in CyclicClasses(g) {
        var v :| 0 <= v < |g| && OnCycle(g, v) && c == Class(g, v);
        assert v in done;
      }
    }
  }

  /** Finishing a whole component extends the marks by its members when it is cyclic. */
  lemma MarkClass(
    g: Adjacency, done: set<nat>, marks: seq<bool>, classes: set<set<nat>>, v: nat, marks': seq<bool>, cyclic: bool)
    requires WellFormed(g) && Marked(g, done, marks, classes) && v < |g| && v !in done
    requires forall x :: x in Class(g, v) ==> x !in done
    requires cyclic <==> v in g[v] || exists w :: w in Class(g, v) && w != v
    requires |marks'| == |g| && forall x :: 0 <= x < |g| ==> (marks'[x] <==> marks[x] || (cyclic && x in Class(g, v)))
    ensures Marked(g, done + Class(g, v), marks', if cyclic then classes + {Class(g, v)} else classes)
    ensures Class(g, v) !in classes
  {
    ReachSelf(g, v);
    CycleMeansClass(g, v);
    forall x | x in Class(g, v) ensures OnCycle(g, x) == cyclic && Class(g, x) == Class(g, v) {
      SameClass(g, v, x);
      CycleMeansClass(g, x);
    }
    assert v in Class(g, v);
  }

  /** Pop the component whose root is v; `scratch` lists what was popped. */
  method PopComponent(stack: seq<nat>, onStack: array<bool>, v: nat) returns (rest: seq<nat>, scratch: seq<nat>)
    requires v in stack && forall i, j :: 0 <= i < j < |stack| ==> stack[i] != stack[j]
    requires forall i :: 0 <= i < |stack| ==> stack[i] < onStack.Length
    modifies onStack
    ensures rest <= stack && |rest| < |stack| && stack[|rest|] == v && |scratch| == |stack| - |rest|
    ensures forall x :: x in scratch <==> x in stack[|rest|..]
    ensures forall x :: 0 <= x < onStack.Length ==> onStack[x] == (old(onStack[x]) && x !in stack[|rest|..])
  {
    rest, scratch := stack, [];
    var member;
    ghost var q :| 0 <= q < |stack| && stack[q] == v;
    while true
      invariant q < |rest| <= |stack| && rest == stack[..|rest|] && |scratch| == |stack| - |rest|
      invariant forall x :: x in scratch <==> x in stack[|rest|..]
      invariant forall x :: 0 <= x < onStack.Length ==> onStack[x] == (old(onStack[x]) && x !in stack[|rest|..])
      decreases |rest|
    {
      var n := |rest| - 1;
      member := rest[n];
      assert stack[n..] == [stack[n]] + stack[n + 1..];
      rest := rest[..n];
      onStack[member] := false;
      scratch := scratch + [member];
      if member == v { break; }
    }
  }

  /** Mark every member of a cyclic component. */
  method MarkMembers(inCycle: array<bool>, scratch: seq<nat>)
    requires forall i :: 0 <= i < |scratch| ==> scratch[i] < inCycle.Length
    modifies inCycle
    ensures forall x :: 0 <= x < inCycle.Length ==> inCycle[x] == (old(inCycle[x]) || x in scratch)
  {
    for k := 0 to |scratch|
      invariant forall x :: 0 <= x < inCycle.Length ==> inCycle[x] == (old(inCycle[x]) || x in scratch[..k])
    {
      inCycle[scratch[k]] := true;
    }
    assert scratch[..|scratch|] == scratch;
  }

  class Scanner {
    const index: array<int>
    const low: array<int>
    const onStack: array<bool>
    const inCycle: array<bool>
    var stack: seq<nat>
    var frames: seq<Frame>
    var next: nat
    var count: nat
    ghost var done: set<nat>
    ghost var classes: set<set<nat>>

    ghost function View(): Scan
      reads this, index, low
    {
      Scan(index[..], low[..], stack, frames, next)
    }

    /** The tables have one slot per vertex and do not alias. */
    ghost predicate Laid(n: nat) {
      && index != low && onStack != inCycle
      && index.Length == n && low.Length == n && onStack.Length == n && inCycle.Length == n
    }

    ghost predicate Flagged()
      reads this, onStack
    {
      forall v :: 0 <= v < onStack.Length ==> (onStack[v] <==> v in stack)
    }

    ghost predicate Valid(g: Adjacency)
      reads this, index, low, onStack, inCycle
    {
      && Laid(|g|) && Inv(g, View(), done) && Flagged()
      && Marked(g, done, inCycle[..], classes) && count == |classes|
    }

    constructor (g: Adjacency)
      requires WellFormed(g)
      ensures Valid(g) && frames == [] && fresh(index) && fresh(low) && fresh(onStack) && fresh(inCycle)
      ensures forall v :: 0 <= v < |g| ==> index[v] == -1
    {
      index := new int[|g|](_ => -1);
      low := new int[|g|](_ => 0);
      onStack := new bool[|g|](_ => false);
      inCycle := new bool[|g|](_ => false);
      stack, frames, next, count := [], [], 0, 0;
      done, classes := {}, {};
    }

    method EnterRoot(g: Adjacency, root: nat)
      requires Valid(g) && frames == [] && root < |g| && index[root] == -1
      modifies this`stack, this`frames, this`next, index, low, onStack
      ensures Valid(g) && View() == Begin(old(View()), root)
    {
      BeginInv(g, View(), done, root);
      Number(root);
      frames := frames + [Frame(root, 0)];
      assert View() == Begin(old(View()), root);
    }

    /** Give a vertex the next index and stack it. */
    method Number(w: nat)
      requires Laid(index.Length) && w < index.Length && Flagged()
      modifies this`stack, this`next, index, low, onStack
      ensures index[..] == old(index[..])[w := old(next)] && low[..] == old(low[..])[w := old(next)]
      ensures next == old(next) + 1 && stack == old(stack) + [w] && Flagged()
    {
      index[w], low[w] := next, next;
      next := next + 1;
      stack := stack + [w];
      onStack[w] := true;
    }

    /** Step over the edge under the top cursor to an unvisited vertex. */
    method Descend(g: Adjacency, w: nat)
      requires Valid(g) && FacingNew(g, View(), w)
      modifies this`stack, this`frames, this`next, index, low, onStack
      ensures Valid(g) && View() == Visit(old(View()), w)
    {
      VisitInv(g, View(), done, w);
      PushFrame(w);
    }

    method PushFrame(w: nat)
      requires Laid(index.Length) && w < index.Length && Flagged() && frames != []
      modifies this`stack, this`frames, this`next, index, low, onStack
      ensures View() == Visit(old(View()), w) && Flagged()
    {
      var n := |frames| - 1;
      Number(w);
      frames := frames[..n] + [Frame(frames[n].node, frames[n].cursor + 1), Frame(w, 0)];
    }

    /** Step over the edge under the top cursor to a visited vertex. */
    method Skim(g: Adjacency, w: nat)
      requires Valid(g) && Facing(g, View(), w) && index[w] != -1
      modifies this`frames, low
      ensures Valid(g) && View() == Skip(old(View()), w)
    {
      SkipInv(g, View(), done, w);
      MoveCursor(w);
    }

    method MoveCursor(w: nat)
      requires Laid(index.Length) && w < index.Length && Flagged() && frames != []
               && frames[|frames| - 1].node < index.Length
      modifies this`frames, low
      ensures View() == Skip(old(View()), w)
    {
      var n := |frames| - 1;
      var v := frames[n].node;
      if onStack[w] && index[w] < low[v] { low[v] := index[w]; }
      frames := frames[..n] + [Frame(v, frames[n].cursor + 1)];
    }

    /** Leave an exhausted frame; close the component when its vertex is a root. */
    method Retreat(g: Adjacency, selfLoop: seq<bool>)
      requires Valid(g) && Exhausted(g, View()) && LoopsOf(g, selfLoop)
      modifies this, index, low, onStack, inCycle
      ensures Valid(g) && |frames| == |old(frames)| - 1 && index[..] == old(index[..])
    {
      ghost var t := View();
      RetreatFacts(g, t);
      var v := PopFrame();
      if low[v] == index[v] {
        CloseTop(g, selfLoop, t, v);
      } else {
        ReturnInv(g, t, done);
      }
    }

    /** Pop the top frame and hand its low link to the frame below. */
    method PopFrame() returns (v: nat)
      requires Laid(index.Length) && frames != [] && forall k :: 0 <= k < |frames| ==> frames[k].node < index.Length
      modifies this`frames, low
      ensures v == old(frames[|frames| - 1].node)
      ensures View() == Popped(old(View()))
    {
      var n := |frames| - 1;
      v := frames[n].node;
      frames := frames[..n];
      if n > 0 {
        var parent := frames[n - 1].node;
        if low[v] < low[parent] { low[parent] := low[v]; }
      }
      assert View() == Popped(old(View()));
    }

    method CloseTop(g: Adjacency, selfLoop: seq<bool>, ghost t: Scan, v: nat)
      requires Laid(|g|) && Inv(g, t, done) && Flagged() && Marked(g, done, inCycle[..], classes) && count == |classes|
      requires LoopsOf(g, selfLoop) && Exhausted(g, t) && v == Top(t).node && t.low[v] == t.index[v]
      requires t.frames != [] && View() == t.(frames := t.frames[..|t.frames| - 1])
      modifies this`stack, this`count, this`done, this`classes, onStack, inCycle
      ensures Valid(g)
    {
      ghost var before := inCycle[..];
      ghost var q, cyclic := PopTop(g, selfLoop, t, v);
      ClosedFacts(g, t, q, before, cyclic);
      Retire(g, Close(t, q), done + Tail(t, q), if cyclic then classes + {Class(g, v)} else classes);
    }

    /** What a popped component leaves behind. */
    lemma ClosedFacts(g: Adjacency, t: Scan, q: nat, before: seq<bool>, cyclic: bool)
      requires Laid(|g|) && Inv(g, t, done) && Closing(g, t, q) && Marked(g, done, before, classes)
      requires cyclic <==> |t.stack| - q > 1 || Top(t).node in g[Top(t).node]
      requires forall x :: 0 <= x < |g| ==> (inCycle[x] <==> before[x] || (cyclic && x in t.stack[q..]))
      ensures var v := Top(t).node;
              && Inv(g, Close(t, q), done + Tail(t, q)) && Class(g, v) !in classes
              && Marked(g, done + Tail(t, q), inCycle[..], if cyclic then classes + {Class(g, v)} else classes)
    {
      CloseFacts(g, t, done, q, before, inCycle[..], classes, cyclic);
    }

    /** Account for a closed component. */
    ghost method Retire(g: Adjacency, t: Scan, done': set<nat>, classes': set<set<nat>>)
      requires Laid(|g|) && Inv(g, t, done') && View() == t && Flagged()
      requires Marked(g, done', inCycle[..], classes') && count == |classes'|
      modifies this`done, this`classes
      ensures Valid(g)
    {
      done, classes := done', classes';
    }

    /** One iteration of the search: follow the edge under the top cursor, or leave the top frame. */
    method Advance(g: Adjacency, selfLoop: seq<bool>)
      requires Valid(g) && LoopsOf(g, selfLoop) && frames != []
      modifies this, index, low, onStack, inCycle
      ensures Valid(g) && Visits(old(index[..]), index[..]) && Progress(g, old(View()), View())
    {
      ghost var t := View();
      var top := frames[|frames| - 1];
      if top.cursor < |g[top.node]| {
        var w := g[top.node][top.cursor];
        if index[w] == -1 {
          VisitProgress(g, t, w);
          Descend(g, w);
        } else {
          SkipProgress(g, t, w);
          Skim(g, w);
        }
      } else {
        Retreat(g, selfLoop);
      }
    }

    /** Search from a root that has not been visited. */
    method VisitRoot(g: Adjacency, selfLoop: seq<bool>, root: nat)
      requires Valid(g) && LoopsOf(g, selfLoop) && frames == [] && root < |g|
      modifies this, index, low, onStack, inCycle
      ensures Valid(g) && frames == [] && Visits(old(index[..]), index[..]) && index[root] != -1
    {
      if index[root] == -1 {
        EnterRoot(g, root);
        Explore(g, selfLoop);
      }
    }

    /** Run the depth-first search from the stacked root until its frames are gone. */
    method Explore(g: Adjacency, selfLoop: seq<bool>)
      requires Valid(g) && LoopsOf(g, selfLoop)
      modifies this, index, low, onStack, inCycle
      ensures Valid(g) && frames == [] && Visits(old(index[..]), index[..])
    {
      while frames != []
        invariant Valid(g) && Visits(old(index[..]), index[..])
        decreases Unvisited(View()), |frames|, Remaining(g, View())
      {
        ghost var was := index[..];
        Advance(g, selfLoop);
        VisitsTrans(old(index[..]), was, index[..]);
      }
    }

    /** Pop the component of the top vertex, whose stack has no repetitions. */
    method PopTop(g: Adjacency, selfLoop: seq<bool>, ghost t: Scan, v: nat) returns (ghost q: nat, ghost cyclic: bool)
      requires Laid(|g|) && Flagged() && v < |selfLoop| && Sized(g, t) && Ordered(g, t) && stack == t.stack
               && v in stack
      modifies this`stack, this`count, onStack, inCycle
      ensures q < |t.stack| && stack == t.stack[..q] && t.stack[q] == v && Flagged()
      ensures View() == old(View()).(stack := t.stack[..q])
      ensures cyclic <==> |t.stack| - q > 1 || selfLoop[v]
      ensures count == old(count) + if cyclic then 1 else 0
      ensures forall x :: 0 <= x < inCycle.Length ==> (inCycle[x] <==> old(inCycle[x]) || (cyclic && x in t.stack[q..]))
    {
      StackDistinct(g, t);
      q, cyclic := PopAndMark(selfLoop, v);
    }

    /** Pop the component of v and mark its members when it is cyclic. */
    method PopAndMark(selfLoop: seq<bool>, v: nat) returns (ghost q: nat, ghost cyclic: bool)
      requires Laid(index.Length) && Flagged() && v in stack && v < |selfLoop|
      requires forall i, j :: 0 <= i < j < |stack| ==> stack[i] != stack[j]
      requires forall i :: 0 <= i < |stack| ==> stack[i] < index.Length
      modifies this`stack, this`count, onStack, inCycle
      ensures q < |old(stack)| && stack == old(stack)[..q] && old(stack)[q] == v && Flagged()
      ensures View() == old(View()).(stack := old(stack)[..q])
      ensures cyclic <==> |old(stack)| - q > 1 || selfLoop[v]
      ensures count == old(count) + if cyclic then 1 else 0
      ensures forall x :: 0 <= x < inCycle.Length ==>
              (inCycle[x] <==> old(inCycle[x]) || (cyclic && x in old(stack)[q..]))
    {
      var rest, scratch := PopComponent(stack, onStack, v);
      q, cyclic := |rest|, |scratch| > 1 || selfLoop[v];
      if |scratch| > 1 || selfLoop[v] {
        count := count + 1;
        forall i | 0 <= i < |scratch| ensures scratch[i] < inCycle.Length {
          assert scratch[i] in stack[q..];
        }
        MarkMembers(inCycle, scratch);
      }
      SplitDistinct(stack, q);
      stack := rest;
    }
  }

  /** Visited vertices stay visited. */
  ghost predicate Visits(before: seq<int>, after: seq<int>) {
    |before| == |after| && forall v :: 0 <= v < |before| && before[v] != -1 ==> after[v] != -1
  }

  lemma VisitsTrans(a: seq<int>, b: seq<int>, c: seq<int>)
    requires Visits(a, b) && Visits(b, c)
    ensures Visits(a, c)
  {
  }

  /** Fewer unvisited vertices, or as many and fewer frames, or as many of both and a shorter top row. */
  ghost predicate Progress(g: Adjacency, t: Scan, t': Scan) {
    || Unvisited(t') < Unvisited(t)
    || (Unvisited(t') == Unvisited(t)
        && (|t'.frames| < |t.frames| || (|t'.frames| == |t.frames| && 0 <= Remaining(g, t') < Remaining(g, t))))
  }

  lemma VisitProgress(g: Adjacency, t: Scan, w: nat)
    requires t.frames != [] && w < |t.index| == |t.low| && t.index[w] == -1
    ensures Progress(g, t, Visit(t, w)) && Visits(t.index, Visit(t, w).index)
  {
    assert w in Unvisited(t) && w !in Unvisited(Visit(t, w));
  }

  lemma SkipProgress(g: Adjacency, t: Scan, w: nat)
    requires Facing(g, t, w)
    ensures Progress(g, t, Skip(t, w)) && Skip(t, w).index == t.index
  {
    SkipKeeps(g, t, w);
  }

  /** The scan marks exactly the vertices on a directed cycle, self-loops included, and counts the cyclic
      strongly connected components. */
  method FindCycles(g: Adjacency, selfLoop: seq<bool>) returns (marks: seq<bool>, count: nat)
    requires WellFormed(g) && LoopsOf(g, selfLoop)
    ensures |marks| == |g| && forall v :: 0 <= v < |g| ==> (marks[v] <==> OnCycle(g, v))
    ensures count == |CyclicClasses(g)|
  {
    var s := new Scanner(g);
    for root := 0 to |g|
      invariant s.Valid(g) && s.frames == [] && fresh(s.index) && fresh(s.low) && fresh(s.onStack) && fresh(s.inCycle)
      invariant SeenBelow(s.index[..], root)
    {
      ghost var was := s.index[..];
      s.VisitRoot(g, selfLoop, root);
      SeenGrows(was, s.index[..], root);
    }
    marks, count := s.inCycle[..], s.count;
    Concluded(g, s.View(), s.done, marks, s.classes);
  }

  ghost predicate SeenBelow(index: seq<int>, n: nat) { forall v :: 0 <= v < n && v < |index| ==> index[v] != -1 }

  lemma SeenGrows(before: seq<int>, after: seq<int>, root: nat)
    requires SeenBelow(before, root) && Visits(before, after) && root < |after| && after[root] != -1
    ensures SeenBelow(after, root + 1)
  {
  }

  lemma Concluded(g: Adjacency, t: Scan, done: set<nat>, marks: seq<bool>, classes: set<set<nat>>)
    requires Inv(g, t, done) && t.frames == [] && SeenBelow(t.index, |g|) && Marked(g, done, marks, classes)
    ensures |marks| == |g| && classes == CyclicClasses(g) && forall v :: 0 <= v < |g| ==> (marks[v] <==> OnCycle(g, v))
  {
    AllDone(g, t, done);
    MarkedAll(g, done, marks, classes);
  }

  lemma AllDone(g: Adjacency, t: Scan, done: set<nat>)
    requires Inv(g, t, done) && t.frames == [] && forall v :: 0 <= v < |g| ==> t.index[v] != -1
    ensures forall v :: v in done <==> 0 <= v < |g|
  {
  }

  lemma SplitDistinct(s: seq<nat>, q: nat)
    requires q <= |s| && forall i, j :: 0 <= i < j < |s| ==> s[i] != s[j]
    ensures forall x :: x in s[..q] ==> x !in s[q..]
    ensures forall x :: x in s <==> x in s[..q] || x in s[q..]
  {
    assert s == s[..q] + s[q..];
    forall x | x in s[..q] ensures x !in s[q..] {
      var i :| 0 <= i < q && s[i] == x;
      forall j | q <= j < |s| ensures s[j] != x { assert s[i] != s[j]; }
    }
  }

  ghost predicate LoopsOf(g: Adjacency, selfLoop: seq<bool>) {
    |selfLoop| == |g| && forall v :: 0 <= v < |g| ==> (selfLoop[v] <==> v in g[v])
  }

  /** The tables after the top frame handed its low link to the frame below. */
  function Popped(t: Scan): Scan
    requires t.frames != [] && |t.index| == |t.low| && forall k :: 0 <= k < |t.frames| ==> t.frames[k].node < |t.low|
  {
    if |t.frames| > 1 then Return(t) else t.(frames := [])
  }

  /** Handing over the low link changes nothing when the left vertex is a component root, and otherwise
      there is a frame below. */
  lemma RetreatFacts(g: Adjacency, t: Scan)
    requires Exhausted(g, t) && Ordered(g, t) && Low(g, t)
    ensures var v := Top(t).node;
            && t.low[v] <= t.index[v] && Popped(t).low[v] == t.low[v]
            && (t.low[v] == t.index[v] ==> Popped(t) == t.(frames := t.frames[..|t.frames| - 1]))
            && (t.low[v] < t.index[v] ==> Returning(g, t) && Popped(t) == Return(t))
  {
    var n := |t.frames| - 1;
    assert LowAt(g, t, n);
    if t.low[Top(t).node] < t.index[Top(t).node] { NotRootHasParent(g, t); }
    if n > 0 {
      assert LowAt(g, t, n - 1);
      FrameOrder(g, t, n - 1, n);
    }
  }

  lemma CloseFacts(
    g: Adjacency, t: Scan, done: set<nat>, q: nat, marks: seq<bool>, marks': seq<bool>, classes: set<set<nat>>,
    cyclic: bool)
    requires Inv(g, t, done) && Closing(g, t, q) && Marked(g, done, marks, classes) && |marks'| == |g|
    requires cyclic <==> |t.stack| - q > 1 || Top(t).node in g[Top(t).node]
    requires forall x :: 0 <= x < |g| ==> (marks'[x] <==> marks[x] || (cyclic && x in t.stack[q..]))
    ensures Inv(g, Close(t, q), done + Tail(t, q))
    ensures Marked(g, done + Tail(t, q), marks', if cyclic then classes + {Class(g, Top(t).node)} else classes)
    ensures Class(g, Top(t).node) !in classes
  {
    var v := Top(t).node;
    TailIsClass(g, t, done, q);
    CloseInv(g, t, done, q);
    TailSize(g, t, q, v);
    TailFresh(g, t, done, q);
    MarkClass(g, done, marks, classes, v, marks', cyclic);
  }

  lemma TailFresh(g: Adjacency, t: Scan, done: set<nat>, q: nat)
    requires Closing(g, t, q) && Partitioned(g, t, done)
    ensures forall x :: x in Tail(t, q) ==> x !in done
    ensures Top(t).node in Tail(t, q)
  {
    CloseKeeps(g, t, q);
    assert t.stack[q..][0] == Top(t).node;
  }

  lemma StackDistinct(g: Adjacency, t: Scan)
    requires Sized(g, t) && Ordered(g, t)
    ensures forall i, j :: 0 <= i < j < |t.stack| ==> t.stack[i] != t.stack[j]
  {
    forall i, j | 0 <= i < j < |t.stack| ensures t.stack[i] != t.stack[j] { StackOrder(g, t, i, j); }
  }

  /** A component of more than one stack entry has a member besides its root, and conversely. */
  lemma TailSize(g: Adjacency, t: Scan, q: nat, v: nat)
    requires Closing(g, t, q) && v == Top(t).node
    ensures |t.stack| - q > 1 <==> exists w :: w in Tail(t, q) && w != v
  {
    if |t.stack| - q > 1 {
      StackOrder(g, t, q, q + 1);
      assert t.stack[q..][1] == t.stack[q + 1];
      assert t.stack[q + 1] in Tail(t, q);
    }
  }
}
