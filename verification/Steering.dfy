/** The priority queue as a deterministic structure: among entries that tie, what it yields is some function of
    everything that was pushed and popped before. */
module Steering {
  import opened Traversal

  /** The contents of the queue each time it was looked at, oldest first. */
  type History = seq<seq<Entry>>

  /** How ties are broken: the position to pop, given the history up to and including the present contents. */
  type Picker = History -> nat

  /** Whatever the history, the entry picked is one no other entry outranks. */
  ghost predicate Fair(pick: Picker) {
    forall h: History :: h != [] && h[|h| - 1] != [] ==> Maximal(h[|h| - 1], pick(h))
  }

  /** The first entry that no other outranks. */
  function FirstTop(queue: seq<Entry>): (i: nat)
    ensures queue != [] ==> i < |queue|
  {
    var n := |queue| - 1;
    if n <= 0 then 0
    else
      var i := FirstTop(queue[..n]);
      if Below(queue[i], queue[n]) then n else i
  }

  lemma {:induction false} FirstTopIsMaximal(queue: seq<Entry>)
    requires queue != []
    ensures Maximal(queue, FirstTop(queue))
  {
    var n := |queue| - 1;
    if n > 0 {
      var i := FirstTop(queue[..n]);
      FirstTopIsMaximal(queue[..n]);
      forall j | 0 <= j < n ensures !Below(queue[i], queue[j]) { assert queue[..n][j] == queue[j]; }
    }
  }

  /** Fair pickers exist. */
  lemma FirstTopIsFair()
    ensures Fair((h: History) => if h == [] then 0 else FirstTop(h[|h| - 1]))
  {
    forall h: History | h != [] && h[|h| - 1] != [] ensures Maximal(h[|h| - 1], FirstTop(h[|h| - 1])) {
      FirstTopIsMaximal(h[|h| - 1]);
    }
  }

  /** The queue contents a run went through when it selected. */
  function Seen(run: seq<State>): History {
    if run == [] then []
    else
      var front, s := Seen(run[..|run| - 1]), run[|run| - 1];
      if s.mode.Selecting? then front + [s.queue] else front
  }

  lemma SeenSnoc(run: seq<State>, s: State)
    ensures Seen(run + [s]) == if s.mode.Selecting? then Seen(run) + [s.queue] else Seen(run)
  {
    assert (run + [s])[..|run|] == run;
  }

  /** Step k is a step of the machine that pops what the picker says. */
  ghost predicate SteeredAt(c: Context, pick: Picker, run: seq<State>, k: nat)
    requires 0 < k < |run|
  {
    var s := run[k - 1];
    && Follows(c, s, run[k])
    && (s.mode.Selecting? && s.queue != [] ==>
          pick(Seen(run[..k])) < |s.queue| && run[k] == Step(c, s, pick(Seen(run[..k]))))
  }

  /** A run in which every tie is broken by the picker. */
  ghost predicate Steered(c: Context, pick: Picker, run: seq<State>) {
    && run != [] && Start(c).Ok? && run[0] == Start(c).value
    && forall k :: 0 < k < |run| ==> SteeredAt(c, pick, run, k)
  }

  lemma SteeredIsRun(c: Context, pick: Picker, run: seq<State>)
    requires Steered(c, pick, run)
    ensures IsRun(c, run)
  {
    forall k | 0 < k < |run| ensures FollowsAt(c, run, k) { assert SteeredAt(c, pick, run, k); }
  }

  lemma SteeredGrows(c: Context, pick: Picker, run: seq<State>, s: State)
    requires Steered(c, pick, run) && Follows(c, Final(run), s)
    requires Final(run).mode.Selecting? && Final(run).queue != [] ==>
               pick(Seen(run)) < |Final(run).queue| && s == Step(c, Final(run), pick(Seen(run)))
    ensures Steered(c, pick, run + [s]) && Final(run + [s]) == s
  {
    var more := run + [s];
    forall k | 0 < k < |more| ensures SteeredAt(c, pick, more, k) {
      if k < |run| {
        assert SteeredAt(c, pick, run, k);
        assert more[..k] == run[..k];
      } else {
        assert more[..k] == run;
      }
    }
  }

  lemma NextAgrees(c: Context, pick: Picker, r: seq<State>, t: seq<State>, k: nat)
    requires Steered(c, pick, r) && Steered(c, pick, t) && 0 < k < |r| && k < |t| && r[..k] == t[..k]
    ensures r[k] == t[k]
  {
    assert r[k - 1] == r[..k][k - 1] == t[k - 1];
    assert SteeredAt(c, pick, r, k) && SteeredAt(c, pick, t, k);
    SameNext(c, pick, r, t, k);
  }

  lemma SameNext(c: Context, pick: Picker, r: seq<State>, t: seq<State>, k: nat)
    requires 0 < k < |r| && k < |t| && r[k - 1] == t[k - 1] && r[..k] == t[..k]
    requires SteeredAt(c, pick, r, k) && SteeredAt(c, pick, t, k)
    ensures r[k] == t[k]
  {
  }

  lemma {:induction false} PrefixesAgree(c: Context, pick: Picker, r: seq<State>, t: seq<State>, k: nat)
    requires Steered(c, pick, r) && Steered(c, pick, t) && k <= |r| && k <= |t|
    ensures r[..k] == t[..k]
  {
    if k > 0 {
      PrefixesAgree(c, pick, r, t, k - 1);
      if k > 1 { NextAgrees(c, pick, r, t, k - 1); }
      assert r[..k] == r[..k - 1] + [r[k - 1]] && t[..k] == t[..k - 1] + [t[k - 1]];
    }
  }

  /** Nothing follows a finished state. */
  lemma EndsOnce(c: Context, pick: Picker, run: seq<State>, n: nat)
    requires Steered(c, pick, run) && 0 < n <= |run|
    ensures run[n - 1].mode.Finished? ==> n == |run|
  {
    var k: nat := if n < |run| then n else |run| - 1;
    assert k == 0 || SteeredAt(c, pick, run, k);
  }

  /** The same tie-breaking gives the same run, amplification or not. */
  lemma SteeredRunUnique(c: Context, pick: Picker, r: seq<State>, t: seq<State>)
    requires Steered(c, pick, r) && Steered(c, pick, t) && Final(r).mode.Finished? && Final(t).mode.Finished?
    ensures r == t
  {
    var n := if |r| <= |t| then |r| else |t|;
    PrefixesAgree(c, pick, r, t, n);
    assert r[n - 1] == r[..n][n - 1] == t[n - 1];
    EndsOnce(c, pick, r, n);
    EndsOnce(c, pick, t, n);
    assert r[..|r|] == r && t[..|t|] == t;
  }
}
