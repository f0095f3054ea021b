/** Explanation records of one traversal: accepted hops, refusals aggregated per (resource, reason),
    and the budget both are drawn from. */
module Records {
  import opened FixedPoint
  import opened Model

  /** Refusal reasons are slots of the pending table, in the order they are flushed. */
  const REASON_COUNT: nat := 26
  type Reason = r: nat | r < REASON_COUNT

  const BELOW_FLOOR: Reason := 1
  const MAX_HOPS: Reason := 2
  const MAX_FANOUT: Reason := 3
  const NODE_ALREADY_SETTLED: Reason := 4
  const PROTECTED_BOUNDARY: Reason := 6
  const SEALED_RESOURCE: Reason := 7
  const OBSERVED_ONLY_RESOURCE: Reason := 8
  const MISSING_RESOURCE: Reason := 9
  const STALE_DEPENDENCY: Reason := 10
  const FENCED: Reason := 12
  const HYSTERESIS: Reason := 14
  const UNAUTHORIZED_SCOPE: Reason := 15
  const AMPLIFICATION_NOT_AUTHORIZED: Reason := 16
  const AMPLIFICATION_BUDGET: Reason := 17
  const EXPANSION_BUDGET: Reason := 19
  const RECOVERY_ONLY: Reason := 22
  const ZERO_ATTENUATION: Reason := 23

  const COUNT_MAX: nat := 0xFFFF_FFFF

  datatype Aggregate = Aggregate(source: nat, target: nat, edge: nat, depth: nat, count: nat)

  datatype Suppression = Suppression(source: nat, target: nat, edge: nat, depth: nat, count: nat, reason: Reason)

  datatype Hop = Hop(source: nat, target: nat, edge: nat, depth: nat, attenuation: Q16, gain: Gain,
                     before: Potential, after: Potential, cumulative: nat, amplified: bool)

  datatype Book = Book(pending: seq<Aggregate>, suppressed: seq<Suppression>, hops: seq<Hop>, budget: nat)
  {
    predicate Valid() { |pending| == REASON_COUNT }

    /** Every record ever written, plus what may still be written. */
    function Capacity(): nat { |hops| + |suppressed| + budget }

    /** A refusal for this reason is waiting or has been written. */
    ghost predicate Shows(r: Reason)
      requires Valid()
    {
      pending[r].count > 0 || exists k :: 0 <= k < |suppressed| && suppressed[k].reason == r
    }
  }

  function EmptyBook(budget: nat): (b: Book)
    ensures b.Valid() && Quiet(b.pending, 0)
  {
    Book(seq(REASON_COUNT, _ => Aggregate(0, 0, 0, 0, 0)), [], [], budget)
  }

  /** No refusal is waiting in slot `from` or later. */
  predicate Quiet(pending: seq<Aggregate>, from: nat) {
    forall k :: from <= k < |pending| ==> pending[k].count == 0
  }

  /** Number of slots holding a refusal. */
  function Occupied(pending: seq<Aggregate>, from: nat): (n: nat)
    ensures from <= |pending| ==> n <= |pending| - from
    decreases |pending| - from
  {
    if from >= |pending| then 0
    else (if pending[from].count == 0 then 0 else 1) + Occupied(pending, from + 1)
  }

  /** Number of refused edges waiting. */
  function Waiting(pending: seq<Aggregate>, from: nat): nat
    decreases |pending| - from
  {
    if from >= |pending| then 0 else pending[from].count + Waiting(pending, from + 1)
  }

  /** Number of refused edges already written out. */
  function Written(suppressed: seq<Suppression>): nat
  {
    if suppressed == [] then 0
    else Written(suppressed[..|suppressed| - 1]) + suppressed[|suppressed| - 1].count
  }

  /** Aggregate one refused edge; the first edge of a reason is its example. */
  function Reject(b: Book, e: Edge, depth: nat, r: Reason): (b': Book)
    requires b.Valid()
    ensures b'.Valid() && b'.hops == b.hops && b'.suppressed == b.suppressed && b'.budget == b.budget
  {
    var old_ := b.pending[r];
    var fresh_ := if old_.count == 0 then Aggregate(e.source, e.target, e.id, depth, 0) else old_;
    var bumped := if fresh_.count == COUNT_MAX then fresh_ else fresh_.(count := fresh_.count + 1);
    b.(pending := b.pending[r := bumped])
  }

  datatype Flushed = Flushed(book: Book, ok: bool)

  /** Write one record per occupied slot, lowest slot first; slots met with no budget left are dropped. */
  function FlushFrom(b: Book, slot: nat): (r: Flushed)
    requires b.Valid() && slot <= REASON_COUNT
    ensures r.book.Valid() && r.book.hops == b.hops
    decreases REASON_COUNT - slot
  {
    if slot == REASON_COUNT then Flushed(b, true)
    else
      var next := FlushSlot(b, slot);
      var rest := FlushFrom(next.book, slot + 1);
      Flushed(rest.book, next.ok && rest.ok)
  }

  function FlushSlot(b: Book, slot: nat): (r: Flushed)
    requires b.Valid() && slot < REASON_COUNT
    ensures r.book.Valid() && r.book.hops == b.hops
  {
    var a := b.pending[slot];
    if a.count == 0 then Flushed(b, true)
    else
      var cleared := b.pending[slot := a.(count := 0)];
      if b.budget == 0 then Flushed(b.(pending := cleared), false)
      else
        var record := Suppression(a.source, a.target, a.edge, a.depth, a.count, slot);
        Flushed(b.(pending := cleared, suppressed := b.suppressed + [record], budget := b.budget - 1), true)
  }

  function Flush(b: Book): (r: Flushed)
    requires b.Valid()
    ensures r.book.Valid() && r.book.hops == b.hops
  {
    FlushFrom(b, 0)
  }

  // ----- lemmas

  lemma {:induction false} TotalsIgnoreEarlierSlots(p: seq<Aggregate>, q: seq<Aggregate>, from: nat)
    requires |p| == |q| && forall k :: from <= k < |p| ==> p[k].count == q[k].count
    ensures Occupied(p, from) == Occupied(q, from) && Waiting(p, from) == Waiting(q, from)
    decreases |p| - from
  {
    if from < |p| { TotalsIgnoreEarlierSlots(p, q, from + 1); }
  }

  lemma {:induction false} QuietTotals(p: seq<Aggregate>, from: nat)
    requires Quiet(p, from)
    ensures Occupied(p, from) == 0 && Waiting(p, from) == 0
    decreases |p| - from
  {
    if from < |p| { QuietTotals(p, from + 1); }
  }

  lemma {:induction false} FlushQuiet(b: Book, slot: nat)
    requires b.Valid() && slot <= REASON_COUNT && Quiet(b.pending, slot)
    ensures FlushFrom(b, slot) == Flushed(b, true)
    decreases REASON_COUNT - slot
  {
    if slot < REASON_COUNT { FlushQuiet(b, slot + 1); }
  }

  /** A refusal raises the waiting total by exactly one while the slot counter has room. */
  lemma {:induction false} RejectTotals(b: Book, e: Edge, depth: nat, r: Reason, from: nat)
    requires b.Valid() && from <= r && Waiting(b.pending, 0) < COUNT_MAX
    ensures Waiting(Reject(b, e, depth, r).pending, from) == Waiting(b.pending, from) + 1
    ensures Occupied(Reject(b, e, depth, r).pending, from) <= Occupied(b.pending, from) + 1
    decreases r - from
  {
    var p, q := b.pending, Reject(b, e, depth, r).pending;
    SlotWithinWaiting(p, 0, r);
    if from == r {
      TotalsIgnoreEarlierSlots(p, q, from + 1);
    } else {
      RejectTotals(b, e, depth, r, from + 1);
    }
  }

  /** The first refusal for a reason occupies one more slot. */
  lemma {:induction false} RejectOccupies(b: Book, e: Edge, depth: nat, r: Reason, from: nat)
    requires b.Valid() && from <= r && b.pending[r].count == 0
    ensures Occupied(Reject(b, e, depth, r).pending, from) == Occupied(b.pending, from) + 1
    decreases r - from
  {
    if from == r {
      TotalsIgnoreEarlierSlots(b.pending, Reject(b, e, depth, r).pending, from + 1);
    } else {
      RejectOccupies(b, e, depth, r, from + 1);
    }
  }

  lemma {:induction false} SlotWithinWaiting(p: seq<Aggregate>, from: nat, k: nat)
    requires from <= k < |p|
    ensures p[k].count <= Waiting(p, from)
    decreases k - from
  {
    if from < k { SlotWithinWaiting(p, from + 1, k); }
  }

  /** One slot: an occupied slot is cleared and, budget permitting, written as one record. */
  lemma FlushSlotAccounts(b: Book, slot: nat)
    requires b.Valid() && slot < REASON_COUNT
    ensures var r := FlushSlot(b, slot);
            && r.book.Capacity() == b.Capacity()
            && r.book.pending[slot].count == 0
            && (forall k :: 0 <= k < REASON_COUNT && k != slot ==> r.book.pending[k] == b.pending[k])
            && b.suppressed <= r.book.suppressed
            && (b.pending[slot].count == 0 ==> r.ok && r.book.suppressed == b.suppressed)
            && (b.pending[slot].count != 0 ==> |r.book.suppressed| <= |b.suppressed| + 1)
            && (b.pending[slot].count != 0 && r.ok ==> r.book.budget == b.budget - 1)
            && (r.ok <==> b.pending[slot].count == 0 || b.budget > 0)
            && (!r.ok ==> r.book.budget == 0)
            && (r.ok ==> Written(r.book.suppressed) == Written(b.suppressed) + b.pending[slot].count)
  {
    var r := FlushSlot(b, slot);
    if b.pending[slot].count != 0 && b.budget != 0 {
      assert r.book.suppressed[..|b.suppressed|] == b.suppressed;
    }
  }

  /** Flushing empties the table, conserves the record capacity, succeeds exactly when the budget
      covers the occupied slots, and then loses no refused edge. */
  lemma {:induction false} FlushAccounts(b: Book, slot: nat)
    requires b.Valid() && slot <= REASON_COUNT
    ensures var r := FlushFrom(b, slot);
            && r.book.Capacity() == b.Capacity()
            && Quiet(r.book.pending, slot)
            && (forall k :: 0 <= k < slot ==> r.book.pending[k] == b.pending[k])
            && b.suppressed <= r.book.suppressed
            && |r.book.suppressed| <= |b.suppressed| + Occupied(b.pending, slot)
            && (r.ok <==> Occupied(b.pending, slot) <= b.budget)
            && (r.ok ==> Written(r.book.suppressed) == Written(b.suppressed) + Waiting(b.pending, slot))
    decreases REASON_COUNT - slot
  {
    if slot < REASON_COUNT {
      FlushSlotAccounts(b, slot);
      var next := FlushSlot(b, slot);
      FlushAccounts(next.book, slot + 1);
      TotalsIgnoreEarlierSlots(b.pending, next.book.pending, slot + 1);
    }
  }

  /** A successful flush keeps every reason visible. */
  lemma {:induction false} FlushKeepsReasons(b: Book, slot: nat, r: Reason)
    requires b.Valid() && slot <= REASON_COUNT && FlushFrom(b, slot).ok && b.Shows(r)
    ensures FlushFrom(b, slot).book.Shows(r)
    decreases REASON_COUNT - slot
  {
    if slot < REASON_COUNT {
      var next := FlushSlot(b, slot);
      if exists k :: 0 <= k < |b.suppressed| && b.suppressed[k].reason == r {
        var k :| 0 <= k < |b.suppressed| && b.suppressed[k].reason == r;
        assert next.book.suppressed[k].reason == r;
      } else if slot == r {
        assert next.book.suppressed[|b.suppressed|].reason == r;
      }
      assert next.book.Shows(r);
      FlushKeepsReasons(next.book, slot + 1, r);
    }
  }
}
