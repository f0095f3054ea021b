/** What each store operation may do, told on the fields of the state: which error refuses it, what it leaves unchanged,
    and what a written one changes. Over whole runs: policies never fall back, epochs only rise, nothing is written
    before the first epoch. */
module StoreLaws {
  import opened Wrappers
  import opened Model
  import opened StoreCodec
  import opened JournalFormat
  import opened StoreState
  import opened Compaction

  // ----- refusals

  predicate HasFence(st: Durable, id: nat) { exists i :: 0 <= i < |st.fences| && st.fences[i].id == id }

  /** The policy in force has this identity and is no older. */
  predicate Outdated(st: Durable, p: Policy) {
    st.policy.Some? && st.policy.value.id == p.id && st.policy.value.generation >= p.generation
  }

  /** Operations that a malformed argument refuses, whatever the state. */
  predicate Malformed(op: Op, e: Error) {
    match op
    case RecordBoot(i) => e == InvalidArgument && ((i.hi == 0 && i.lo == 0) || i.seq_ == 0)
    case PersistPolicy(p) => PolicyFault(p) == Some(e)
    case BindTopology(b) => e == InvalidArgument && ((b.digest.hi == 0 && b.digest.lo == 0) || b.generation == 0)
    case PutFence(f) =>
      if f.id == INVALID_ID || f.resource == INVALID_ID then e == InvalidArgument else f.epoch == 0 && e == StaleEpoch
    case RecordLineage(d) => e == InvalidArgument && d.hi == 0 && d.lo == 0
    case RequestRevalidation(r) => e == InvalidArgument && r == INVALID_ID
    case BeginAttempt(id) => e == InvalidArgument && id == INVALID_ID
    case _ => false
  }

  predicate NeedsEpoch(op: Op) { !op.EstablishEpoch? && !op.CommitAttempt? && !op.AbortAttempt? }

  /** What the state has against a well-formed operation. */
  predicate Forbidden(cfg: Config, st: Durable, op: Op, e: Error) {
    if NeedsEpoch(op) && st.epoch == 0 then e == NotReady
    else
      match op
      case EstablishEpoch => e == Overflow && st.epoch == 0xFFFF_FFFF_FFFF_FFFF
      case PersistPolicy(p) => e == StaleGeneration && Outdated(st, p) && st.policy != Some(p)
      case RemoveFence(id) => e == NotFound && !HasFence(st, id)
      case RecordFootprint(pairs) =>
        e == OversizedInput && (|pairs| > cfg.maxFootprint || 5 + 16 * |pairs| > cfg.maxRecordBytes)
      case BeginAttempt(id) => e == Duplicate && id in st.attempts
      case CommitAttempt(id) => e == NotFound && id !in st.attempts
      case AbortAttempt(id) => e == NotFound && id !in st.attempts
      case _ => false
  }

  /** The error that refuses an operation, if any. */
  ghost predicate RefusedWith(cfg: Config, st: Durable, op: Op, e: Error) {
    Malformed(op, e) || (!(exists m :: Malformed(op, m)) && Forbidden(cfg, st, op, e))
  }

  /** The policy is in force already. */
  predicate InForceAlready(st: Durable, op: Op) { op.PersistPolicy? && st.policy == Some(op.policy) }

  lemma FencePresent(st: Durable, id: nat)
    ensures FenceAt(st.fences, id) < |st.fences| <==> HasFence(st, id)
  {
  }

  /** An operation refused for its argument, whatever the state. */
  lemma MalformedExact(cfg: Config, st: Durable, op: Op, e: Error)
    ensures Malformed(op, e) ==> Perform(cfg, st, op) == Refused(e)
  {
  }

  lemma ForbiddenEntry(cfg: Config, st: Durable, op: Op, e: Error)
    requires (forall m :: !Malformed(op, m)) && (op.PersistPolicy? || op.PutFence?)
    ensures Perform(cfg, st, op) == Refused(e) <==> Forbidden(cfg, st, op, e)
    ensures Perform(cfg, st, op).Unchanged? <==> InForceAlready(st, op) && st.epoch != 0
  {
    match op {
      case PutFence(f) => assert forall m :: FenceFault(f) == Some(m) ==> Malformed(op, m);
      case PersistPolicy(p) => assert forall m :: PolicyFault(p) == Some(m) ==> Malformed(op, m);
    }
  }

  lemma ForbiddenArgument(cfg: Config, st: Durable, op: Op, e: Error)
    requires !Malformed(op, InvalidArgument) && (op.RecordBoot? || op.BindTopology? || op.RecordLineage?)
    ensures Perform(cfg, st, op) == Refused(e) <==> Forbidden(cfg, st, op, e)
    ensures Perform(cfg, st, op).Unchanged? <==> InForceAlready(st, op) && st.epoch != 0
  {
  }

  /** A well-formed operation is refused with exactly this error, or changes nothing, or is written. */
  lemma ForbiddenExact(cfg: Config, st: Durable, op: Op, e: Error)
    requires forall m :: !Malformed(op, m)
    ensures Perform(cfg, st, op) == Refused(e) <==> Forbidden(cfg, st, op, e)
    ensures Perform(cfg, st, op).Unchanged? <==> InForceAlready(st, op) && st.epoch != 0
  {
    if op.PersistPolicy? || op.PutFence? {
      ForbiddenEntry(cfg, st, op, e);
    } else if op.RecordBoot? || op.BindTopology? || op.RecordLineage? {
      ForbiddenArgument(cfg, st, op, e);
    } else {
      match op {
        case RemoveFence(id) => FencePresent(st, id);
        case RequestRevalidation(r) => assert !Malformed(op, InvalidArgument);
        case BeginAttempt(id) => assert !Malformed(op, InvalidArgument);
        case _ =>
      }
    }
  }

  /** An operation is refused with exactly this error, or changes nothing because the policy is in force already, or is
      written. */
  lemma RefusalsExact(cfg: Config, st: Durable, op: Op, e: Error)
    ensures Perform(cfg, st, op) == Refused(e) <==> RefusedWith(cfg, st, op, e)
    ensures Perform(cfg, st, op).Unchanged? <==>
              InForceAlready(st, op) && (forall m :: !Malformed(op, m)) && st.epoch != 0
  {
    if m :| Malformed(op, m) {
      MalformedExact(cfg, st, op, m);
      MalformedExact(cfg, st, op, e);
    } else {
      ForbiddenExact(cfg, st, op, e);
    }
  }

  // ----- effects

  /** The list without the one occurrence of x. */
  predicate Dropped(xs: seq<nat>, ys: seq<nat>, x: nat) {
    exists i :: 0 <= i < |xs| && xs[i] == x && x !in xs[..i] && ys == xs[..i] + xs[i + 1..]
  }

  /** Entry k came from pair i; whatever the pairs before it name was there already. */
  predicate FirstAt(pairs: seq<(nat, nat)>, i: nat, after: seq<nat>, k: nat)
    requires i < |pairs| && k < |after|
  {
    pairs[i].1 == after[k] && forall j :: 0 <= j < i ==> pairs[j].1 in after[..k]
  }

  /** Entry k is new and came from a pair, the first that was not there already. */
  predicate CameIn(pairs: seq<(nat, nat)>, after: seq<nat>, k: nat)
    requires k < |after|
  {
    after[k] !in after[..k] && exists i :: 0 <= i < |pairs| && FirstAt(pairs, i, after, k)
  }

  /** The resources of the pairs that a list of at most max entries takes in, in order, each once. */
  predicate TakenIn(list: seq<nat>, pairs: seq<(nat, nat)>, max: nat, after: seq<nat>) {
    && list <= after && (|after| <= max || after == list)
    && (forall k :: |list| <= k < |after| ==> CameIn(pairs, after, k))
    && (|after| < max ==> forall i :: 0 <= i < |pairs| ==> pairs[i].1 in after)
  }

  predicate NewLineages(before: seq<Digest>, d: Digest, max: nat, after: seq<Digest>) {
    if d in before then after == before
    else if |before| < max || before == [] then after == before + [d]
    else after == before[1..] + [d]
  }

  predicate NewFences(before: seq<Fence>, f: Fence, after: seq<Fence>) {
    || (exists i :: 0 <= i < |before| && before[i].id == f.id && (forall j :: 0 <= j < i ==> before[j].id != f.id)
          && after == before[..i] + [f] + before[i + 1..])
    || ((forall i :: 0 <= i < |before| ==> before[i].id != f.id) && after == before + [f])
  }

  predicate LessFence(before: seq<Fence>, id: nat, after: seq<Fence>) {
    exists i :: 0 <= i < |before| && before[i].id == id && (forall j :: 0 <= j < i ==> before[j].id != id)
      && after == before[..i] + before[i + 1..]
  }

  /** A written operation changes exactly this and reports exactly this. */
  predicate Effects(cfg: Config, st: Durable, op: Op, after: Durable, status: Status) {
    match op
    case EstablishEpoch => after == st.(previousEpoch := st.epoch, epoch := st.epoch + 1) && status == Success
    case RecordBoot(i) => after == st.(boot := Some(i)) && status == Success
    case PersistPolicy(p) => after == st.(policy := Some(p)) && status == Success
    case BindTopology(b) => after == st.(binding := Some(b)) && status == Success
    case PutFence(f) =>
      if |st.fences| >= 4096 && !HasFence(st, f.id) then after == st && status == Failed(LimitExceeded)
      else NewFences(st.fences, f, after.fences) && after == st.(fences := after.fences) && status == Success
    case RemoveFence(id) =>
      LessFence(st.fences, id, after.fences) && after == st.(fences := after.fences) && status == Success
    case RecordLineage(d) =>
      NewLineages(st.lineages, d, cfg.maxLineages, after.lineages) && after == st.(lineages := after.lineages)
      && status == Success
    case RequestRevalidation(r) =>
      if r in st.revalidation then after == st && status == Success
      else if |st.revalidation| >= cfg.maxFootprint then after == st && status == Failed(LimitExceeded)
      else after == st.(revalidation := st.revalidation + [r]) && status == Success
    case ClearRevalidation(r) =>
      (if r in st.revalidation then Dropped(st.revalidation, after.revalidation, r)
       else after.revalidation == st.revalidation)
      && after == st.(revalidation := after.revalidation) && status == Success
    case RecordFootprint(pairs) =>
      TakenIn(st.revalidation, pairs, cfg.maxFootprint, after.revalidation)
      && after == st.(revalidation := after.revalidation) && status == Success
    case BeginAttempt(id) => after == st.(attempts := st.attempts + [id]) && status == Success
    case CommitAttempt(id) =>
      Dropped(st.attempts, after.attempts, id) && after == st.(attempts := after.attempts) && status == Success
    case AbortAttempt(id) =>
      Dropped(st.attempts, after.attempts, id) && after == st.(attempts := after.attempts) && status == Success
  }

  lemma DropsBehind(y: nat, xs: seq<nat>, ys: seq<nat>, x: nat)
    requires Dropped(xs, ys, x) && y != x
    ensures Dropped([y] + xs, [y] + ys, x)
  {
    var i :| 0 <= i < |xs| && xs[i] == x && x !in xs[..i] && ys == xs[..i] + xs[i + 1..];
    var all := [y] + xs;
    assert all[..i + 1] == [y] + xs[..i] && all[i + 2..] == xs[i + 1..];
    assert [y] + ys == ([y] + xs[..i]) + xs[i + 1..];
    assert all[i + 1] == x && x !in [y] + xs[..i];
  }

  lemma DropsFirst(xs: seq<nat>, x: nat)
    ensures Dropped([x] + xs, xs, x)
  {
    var all := [x] + xs;
    assert all[..0] == [] && all[1..] == xs && [] + xs == xs;
  }

  lemma {:induction false} EraseDrops(xs: seq<nat>, x: nat)
    ensures x in xs ==> Dropped(xs, Erase(xs, x), x)
    ensures x !in xs ==> Erase(xs, x) == xs
  {
    if xs != [] {
      assert xs == [xs[0]] + xs[1..];
      if xs[0] == x {
        DropsFirst(xs[1..], x);
      } else {
        EraseDrops(xs[1..], x);
        if x in xs[1..] { DropsBehind(xs[0], xs[1..], Erase(xs[1..], x), x); }
      }
    }
  }

  lemma {:induction false} AbsorbTakes(list: seq<nat>, pairs: seq<(nat, nat)>, max: nat)
    ensures TakenIn(list, pairs, max, Absorb(list, pairs, max))
    decreases |pairs|
  {
    if pairs != [] {
      var after := Absorb(list, pairs, max);
      assert forall i :: 0 < i < |pairs| ==> pairs[i] == pairs[1..][i - 1];
      if pairs[0].1 in list {
        AbsorbTakes(list, pairs[1..], max);
        AbsorbedNone(list, pairs, max, after);
      } else if |list| < max {
        AbsorbTakes(list + [pairs[0].1], pairs[1..], max);
        AbsorbedOne(list, pairs, max, after);
      }
    }
  }

  lemma AbsorbedNone(list: seq<nat>, pairs: seq<(nat, nat)>, max: nat, after: seq<nat>)
    requires pairs != [] && pairs[0].1 in list && TakenIn(list, pairs[1..], max, after)
    ensures TakenIn(list, pairs, max, after)
  {
    assert forall i :: 0 < i < |pairs| ==> pairs[i] == pairs[1..][i - 1];
    forall k | |list| <= k < |after| ensures CameIn(pairs, after, k) {
      assert CameIn(pairs[1..], after, k);
      var i :| 0 <= i < |pairs[1..]| && FirstAt(pairs[1..], i, after, k);
      assert after[..k][..|list|] == list;
      assert FirstAt(pairs, i + 1, after, k) by {
        forall j | 0 <= j < i + 1 ensures pairs[j].1 in after[..k] {
          if j > 0 { assert pairs[j] == pairs[1..][j - 1]; }
        }
      }
    }
  }

  lemma AbsorbedOne(list: seq<nat>, pairs: seq<(nat, nat)>, max: nat, after: seq<nat>)
    requires pairs != [] && |list| < max && pairs[0].1 !in list
    requires TakenIn(list + [pairs[0].1], pairs[1..], max, after)
    ensures TakenIn(list, pairs, max, after)
  {
    var x := pairs[0].1;
    var more := list + [x];
    assert forall i :: 0 < i < |pairs| ==> pairs[i] == pairs[1..][i - 1];
    assert after[..|more|] == more && after[|list|] == more[|list|] == x && after[..|list|] == more[..|list|] == list;
    forall k | |list| <= k < |after| ensures CameIn(pairs, after, k) {
      if k == |list| {
        assert FirstAt(pairs, 0, after, k);
      } else {
        assert CameIn(pairs[1..], after, k);
        var i :| 0 <= i < |pairs[1..]| && FirstAt(pairs[1..], i, after, k);
        assert after[..k][|list|] == x;
        assert FirstAt(pairs, i + 1, after, k) by {
          forall j | 0 <= j < i + 1 ensures pairs[j].1 in after[..k] {
            if j > 0 { assert pairs[j] == pairs[1..][j - 1]; }
          }
        }
      }
    }
    assert x in after;
  }

  lemma PutPlaces(fences: seq<Fence>, f: Fence)
    ensures NewFences(fences, f, WithFence(fences, f))
  {
    var i := FenceAt(fences, f.id);
    if i < |fences| { assert WithFence(fences, f) == fences[..i] + [f] + fences[i + 1..]; }
  }

  lemma ListEffects(cfg: Config, st: Durable, op: Op)
    requires Perform(cfg, st, op).Written?
    requires op.ClearRevalidation? || op.RecordFootprint? || op.CommitAttempt? || op.AbortAttempt? || op.PutFence?
             || op.RemoveFence?
    ensures Effects(cfg, st, op, Perform(cfg, st, op).after, Perform(cfg, st, op).status)
  {
    match op {
      case PutFence(f) =>
        FencePresent(st, f.id);
        PutPlaces(st.fences, f);
      case RemoveFence(id) => FencePresent(st, id);
      case ClearRevalidation(r) => EraseDrops(st.revalidation, r);
      case RecordFootprint(pairs) => AbsorbTakes(st.revalidation, pairs, cfg.maxFootprint);
      case CommitAttempt(id) => EraseDrops(st.attempts, id);
      case AbortAttempt(id) => EraseDrops(st.attempts, id);
    }
  }

  /** Every written operation has exactly its effect. */
  lemma EffectsExact(cfg: Config, st: Durable, op: Op)
    requires Perform(cfg, st, op).Written?
    ensures Effects(cfg, st, op, Perform(cfg, st, op).after, Perform(cfg, st, op).status)
  {
    if op.ClearRevalidation? || op.RecordFootprint? || op.CommitAttempt? || op.AbortAttempt? || op.PutFence?
       || op.RemoveFence? {
      ListEffects(cfg, st, op);
    }
  }

  // ----- whole runs

  /** The policy never falls back: from one state of a run to the next it stays, is the first, is one of another
      identity, or is one of the same identity and a higher generation. */
  predicate Upgrades(before: Option<Policy>, after: Option<Policy>) {
    || after == before
    || (after.Some? && after.value.Valid()
        && (before.Some? && before.value.id == after.value.id ==> after.value.generation > before.value.generation))
  }

  lemma AdvanceUpgrades(cfg: Config, s: Store, c: Command)
    ensures Upgrades(s.live.policy, Advance(cfg, s, c).live.policy)
    ensures s.live.epoch <= Advance(cfg, s, c).live.epoch <= s.live.epoch + 1
    ensures s.live.epoch == 0 && c.Do? && !c.op.EstablishEpoch? && s.live.attempts == [] ==> Advance(cfg, s, c) == s
  {
    if c.accepted && c.Do? && Perform(cfg, s.live, c.op).Written? {
      EffectsExact(cfg, s.live, c.op);
      RefusalsExact(cfg, s.live, c.op, StaleGeneration);
      RefusalsExact(cfg, s.live, c.op, NotReady);
      RefusalsExact(cfg, s.live, c.op, NotFound);
      if c.op.PersistPolicy? { WrittenPolicy(cfg, s.live, c.op.policy); }
    }
  }

  lemma WrittenPolicy(cfg: Config, st: Durable, p: Policy)
    requires Perform(cfg, st, PersistPolicy(p)).Written?
    ensures p.Valid() && !Outdated(st, p)
  {
    var fault := PolicyFault(p);
    if fault.Some? { RefusalsExact(cfg, st, PersistPolicy(p), fault.value); }
    RefusalsExact(cfg, st, PersistPolicy(p), StaleGeneration);
  }

  /** Every policy the run puts in force has this identity. */
  predicate OnePolicy(run: seq<Command>, id: nat) {
    forall i :: 0 <= i < |run| && run[i].Do? && run[i].op.PersistPolicy? ==> run[i].op.policy.id == id
  }

  /** Over any run of one policy's generations the generation in force only rises, and with the same generation it is
      the same policy. */
  lemma {:induction false} PolicyNeverFallsBack(cfg: Config, s: Store, run: seq<Command>, id: nat)
    requires OnePolicy(run, id) && s.live.policy.Some? && s.live.policy.value.id == id
    ensures var end := Ends(cfg, s, run).live.policy;
            && end.Some? && end.value.id == id && end.value.generation >= s.live.policy.value.generation
            && (end.value.generation == s.live.policy.value.generation ==> end == s.live.policy)
    decreases |run|
  {
    if run != [] {
      var t := Advance(cfg, s, run[0]);
      AdvanceUpgrades(cfg, s, run[0]);
      SameIdentity(cfg, s, run[0], id);
      assert forall i :: 0 <= i < |run| - 1 ==> run[1..][i] == run[i + 1];
      PolicyNeverFallsBack(cfg, t, run[1..], id);
    }
  }

  lemma SameIdentity(cfg: Config, s: Store, c: Command, id: nat)
    requires s.live.policy.Some? && s.live.policy.value.id == id
    requires c.Do? && c.op.PersistPolicy? ==> c.op.policy.id == id
    ensures var p := Advance(cfg, s, c).live.policy; p.Some? && p.value.id == id
  {
    if c.accepted && c.Do? && Perform(cfg, s.live, c.op).Written? { EffectsExact(cfg, s.live, c.op); }
  }

  /** Before the first epoch a store without open attempts writes nothing. */
  lemma {:induction false} NothingBeforeEpoch(cfg: Config, s: Store, run: seq<Command>)
    requires s.live.epoch == 0 && s.live.attempts == []
    requires forall i :: 0 <= i < |run| ==> run[i].Do? && !run[i].op.EstablishEpoch?
    ensures Ends(cfg, s, run) == s
    decreases |run|
  {
    if run != [] {
      assert run[0].Do?;
      AdvanceUpgrades(cfg, s, run[0]);
      assert forall i :: 0 <= i < |run| - 1 ==> run[1..][i] == run[i + 1];
      NothingBeforeEpoch(cfg, s, run[1..]);
    }
  }
}
