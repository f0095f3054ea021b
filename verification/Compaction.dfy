/** Compaction: the log is replaced by one that rebuilds the live state from nothing. */
module Compaction {
  import opened Wrappers
  import opened Model
  import opened Bytes
  import opened StoreCodec
  import opened JournalFormat
  import opened StoreState
  import opened StoreRefinement

  function BootPart(st: Durable): seq<Entry> {
    if st.boot.None? then [] else [Entry(BOOT, st.epoch, BootPayload(st.boot.value))]
  }

  function PolicyPart(st: Durable): seq<Entry> {
    if st.policy.None? then [] else [Entry(POLICY_CHANGE, st.epoch, EncodePolicy(st.policy.value))]
  }

  function BindingPart(st: Durable): seq<Entry> {
    if st.binding.None? then [] else [Entry(BINDING, st.epoch, BindingPayload(st.binding.value))]
  }

  function FencePart(epoch: nat, fences: seq<Fence>): seq<Entry> {
    if fences == [] then [] else [Entry(FENCE_PUT, epoch, EncodeFence(fences[0]))] + FencePart(epoch, fences[1..])
  }

  function RevalidationPart(epoch: nat, list: seq<nat>): seq<Entry> {
    if list == [] then []
    else [Entry(REVALIDATION, epoch, ResourcePayload(REQUEST, list[0]))] + RevalidationPart(epoch, list[1..])
  }

  function LineagePart(epoch: nat, lineages: seq<Digest>): seq<Entry> {
    if lineages == [] then []
    else [Entry(LINEAGE, epoch, DigestPayload(lineages[0]))] + LineagePart(epoch, lineages[1..])
  }

  function AttemptPart(epoch: nat, attempts: seq<nat>): seq<Entry> {
    if attempts == [] then []
    else [Entry(ATTEMPT_BEGIN, epoch, IdPayload(attempts[0]))] + AttemptPart(epoch, attempts[1..])
  }

  /** The compacted log; the marker that ends it carries the epoch in force. */
  function Compacted(st: Durable): seq<Entry> {
    var e := st.epoch;
    [Entry(EPOCH, e, EpochPayload(e))] + BootPart(st) + PolicyPart(st) + BindingPart(st)
    + FencePart(e, st.fences) + RevalidationPart(e, st.revalidation) + LineagePart(e, st.lineages)
    + AttemptPart(e, st.attempts) + [Entry(COMPACTION, e, EpochPayload(e))]
  }

  lemma ReplayStep(cfg: Config, st: Durable, e: Entry, rest: seq<Entry>)
    requires Apply(cfg, st, e).Ok?
    ensures Replay(cfg, st, [e] + rest) == Replay(cfg, Apply(cfg, st, e).value, rest)
  {
    assert ([e] + rest)[1..] == rest;
  }

  lemma FenceIsNew(done: seq<Fence>, f: Fence)
    requires forall i :: 0 <= i < |done| ==> done[i].id != f.id
    ensures FenceAt(done, f.id) == |done|
  {
    var i := FenceAt(done, f.id);
    if i < |done| { assert done[i].id == f.id; }
  }

  lemma {:induction false} FencesReplay(cfg: Config, st: Durable, epoch: nat, todo: seq<Fence>)
    requires FencesOk(st.fences + todo)
    ensures Replay(cfg, st, FencePart(epoch, todo)) == Ok(st.(fences := st.fences + todo))
    decreases |todo|
  {
    if todo == [] {
      assert st.fences + todo == st.fences;
    } else {
      var f, all := todo[0], st.fences + todo;
      var n := |st.fences|;
      assert all[n] == f;
      assert forall i :: 0 <= i < n ==> all[i] == st.fences[i];
      FenceIsNew(st.fences, f);
      FencePutReplays(st, f);
      ReplayStep(cfg, st, Entry(FENCE_PUT, epoch, EncodeFence(f)), FencePart(epoch, todo[1..]));
      assert st.fences + [f] + todo[1..] == all;
      FencesReplay(cfg, st.(fences := st.fences + [f]), epoch, todo[1..]);
    }
  }

  lemma {:induction false} RevalidationReplays(cfg: Config, st: Durable, epoch: nat, todo: seq<nat>)
    requires IdsOk(st.revalidation + todo) && |st.revalidation + todo| <= cfg.maxFootprint
    ensures Replay(cfg, st, RevalidationPart(epoch, todo)) == Ok(st.(revalidation := st.revalidation + todo))
    decreases |todo|
  {
    if todo == [] {
      assert st.revalidation + todo == st.revalidation;
    } else {
      var r, all := todo[0], st.revalidation + todo;
      NewHere(st.revalidation, todo);
      OneRequest(cfg, st, epoch, todo);
      assert st.revalidation + [r] + todo[1..] == all;
      RevalidationReplays(cfg, st.(revalidation := st.revalidation + [r]), epoch, todo[1..]);
    }
  }

  lemma OneRequest(cfg: Config, st: Durable, epoch: nat, todo: seq<nat>)
    requires todo != [] && todo[0] !in st.revalidation && todo[0] < INVALID_ID && |st.revalidation| < cfg.maxFootprint
    ensures Replay(cfg, st, RevalidationPart(epoch, todo))
         == Replay(cfg, st.(revalidation := st.revalidation + [todo[0]]), RevalidationPart(epoch, todo[1..]))
  {
    ResourceReplays(cfg, st, REQUEST, todo[0]);
    ReplayStep(cfg, st, Entry(REVALIDATION, epoch, ResourcePayload(REQUEST, todo[0])),
      RevalidationPart(epoch, todo[1..]));
  }

  lemma NewHere(done: seq<nat>, todo: seq<nat>)
    requires IdsOk(done + todo) && todo != []
    ensures todo[0] !in done && todo[0] < INVALID_ID
  {
    assert (done + todo)[|done|] == todo[0];
    assert forall i :: 0 <= i < |done| ==> (done + todo)[i] == done[i];
  }

  lemma {:induction false} LineagesReplay(cfg: Config, st: Durable, epoch: nat, todo: seq<Digest>)
    requires LineagesOk(cfg, st.lineages + todo)
    ensures Replay(cfg, st, LineagePart(epoch, todo)) == Ok(st.(lineages := st.lineages + todo))
    decreases |todo|
  {
    if todo == [] {
      assert st.lineages + todo == st.lineages;
    } else {
      var d, all := todo[0], st.lineages + todo;
      assert all[|st.lineages|] == d;
      assert forall i :: 0 <= i < |st.lineages| ==> all[i] == st.lineages[i];
      LineageReplays(cfg, st, d);
      ReplayStep(cfg, st, Entry(LINEAGE, epoch, DigestPayload(d)), LineagePart(epoch, todo[1..]));
      assert st.lineages + [d] + todo[1..] == all;
      LineagesReplay(cfg, st.(lineages := st.lineages + [d]), epoch, todo[1..]);
    }
  }

  lemma {:induction false} AttemptsReplay(cfg: Config, st: Durable, epoch: nat, todo: seq<nat>)
    requires IdsOk(st.attempts + todo)
    ensures Replay(cfg, st, AttemptPart(epoch, todo)) == Ok(st.(attempts := st.attempts + todo))
    decreases |todo|
  {
    if todo == [] {
      assert st.attempts + todo == st.attempts;
    } else {
      var a, all := todo[0], st.attempts + todo;
      NewHere(st.attempts, todo);
      BeginReplays(st, a);
      ReplayStep(cfg, st, Entry(ATTEMPT_BEGIN, epoch, IdPayload(a)), AttemptPart(epoch, todo[1..]));
      assert st.attempts + [a] + todo[1..] == all;
      AttemptsReplay(cfg, st.(attempts := st.attempts + [a]), epoch, todo[1..]);
    }
  }

  lemma OptionalParts(cfg: Config, st: Durable, from: Durable)
    requires WellFormed(cfg, st)
    ensures from.boot.None? ==> Replay(cfg, from, BootPart(st)) == Ok(from.(boot := st.boot))
    ensures from.policy.None? ==> Replay(cfg, from, PolicyPart(st)) == Ok(from.(policy := st.policy))
    ensures from.binding.None? ==> Replay(cfg, from, BindingPart(st)) == Ok(from.(binding := st.binding))
  {
    if st.boot.Some? {
      BootReplays(from, st.boot.value);
      ReplayOne(cfg, from, BootPart(st)[0]);
    }
    if st.policy.Some? {
      PolicyReplays(from, st.policy.value);
      ReplayOne(cfg, from, PolicyPart(st)[0]);
    }
    if st.binding.Some? {
      BindingReplays(from, st.binding.value);
      ReplayOne(cfg, from, BindingPart(st)[0]);
    }
  }

  /** One more part of the log. */
  lemma ReplayPart(cfg: Config, st: Durable, front: seq<Entry>, part: seq<Entry>, mid: Durable, end: Durable)
    requires Replay(cfg, st, front) == Ok(mid) && Replay(cfg, mid, part) == Ok(end)
    ensures Replay(cfg, st, front + part) == Ok(end)
  {
    ReplayConcat(cfg, st, front, part);
  }

  /** The compacted log rebuilds the live state, except that the epoch in force also becomes the previous one. */
  lemma CompactedReplays(cfg: Config, st: Durable)
    requires WellFormed(cfg, st)
    ensures Replay(cfg, FRESH, Compacted(st)) == Ok(st.(previousEpoch := st.epoch))
  {
    var e := st.epoch;
    var head := [Entry(EPOCH, e, EpochPayload(e))];
    var s0 := FRESH.(epoch := e);
    ReplayOne(cfg, FRESH, head[0]);
    var s1 := s0.(boot := st.boot);
    OptionalParts(cfg, st, s0);
    ReplayPart(cfg, FRESH, head, BootPart(st), s0, s1);
    var s2 := s1.(policy := st.policy);
    OptionalParts(cfg, st, s1);
    ReplayPart(cfg, FRESH, head + BootPart(st), PolicyPart(st), s1, s2);
    var s3 := s2.(binding := st.binding);
    OptionalParts(cfg, st, s2);
    ReplayPart(cfg, FRESH, head + BootPart(st) + PolicyPart(st), BindingPart(st), s2, s3);
    var log := head + BootPart(st) + PolicyPart(st) + BindingPart(st);
    ListPartsReplay(cfg, st, log, s3);
  }

  lemma ListPartsReplay(cfg: Config, st: Durable, log: seq<Entry>, from: Durable)
    requires WellFormed(cfg, st) && Replay(cfg, FRESH, log) == Ok(from)
    requires from == Durable(0, st.epoch, st.boot, st.policy, st.binding, [], [], [], [])
    ensures Replay(cfg, FRESH, log + FencePart(st.epoch, st.fences) + RevalidationPart(st.epoch, st.revalidation)
                   + LineagePart(st.epoch, st.lineages) + AttemptPart(st.epoch, st.attempts)
                   + [Entry(COMPACTION, st.epoch, EpochPayload(st.epoch))]) == Ok(st.(previousEpoch := st.epoch))
  {
    var e := st.epoch;
    AfterFences(cfg, log, from, e, st.fences);
    var log4, s4 := log + FencePart(e, st.fences), from.(fences := st.fences);
    AfterRevalidation(cfg, log4, s4, e, st.revalidation);
    var log5, s5 := log4 + RevalidationPart(e, st.revalidation), s4.(revalidation := st.revalidation);
    AfterLineages(cfg, log5, s5, e, st.lineages);
    var log6, s6 := log5 + LineagePart(e, st.lineages), s5.(lineages := st.lineages);
    AfterAttempts(cfg, log6, s6, e, st.attempts);
    var log7, s7 := log6 + AttemptPart(e, st.attempts), s6.(attempts := st.attempts);
    AfterMarker(cfg, log7, s7, e);
  }

  lemma AfterFences(cfg: Config, log: seq<Entry>, from: Durable, epoch: nat, fences: seq<Fence>)
    requires Replay(cfg, FRESH, log) == Ok(from) && from.fences == [] && FencesOk(fences)
    ensures Replay(cfg, FRESH, log + FencePart(epoch, fences)) == Ok(from.(fences := fences))
  {
    assert [] + fences == fences;
    FencesReplay(cfg, from, epoch, fences);
    ReplayConcat(cfg, FRESH, log, FencePart(epoch, fences));
  }

  lemma AfterRevalidation(cfg: Config, log: seq<Entry>, from: Durable, epoch: nat, list: seq<nat>)
    requires Replay(cfg, FRESH, log) == Ok(from) && from.revalidation == [] && IdsOk(list) && |list| <= cfg.maxFootprint
    ensures Replay(cfg, FRESH, log + RevalidationPart(epoch, list)) == Ok(from.(revalidation := list))
  {
    assert [] + list == list;
    RevalidationReplays(cfg, from, epoch, list);
    ReplayConcat(cfg, FRESH, log, RevalidationPart(epoch, list));
  }

  lemma AfterLineages(cfg: Config, log: seq<Entry>, from: Durable, epoch: nat, lineages: seq<Digest>)
    requires Replay(cfg, FRESH, log) == Ok(from) && from.lineages == [] && LineagesOk(cfg, lineages)
    ensures Replay(cfg, FRESH, log + LineagePart(epoch, lineages)) == Ok(from.(lineages := lineages))
  {
    assert [] + lineages == lineages;
    LineagesReplay(cfg, from, epoch, lineages);
    ReplayConcat(cfg, FRESH, log, LineagePart(epoch, lineages));
  }

  lemma AfterAttempts(cfg: Config, log: seq<Entry>, from: Durable, epoch: nat, attempts: seq<nat>)
    requires Replay(cfg, FRESH, log) == Ok(from) && from.attempts == [] && IdsOk(attempts)
    ensures Replay(cfg, FRESH, log + AttemptPart(epoch, attempts)) == Ok(from.(attempts := attempts))
  {
    assert [] + attempts == attempts;
    AttemptsReplay(cfg, from, epoch, attempts);
    ReplayConcat(cfg, FRESH, log, AttemptPart(epoch, attempts));
  }

  lemma AfterMarker(cfg: Config, log: seq<Entry>, from: Durable, epoch: nat)
    requires Replay(cfg, FRESH, log) == Ok(from) && epoch <= MAX_U64
    ensures Replay(cfg, FRESH, log + [Entry(COMPACTION, epoch, EpochPayload(epoch))]) ==
            Ok(from.(previousEpoch := epoch))
  {
    var marker := Entry(COMPACTION, epoch, EpochPayload(epoch));
    CompactionReplays(from, epoch);
    ReplayOne(cfg, from, marker);
    ReplayConcat(cfg, FRESH, log, [marker]);
  }

  // ----- whole runs

  /** A store operation or a compaction; the journal may refuse either when a limit is reached. */
  datatype Command = Do(op: Op, accepted: bool) | Compact(accepted: bool)

  /** The log and the state held in memory. */
  datatype Store = Store(log: seq<Entry>, live: Durable)

  /** The journal checks the retention limit before it appends, but not before it replaces the file. */
  function Advance(cfg: Config, s: Store, c: Command): Store {
    if !c.accepted then s
    else
      match c
      case Do(op, _) =>
        (match Perform(cfg, s.live, op)
         case Written(entry, after, _) =>
           if Retained(s.log) + |entry.payload| <= cfg.maxRetained then Store(s.log + [entry], after) else s
         case _ => s)
      case Compact(_) => Store(Compacted(s.live), s.live)
  }

  function Ends(cfg: Config, s: Store, run: seq<Command>): Store
    decreases |run|
  {
    if run == [] then s else Ends(cfg, Advance(cfg, s, run[0]), run[1..])
  }

  predicate RepresentableCommand(c: Command) { c.Do? ==> Representable(c.op) }

  /** No command of the run writes a log that cannot be opened. */
  predicate SoundRun(cfg: Config, s: Store, run: seq<Command>)
    decreases |run|
  {
    run == [] || (StepSound(cfg, s, run[0]) && SoundRun(cfg, Advance(cfg, s, run[0]), run[1..]))
  }

  predicate StepSound(cfg: Config, s: Store, c: Command) {
    c.accepted ==>
      match c
      case Do(op, _) => Perform(cfg, s.live, op).Written? ==> Sound(s.live, op)
      case Compact(_) => Retained(Compacted(s.live)) <= cfg.maxRetained
  }

  /** The store is well formed, opens, and opens to its live state. */
  predicate Coherent(cfg: Config, s: Store) {
    WellFormed(cfg, s.live) && Tracks(cfg, s.log, s.live) && Openable(cfg, s.log)
  }

  lemma AdvanceTracks(cfg: Config, s: Store, c: Command)
    requires Coherent(cfg, s) && cfg.maxRecordBytes < U32 && RepresentableCommand(c) && StepSound(cfg, s, c)
    ensures Coherent(cfg, Advance(cfg, s, c))
  {
    if c.accepted {
      match c {
        case Do(op, _) =>
          if Perform(cfg, s.live, op).Written? {
            PerformTracks(cfg, s.log, s.live, op);
            RetainedSnoc(s.log, Perform(cfg, s.live, op).entry);
          }
        case Compact(_) => CompactedReplays(cfg, s.live);
      }
    }
  }

  lemma {:induction false} RunTracksFrom(cfg: Config, s: Store, run: seq<Command>)
    requires Coherent(cfg, s) && cfg.maxRecordBytes < U32
    requires SoundRun(cfg, s, run) && forall i :: 0 <= i < |run| ==> RepresentableCommand(run[i])
    ensures Coherent(cfg, Ends(cfg, s, run))
    decreases |run|
  {
    if run != [] {
      assert RepresentableCommand(run[0]);
      assert forall i :: 0 <= i < |run| - 1 ==> run[1..][i] == run[i + 1];
      AdvanceTracks(cfg, s, run[0]);
      RunTracksFrom(cfg, Advance(cfg, s, run[0]), run[1..]);
    }
  }

  const EMPTY := Store([], FRESH)

  /** Log refinement over whole runs: from the empty store, every sound run of operations and compactions ends
      with a log that opens and replays without error to the live epoch, boot, policy, binding, fences, lineages,
      revalidation list and open attempts. */
  lemma {:induction false} RunTracks(cfg: Config, run: seq<Command>)
    requires cfg.maxLineages >= 1 && cfg.maxRecordBytes < U32
    requires SoundRun(cfg, EMPTY, run) && forall i :: 0 <= i < |run| ==> RepresentableCommand(run[i])
    ensures Coherent(cfg, Ends(cfg, EMPTY, run))
  {
    RunTracksFrom(cfg, EMPTY, run);
  }

  /** An unsound operation spoils the log for good, unless a compaction rewrites it. */
  lemma {:induction false} UnsoundSticks(cfg: Config, s: Store, run: seq<Command>)
    requires Replay(cfg, FRESH, s.log).Err? && forall i :: 0 <= i < |run| ==> run[i].Do?
    ensures Replay(cfg, FRESH, Ends(cfg, s, run).log).Err?
    decreases |run|
  {
    if run != [] {
      assert run[0].Do?;
      assert forall i :: 0 <= i < |run| - 1 ==> run[1..][i] == run[i + 1];
      var t := Advance(cfg, s, run[0]);
      if t != s { ReplayConcat(cfg, FRESH, s.log, [Perform(cfg, s.live, run[0].op).entry]); }
      UnsoundSticks(cfg, t, run[1..]);
    }
  }

  // ----- the retention limit

  /** A compaction leaves a store that opens exactly when the compacted payloads respect the retention limit. */
  lemma CompactionOpensIff(cfg: Config, s: Store)
    requires WellFormed(cfg, s.live)
    ensures Openable(cfg, Advance(cfg, s, Compact(true)).log) <==> Retained(Compacted(s.live)) <= cfg.maxRetained
  {
    CompactedReplays(cfg, s.live);
  }

  lemma SmallRows()
    ensures Total(EPOCH_ROW) == 8 && Total(BOOT_ROW) == 32
  {
    TotalFrom(EPOCH_ROW, 0);
    assert EPOCH_ROW[0..] == EPOCH_ROW && EPOCH_ROW[1..] == [];
    TotalFrom(BOOT_ROW, 0);
    TotalFrom(BOOT_ROW, 1);
    TotalFrom(BOOT_ROW, 2);
    TotalFrom(BOOT_ROW, 3);
    TotalFrom(BOOT_ROW, 4);
    assert BOOT_ROW[0..] == BOOT_ROW && BOOT_ROW[5..] == [];
  }

  const TIGHT := Config(1, 1, 4096, 40)
  const SOMEONE := Incarnation(1, 0, 0, 0, 1)

  /** A store that holds its epoch and boot in forty bytes, the whole retention limit. */
  function TightLive(): Durable { FRESH.(epoch := 1, boot := Some(SOMEONE)) }

  lemma TightCompacted()
    ensures Retained(Compacted(TightLive())) == 48
  {
    SmallRows();
    var e, b, m := Entry(EPOCH, 1, EpochPayload(1)), Entry(BOOT, 1, BootPayload(SOMEONE)),
      Entry(COMPACTION, 1, EpochPayload(1));
    assert Compacted(TightLive()) == [e] + [b] + [m];
    RetainedSnoc([], e);
    RetainedSnoc([e], b);
    RetainedSnoc([e] + [b], m);
    assert [] + [e] == [e];
  }

  lemma EndsTwo(cfg: Config, s: Store, a: Command, b: Command)
    ensures Ends(cfg, s, [a, b]) == Advance(cfg, Advance(cfg, s, a), b)
    ensures SoundRun(cfg, s, [a, b]) <==> StepSound(cfg, s, a) && StepSound(cfg, Advance(cfg, s, a), b)
  {
    assert [a, b][1..] == [b] && [b][1..] == [];
    assert Ends(cfg, Advance(cfg, s, a), [b]) == Advance(cfg, Advance(cfg, s, a), b);
    assert SoundRun(cfg, Advance(cfg, s, a), [b]) <==> StepSound(cfg, Advance(cfg, s, a), b);
  }

  lemma TightEpoch()
    ensures var e := Entry(EPOCH, 1, EpochPayload(1));
            Advance(TIGHT, EMPTY, Do(EstablishEpoch, true)) == Store([e], FRESH.(epoch := 1)) && Retained([e]) == 8
  {
    SmallRows();
    var e := Entry(EPOCH, 1, EpochPayload(1));
    RetainedSnoc([], e);
    assert [] + [e] == [e];
  }

  lemma TightBoot(log: seq<Entry>)
    requires Retained(log) == 8
    ensures var b := Entry(BOOT, 1, BootPayload(SOMEONE));
            Advance(TIGHT, Store(log, FRESH.(epoch := 1)), Do(RecordBoot(SOMEONE), true))
            == Store(log + [b], TightLive())
            && Retained(log + [b]) == 40
  {
    SmallRows();
    RetainedSnoc(log, Entry(BOOT, 1, BootPayload(SOMEONE)));
  }

  lemma TightRun()
    ensures var s := Ends(TIGHT, EMPTY, [Do(EstablishEpoch, true), Do(RecordBoot(SOMEONE), true)]);
            s.live == TightLive() && Retained(s.log) == 40
  {
    TightEpoch();
    TightBoot([Entry(EPOCH, 1, EpochPayload(1))]);
    EndsTwo(TIGHT, EMPTY, Do(EstablishEpoch, true), Do(RecordBoot(SOMEONE), true));
  }

  /** A store that opens, and after a compaction never opens again: the compacted log is eight bytes longer and no one
      looks at the retention limit before the file is replaced. */
  lemma CompactionCanLoseTheStore()
    ensures var s := Ends(TIGHT, EMPTY, [Do(EstablishEpoch, true), Do(RecordBoot(SOMEONE), true)]);
            Openable(TIGHT, s.log) && !Openable(TIGHT, Advance(TIGHT, s, Compact(true)).log)
  {
    TightRun();
    TightCompacted();
    EndsTwo(TIGHT, EMPTY, Do(EstablishEpoch, true), Do(RecordBoot(SOMEONE), true));
    RunTracks(TIGHT, [Do(EstablishEpoch, true), Do(RecordBoot(SOMEONE), true)]);
  }

  // ----- operations that spoil a log

  function Crowd(epoch: nat, n: nat): (fences: seq<Fence>)
    ensures |fences| == n
  {
    seq(n, i requires 0 <= i < n => Fence(i, 0, Barrier, epoch, 0, 0, true, (0, 0)))
  }

  /** A fence that is one too many is refused, but only after its record is on disk: the store no longer opens. */
  lemma FenceAtCapacityUnreplayable(cfg: Config, st: Durable)
    requires st.epoch > 0 && st.fences == Crowd(1, MAX_FENCES)
    ensures var done := Perform(cfg, st, PutFence(Fence(MAX_FENCES, 0, Barrier, 1, 0, 0, true, (0, 0))));
            && done.Written? && done.status == Failed(LimitExceeded) && done.after == st
            && Apply(cfg, st, done.entry) == Err(LimitExceeded)
  {
    var f := Fence(MAX_FENCES, 0, Barrier, 1, 0, 0, true, (0, 0));
    FenceIsNew(st.fences, f);
    FencePutReplays(st, f);
  }

  /** Clearing the sentinel resource succeeds live and cannot be replayed. */
  lemma ClearingSentinelUnreplayable(cfg: Config, st: Durable)
    requires st.epoch > 0
    ensures var done := Perform(cfg, st, ClearRevalidation(INVALID_ID));
            done.Written? && done.status == Success && Apply(cfg, st, done.entry) == Err(OutOfRange)
  {
    ResourceReplays(cfg, st, CLEAR, INVALID_ID);
  }
}
