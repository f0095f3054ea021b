/** Durable state: what each journal record does to it when replayed, and what each store operation journals
    and does to it live. */
module StoreState {
  import opened Wrappers
  import opened Model
  import opened Bytes
  import opened StoreCodec
  import opened JournalFormat

  datatype Incarnation = Incarnation(hi: nat, lo: nat, pid: nat, index: nat, seq_: nat)
  {
    predicate Valid() { (hi != 0 || lo != 0) && seq_ != 0 }
  }

  datatype Binding = Binding(digest: Digest, generation: nat)

  datatype Durable = Durable(
    previousEpoch: nat, epoch: nat,
    boot: Option<Incarnation>, policy: Option<Policy>, binding: Option<Binding>,
    fences: seq<Fence>, lineages: seq<Digest>, revalidation: seq<nat>, attempts: seq<nat>)

  const FRESH := Durable(0, 0, None, None, None, [], [], [], [])

  datatype Config = Config(maxLineages: nat, maxFootprint: nat, maxRecordBytes: nat, maxRetained: nat)

  const MAX_FENCES: nat := 4096

  /** The part of a journal record that replay looks at. */
  datatype Entry = Entry(kind: nat, epoch: nat, payload: seq<Byte>)

  const EPOCH: nat := 1
  const BOOT: nat := 2
  const POLICY_CHANGE: nat := 3
  const FENCE_PUT: nat := 4
  const FENCE_REMOVE: nat := 5
  const BINDING: nat := 6
  const LINEAGE: nat := 7
  const REVALIDATION: nat := 8
  const ATTEMPT_BEGIN: nat := 9
  const ATTEMPT_COMMIT: nat := 10
  const ATTEMPT_ABORT: nat := 11
  const COMPACTION: nat := 12

  const REQUEST: nat := 1
  const CLEAR: nat := 2
  const FOOTPRINT: nat := 3

  const BOOT_ROW := [QUAD, QUAD, LONG, LONG, QUAD]
  const BINDING_ROW := [QUAD, QUAD, QUAD]
  const DIGEST_ROW := [QUAD, QUAD]
  const ID_ROW := [IDENT]
  const EPOCH_ROW := [QUAD]
  const OP_ROW := [BYTE]
  const RESOURCE_ROW := [BYTE, IDENT]
  const COUNT_ROW := [BYTE, LONG]

  // ----- lists kept in place

  /** Drop the first occurrence. */
  function Erase(xs: seq<nat>, x: nat): seq<nat> {
    if xs == [] then [] else if xs[0] == x then xs[1..] else [xs[0]] + Erase(xs[1..], x)
  }

  /** Position of the fence with this identity, or the length of the list. */
  function FenceAt(fences: seq<Fence>, id: nat): (i: nat)
    ensures i <= |fences|
    ensures i < |fences| ==> fences[i].id == id
    ensures forall j :: 0 <= j < i ==> fences[j].id != id
  {
    if fences == [] then 0 else if fences[0].id == id then 0 else 1 + FenceAt(fences[1..], id)
  }

  function WithFence(fences: seq<Fence>, f: Fence): seq<Fence> {
    var i := FenceAt(fences, f.id);
    if i < |fences| then fences[i := f] else fences + [f]
  }

  function WithoutFence(fences: seq<Fence>, id: nat): seq<Fence> {
    var i := FenceAt(fences, id);
    if i < |fences| then fences[..i] + fences[i + 1..] else fences
  }

  /** Keep at most max lineages, forgetting the oldest first. */
  function Remember(lineages: seq<Digest>, lineage: Digest, max: nat): seq<Digest> {
    if lineage in lineages then lineages
    else (if |lineages| >= max && lineages != [] then lineages[1..] else lineages) + [lineage]
  }

  function Request(list: seq<nat>, resource: nat, max: nat): seq<nat> {
    if resource in list || |list| >= max then list else list + [resource]
  }

  /** Live recording of a footprint: stops at the first new resource that does not fit. */
  function Absorb(list: seq<nat>, pairs: seq<(nat, nat)>, max: nat): seq<nat>
    decreases |pairs|
  {
    if pairs == [] then list
    else if pairs[0].1 in list then Absorb(list, pairs[1..], max)
    else if |list| >= max then list
    else Absorb(list + [pairs[0].1], pairs[1..], max)
  }

  // ----- replaying one record

  function ApplyBoot(st: Durable, s: seq<Byte>): Result<Durable> {
    var v := UnpackExactly(BOOT_ROW, s);
    if v.Err? then Err(v.error)
    else Ok(st.(boot := Some(Incarnation(v.value[0], v.value[1], v.value[2], v.value[3], v.value[4]))))
  }

  function ApplyPolicy(st: Durable, s: seq<Byte>): Result<Durable> {
    var p := DecodePolicy(s);
    if p.Err? then Err(p.error) else Ok(st.(policy := Some(p.value)))
  }

  function ApplyBinding(st: Durable, s: seq<Byte>): Result<Durable> {
    var v := UnpackExactly(BINDING_ROW, s);
    if v.Err? then Err(v.error) else Ok(st.(binding := Some(Binding(Digest(v.value[0], v.value[1]), v.value[2]))))
  }

  function ApplyFencePut(st: Durable, s: seq<Byte>): Result<Durable> {
    var f := DecodeFence(s);
    if f.Err? then Err(f.error)
    else if FenceAt(st.fences, f.value.id) == |st.fences| >= MAX_FENCES then Err(LimitExceeded)
    else Ok(st.(fences := WithFence(st.fences, f.value)))
  }

  function ApplyFenceRemove(st: Durable, s: seq<Byte>): Result<Durable> {
    var v := Unpack(ID_ROW, s);
    if v.Err? then Err(v.error)
    else if FenceAt(st.fences, v.value[0]) == |st.fences| then Err(NotFound)
    else if |s| > Total(ID_ROW) then Err(MalformedInput)
    else Ok(st.(fences := WithoutFence(st.fences, v.value[0])))
  }

  function ApplyLineage(cfg: Config, st: Durable, s: seq<Byte>): Result<Durable> {
    var v := Unpack(DIGEST_ROW, s);
    if v.Err? then Err(v.error)
    else Ok(st.(lineages := Remember(st.lineages, Digest(v.value[0], v.value[1]), cfg.maxLineages)))
  }

  /** Replayed footprint: every pair is read and checked; a full list takes no more. */
  function ReadPairs(list: seq<nat>, s: seq<Byte>, count: nat, max: nat): Result<(seq<nat>, seq<Byte>)>
    decreases count
  {
    if count == 0 then Ok((list, s))
    else
      var v := Unpack(DIGEST_ROW, s);
      if v.Err? || |s| < 16 then Err(TruncatedInput)
      else if v.value[0] == INVALID_ID || v.value[1] == INVALID_ID then Err(OutOfRange)
      else ReadPairs(Request(list, v.value[1], max), s[16..], count - 1, max)
  }

  function ApplyRevalidation(cfg: Config, st: Durable, s: seq<Byte>): Result<Durable> {
    var op := Unpack(OP_ROW, s);
    if op.Err? then Err(op.error)
    else if op.value[0] == REQUEST || op.value[0] == CLEAR then ApplyOneResource(cfg, st, s, op.value[0])
    else if op.value[0] == FOOTPRINT then ApplyFootprint(cfg, st, s)
    else Err(MalformedInput)
  }

  function ApplyOneResource(cfg: Config, st: Durable, s: seq<Byte>, op: nat): Result<Durable> {
    var v := Unpack(RESOURCE_ROW, s);
    if v.Err? then Err(v.error)
    else
      var resource := v.value[1];
      if op == REQUEST && resource !in st.revalidation && |st.revalidation| >= cfg.maxFootprint then Ok(st)
      else if |s| > Total(RESOURCE_ROW) then Err(MalformedInput)
      else Ok(st.(revalidation := if op == REQUEST then Request(st.revalidation, resource, cfg.maxFootprint)
                                  else Erase(st.revalidation, resource)))
  }

  function ApplyFootprint(cfg: Config, st: Durable, s: seq<Byte>): Result<Durable> {
    var v := Unpack(COUNT_ROW, s);
    if v.Err? || |s| < 5 then Err(TruncatedInput)
    else if v.value[1] > cfg.maxFootprint then Err(OversizedInput)
    else
      var r := ReadPairs(st.revalidation, s[5..], v.value[1], cfg.maxFootprint);
      if r.Err? then Err(r.error)
      else if r.value.1 != [] then Err(MalformedInput)
      else Ok(st.(revalidation := r.value.0))
  }

  function ApplyBegin(st: Durable, s: seq<Byte>): Result<Durable> {
    var v := Unpack(ID_ROW, s);
    if v.Err? then Err(v.error)
    else if v.value[0] in st.attempts then Err(Duplicate)
    else if |s| > Total(ID_ROW) then Err(MalformedInput)
    else Ok(st.(attempts := st.attempts + [v.value[0]]))
  }

  function ApplyClose(st: Durable, s: seq<Byte>): Result<Durable> {
    var v := Unpack(ID_ROW, s);
    if v.Err? then Err(v.error)
    else if v.value[0] !in st.attempts then Err(NotFound)
    else if |s| > Total(ID_ROW) then Err(MalformedInput)
    else Ok(st.(attempts := Erase(st.attempts, v.value[0])))
  }

  function ApplyCompaction(st: Durable, s: seq<Byte>): Result<Durable> {
    var v := UnpackExactly(EPOCH_ROW, s);
    if v.Err? then Err(v.error) else Ok(st.(previousEpoch := v.value[0]))
  }

  function Apply(cfg: Config, st: Durable, e: Entry): Result<Durable> {
    if e.kind == EPOCH then Ok(st.(previousEpoch := st.epoch, epoch := e.epoch))
    else if e.kind == BOOT then ApplyBoot(st, e.payload)
    else if e.kind == POLICY_CHANGE then ApplyPolicy(st, e.payload)
    else if e.kind == BINDING then ApplyBinding(st, e.payload)
    else if e.kind == FENCE_PUT then ApplyFencePut(st, e.payload)
    else if e.kind == FENCE_REMOVE then ApplyFenceRemove(st, e.payload)
    else if e.kind == LINEAGE then ApplyLineage(cfg, st, e.payload)
    else if e.kind == REVALIDATION then ApplyRevalidation(cfg, st, e.payload)
    else if e.kind == ATTEMPT_BEGIN then ApplyBegin(st, e.payload)
    else if e.kind == ATTEMPT_COMMIT || e.kind == ATTEMPT_ABORT then ApplyClose(st, e.payload)
    else if e.kind == COMPACTION then ApplyCompaction(st, e.payload)
    else Err(MalformedInput)
  }

  /** Replay a log from a given state; the first record that cannot be applied fails the whole replay. */
  function Replay(cfg: Config, st: Durable, log: seq<Entry>): Result<Durable>
    decreases |log|
  {
    if log == [] then Ok(st)
    else
      var next := Apply(cfg, st, log[0]);
      if next.Err? then next else Replay(cfg, next.value, log[1..])
  }

  /** Payload bytes that opening the log keeps in memory. */
  function Retained(log: seq<Entry>): nat {
    if log == [] then 0 else Retained(log[..|log| - 1]) + |log[|log| - 1].payload|
  }

  /** The log is within the retention limit and every record can be applied. */
  predicate Openable(cfg: Config, log: seq<Entry>) {
    Retained(log) <= cfg.maxRetained && Replay(cfg, FRESH, log).Ok?
  }

  lemma RetainedSnoc(log: seq<Entry>, e: Entry)
    ensures Retained(log + [e]) == Retained(log) + |e.payload|
  {
    assert (log + [e])[..|log|] == log;
  }

  lemma {:induction false} RetainedPrefix(log: seq<Entry>, k: nat)
    requires k <= |log|
    ensures Retained(log[..k]) <= Retained(log)
  {
    if k == |log| {
      assert log[..k] == log;
    } else {
      RetainedPrefix(log[..|log| - 1], k);
      assert log[..|log| - 1][..k] == log[..k];
    }
  }

  // ----- live operations

  datatype Op =
    | EstablishEpoch
    | RecordBoot(incarnation: Incarnation)
    | PersistPolicy(policy: Policy)
    | BindTopology(binding: Binding)
    | PutFence(fence: Fence)
    | RemoveFence(fenceId: nat)
    | RecordLineage(lineage: Digest)
    | RequestRevalidation(resource: nat)
    | ClearRevalidation(cleared: nat)
    | RecordFootprint(pairs: seq<(nat, nat)>)
    | BeginAttempt(attempt: nat)
    | CommitAttempt(committed: nat)
    | AbortAttempt(aborted: nat)

  /** What an operation does when the journal accepts its record. */
  datatype Effect =
    | Refused(error: Error)
    | Unchanged
    | Written(entry: Entry, after: Durable, status: Status)

  function EncodePairs(pairs: seq<(nat, nat)>): (s: seq<Byte>)
    ensures |s| == 16 * |pairs|
  {
    DigestRowSize();
    if pairs == [] then [] else Pack(DIGEST_ROW, [pairs[0].0, pairs[0].1]) + EncodePairs(pairs[1..])
  }

  lemma DigestRowSize()
    ensures Total(DIGEST_ROW) == 16
  {
    TotalFrom(DIGEST_ROW, 0);
    TotalFrom(DIGEST_ROW, 1);
    assert DIGEST_ROW[0..] == DIGEST_ROW && DIGEST_ROW[2..] == [];
  }

  function FootprintPayload(pairs: seq<(nat, nat)>): seq<Byte> {
    Pack(COUNT_ROW, [FOOTPRINT, |pairs|]) + EncodePairs(pairs)
  }

  function IdPayload(id: nat): seq<Byte> { Pack(ID_ROW, [id]) }

  function EpochPayload(epoch: nat): seq<Byte> { Pack(EPOCH_ROW, [epoch]) }

  function ResourcePayload(op: nat, resource: nat): seq<Byte> { Pack(RESOURCE_ROW, [op, resource]) }

  function BootPayload(i: Incarnation): seq<Byte> { Pack(BOOT_ROW, [i.hi, i.lo, i.pid, i.index, i.seq_]) }

  function BindingPayload(b: Binding): seq<Byte> { Pack(BINDING_ROW, [b.digest.hi, b.digest.lo, b.generation]) }

  function DigestPayload(d: Digest): seq<Byte> { Pack(DIGEST_ROW, [d.hi, d.lo]) }

  predicate FreshAtCapacity(st: Durable, f: Fence) { FenceAt(st.fences, f.id) == |st.fences| >= MAX_FENCES }

  function PerformPolicy(st: Durable, p: Policy): Effect {
    if PolicyFault(p).Some? then Refused(PolicyFault(p).value)
    else if st.epoch == 0 then Refused(NotReady)
    else if st.policy.Some? && st.policy.value.id == p.id && p.generation <= st.policy.value.generation then
      if st.policy.value == p then Unchanged else Refused(StaleGeneration)
    else Written(Entry(POLICY_CHANGE, st.epoch, EncodePolicy(p)), st.(policy := Some(p)), Success)
  }

  /** The record is written before the capacity of the fence list is looked at. */
  function PerformPutFence(st: Durable, f: Fence): Effect {
    if FenceFault(f).Some? then Refused(FenceFault(f).value)
    else if st.epoch == 0 then Refused(NotReady)
    else
      var entry := Entry(FENCE_PUT, st.epoch, EncodeFence(f));
      if FreshAtCapacity(st, f) then Written(entry, st, Failed(LimitExceeded))
      else Written(entry, st.(fences := WithFence(st.fences, f)), Success)
  }

  function PerformRequest(cfg: Config, st: Durable, resource: nat): Effect {
    if resource == INVALID_ID then Refused(InvalidArgument)
    else if st.epoch == 0 then Refused(NotReady)
    else
      var full := resource !in st.revalidation && |st.revalidation| >= cfg.maxFootprint;
      Written(Entry(REVALIDATION, st.epoch, ResourcePayload(REQUEST, resource)),
              st.(revalidation := Request(st.revalidation, resource, cfg.maxFootprint)),
              if full then Failed(LimitExceeded) else Success)
  }

  function PerformFootprint(cfg: Config, st: Durable, pairs: seq<(nat, nat)>): Effect {
    if st.epoch == 0 then Refused(NotReady)
    else if |pairs| > cfg.maxFootprint || 5 + 16 * |pairs| > cfg.maxRecordBytes then Refused(OversizedInput)
    else Written(Entry(REVALIDATION, st.epoch, FootprintPayload(pairs)),
                 st.(revalidation := Absorb(st.revalidation, pairs, cfg.maxFootprint)), Success)
  }

  function PerformBegin(st: Durable, id: nat): Effect {
    if id == INVALID_ID then Refused(InvalidArgument)
    else if st.epoch == 0 then Refused(NotReady)
    else if id in st.attempts then Refused(Duplicate)
    else Written(Entry(ATTEMPT_BEGIN, st.epoch, IdPayload(id)), st.(attempts := st.attempts + [id]), Success)
  }

  function PerformClose(st: Durable, kind: nat, id: nat): Effect {
    if id !in st.attempts then Refused(NotFound)
    else Written(Entry(kind, st.epoch, IdPayload(id)), st.(attempts := Erase(st.attempts, id)), Success)
  }

  function PerformEpoch(st: Durable): Effect {
    if st.epoch == MAX_U64 then Refused(Overflow)
    else Written(Entry(EPOCH, st.epoch + 1, EpochPayload(st.epoch + 1)),
                 st.(previousEpoch := st.epoch, epoch := st.epoch + 1), Success)
  }

  function Perform(cfg: Config, st: Durable, op: Op): Effect {
    match op
    case EstablishEpoch => PerformEpoch(st)
    case RecordBoot(i) =>
      if !i.Valid() then Refused(InvalidArgument)
      else if st.epoch == 0 then Refused(NotReady)
      else Written(Entry(BOOT, st.epoch, BootPayload(i)), st.(boot := Some(i)), Success)
    case PersistPolicy(p) => PerformPolicy(st, p)
    case BindTopology(b) =>
      if b.digest == Digest(0, 0) || b.generation == 0 then Refused(InvalidArgument)
      else if st.epoch == 0 then Refused(NotReady)
      else Written(Entry(BINDING, st.epoch, BindingPayload(b)), st.(binding := Some(b)), Success)
    case PutFence(f) => PerformPutFence(st, f)
    case RemoveFence(id) =>
      if st.epoch == 0 then Refused(NotReady)
      else if FenceAt(st.fences, id) == |st.fences| then Refused(NotFound)
      else Written(Entry(FENCE_REMOVE, st.epoch, IdPayload(id)), st.(fences := WithoutFence(st.fences, id)), Success)
    case RecordLineage(d) =>
      if d == Digest(0, 0) then Refused(InvalidArgument)
      else if st.epoch == 0 then Refused(NotReady)
      else Written(Entry(LINEAGE, st.epoch, DigestPayload(d)),
                   st.(lineages := Remember(st.lineages, d, cfg.maxLineages)), Success)
    case RequestRevalidation(r) => PerformRequest(cfg, st, r)
    case ClearRevalidation(r) =>
      if st.epoch == 0 then Refused(NotReady)
      else Written(Entry(REVALIDATION, st.epoch, ResourcePayload(CLEAR, r)),
                   st.(revalidation := Erase(st.revalidation, r)), Success)
    case RecordFootprint(pairs) => PerformFootprint(cfg, st, pairs)
    case BeginAttempt(id) => PerformBegin(st, id)
    case CommitAttempt(id) => PerformClose(st, ATTEMPT_COMMIT, id)
    case AbortAttempt(id) => PerformClose(st, ATTEMPT_ABORT, id)
  }

  /** Lineages are journaled without waiting for the disk; everything else is synced. */
  predicate Synced(op: Op) { !op.RecordLineage? }

  /** The 64- and 32-bit words an operation is given hold any value of their width. */
  predicate Representable(op: Op) {
    match op
    case EstablishEpoch => true
    case RecordBoot(i) => IncarnationFits(i)
    case PersistPolicy(p) => PolicyFits(p)
    case BindTopology(b) => BindingFits(b)
    case PutFence(f) => FenceFits(f)
    case RemoveFence(id) => id <= MAX_U64
    case RecordLineage(d) => DigestFits(d)
    case RequestRevalidation(r) => r <= MAX_U64
    case ClearRevalidation(r) => r <= MAX_U64
    case RecordFootprint(pairs) => forall i :: 0 <= i < |pairs| ==> pairs[i].0 <= MAX_U64 && pairs[i].1 <= MAX_U64
    case BeginAttempt(id) => id <= MAX_U64
    case CommitAttempt(id) => id <= MAX_U64
    case AbortAttempt(id) => id <= MAX_U64
  }

  predicate IncarnationFits(i: Incarnation) {
    i.hi <= MAX_U64 && i.lo <= MAX_U64 && i.pid < U32 && i.index < U32 && i.seq_ <= MAX_U64
  }

  predicate DigestFits(d: Digest) { d.hi <= MAX_U64 && d.lo <= MAX_U64 }

  predicate BindingFits(b: Binding) { DigestFits(b.digest) && b.generation <= MAX_U64 }

  /** Operations whose record can be replayed. */
  predicate Sound(st: Durable, op: Op) {
    match op
    case PutFence(f) => !FreshAtCapacity(st, f)
    case ClearRevalidation(r) => r != INVALID_ID
    case RecordFootprint(pairs) => PairsValid(pairs)
    case _ => true
  }

  predicate PairsValid(pairs: seq<(nat, nat)>) {
    forall i :: 0 <= i < |pairs| ==> pairs[i].0 != INVALID_ID && pairs[i].1 != INVALID_ID
  }
}
