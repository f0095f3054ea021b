/** Which records replay accepts, and what each accepted one does to the state: told on the record's own bytes and the
    fields of the state, for any bytes, not only those a live operation wrote. */
module ReplayLaws {
  import opened Wrappers
  import opened Model
  import opened Bytes
  import opened StoreCodec
  import opened JournalFormat
  import opened StoreState
  import opened StoreRefinement
  import opened StoreLaws

  // ----- what is accepted

  /** A boot or binding record is the encoding of a value whose words fit. */
  ghost predicate IdentityTaken(st: Durable, kind: nat, s: seq<Byte>, next: Durable) {
    if kind == BOOT then exists i :: IncarnationFits(i) && s == BootPayload(i) && next == st.(boot := Some(i))
    else kind == BINDING && exists b :: BindingFits(b) && s == BindingPayload(b) && next == st.(binding := Some(b))
  }

  ghost predicate PolicyTaken(st: Durable, s: seq<Byte>, next: Durable) {
    exists p: Policy :: p.Valid() && PolicyFits(p) && s == EncodePolicy(p) && next == st.(policy := Some(p))
  }

  /** A fence is put where its identity is or, below the capacity, at the end; it is removed where its identity is. */
  ghost predicate FenceTaken(st: Durable, kind: nat, s: seq<Byte>, next: Durable) {
    && next == st.(fences := next.fences)
    && if kind == FENCE_PUT then
         exists f: Fence :: f.Valid() && FenceFits(f) && s == EncodeFence(f) && NewFences(st.fences, f, next.fences)
           && (HasFence(st, f.id) || |st.fences| < 4096)
       else
         && kind == FENCE_REMOVE
         && exists id: nat :: id < INVALID_ID && s == IdPayload(id) && LessFence(st.fences, id, next.fences)
  }

  /** A lineage record may carry anything after the lineage, the zero one included. */
  ghost predicate LineageTaken(cfg: Config, st: Durable, s: seq<Byte>, next: Durable) {
    exists d :: DigestFits(d) && |s| >= 16 && s[..16] == DigestPayload(d)
      && NewLineages(st.lineages, d, cfg.maxLineages, next.lineages) && next == st.(lineages := next.lineages)
  }

  /** A request that finds no room is accepted whatever follows it, and does nothing. */
  ghost predicate RequestTaken(cfg: Config, st: Durable, s: seq<Byte>, next: Durable) {
    exists r: nat :: r < INVALID_ID && |s| >= 9 && s[..9] == ResourcePayload(REQUEST, r)
      && if r in st.revalidation then |s| == 9 && next == st
         else if |st.revalidation| >= cfg.maxFootprint then next == st
         else |s| == 9 && next == st.(revalidation := st.revalidation + [r])
  }

  ghost predicate ClearTaken(st: Durable, s: seq<Byte>, next: Durable) {
    exists r: nat :: r < INVALID_ID && s == ResourcePayload(CLEAR, r) && next == st.(revalidation := next.revalidation)
      && if r in st.revalidation then Dropped(st.revalidation, next.revalidation, r)
         else next.revalidation == st.revalidation
  }

  ghost predicate FootprintTaken(cfg: Config, st: Durable, s: seq<Byte>, next: Durable) {
    exists pairs :: |pairs| < U32 && |pairs| <= cfg.maxFootprint && PairsValid(pairs) && AllFit(pairs)
      && s == FootprintPayload(pairs) && TakenIn(st.revalidation, pairs, cfg.maxFootprint, next.revalidation)
      && next == st.(revalidation := next.revalidation)
  }

  predicate AllFit(pairs: seq<(nat, nat)>) { forall i :: 0 <= i < |pairs| ==> PairFits(pairs[i]) }

  ghost predicate RevalidationTaken(cfg: Config, st: Durable, s: seq<Byte>, next: Durable) {
    RequestTaken(cfg, st, s, next) || ClearTaken(st, s, next) || FootprintTaken(cfg, st, s, next)
  }

  /** An attempt is begun once. */
  ghost predicate BeginTaken(st: Durable, s: seq<Byte>, next: Durable) {
    exists id: nat :: id < INVALID_ID && s == IdPayload(id) && id !in st.attempts
      && next == st.(attempts := st.attempts + [id])
  }

  /** An attempt is closed only while open. */
  ghost predicate CloseTaken(st: Durable, s: seq<Byte>, next: Durable) {
    exists id: nat :: id < INVALID_ID && s == IdPayload(id) && Dropped(st.attempts, next.attempts, id)
      && next == st.(attempts := next.attempts)
  }

  /** The record is accepted and leaves this state. */
  ghost predicate Taken(cfg: Config, st: Durable, e: Entry, next: Durable) {
    if e.kind == EPOCH then next == st.(previousEpoch := st.epoch, epoch := e.epoch)
    else if e.kind == BOOT || e.kind == BINDING then IdentityTaken(st, e.kind, e.payload, next)
    else if e.kind == POLICY_CHANGE then PolicyTaken(st, e.payload, next)
    else if e.kind == FENCE_PUT || e.kind == FENCE_REMOVE then FenceTaken(st, e.kind, e.payload, next)
    else if e.kind == LINEAGE then LineageTaken(cfg, st, e.payload, next)
    else if e.kind == REVALIDATION then RevalidationTaken(cfg, st, e.payload, next)
    else if e.kind == ATTEMPT_BEGIN then BeginTaken(st, e.payload, next)
    else if e.kind == ATTEMPT_COMMIT || e.kind == ATTEMPT_ABORT then CloseTaken(st, e.payload, next)
    else
      e.kind == COMPACTION
      && exists n: nat :: n <= MAX_U64 && e.payload == EpochPayload(n) && next == st.(previousEpoch := n)
  }

  // ----- rows

  lemma ReadsBack(columns: seq<Column>, s: seq<Byte>, values: seq<nat>)
    requires AllHold(columns, values) && |s| >= Total(columns) && s[..Total(columns)] == Pack(columns, values)
    ensures Unpack(columns, s) == Ok(values)
  {
    PackUnpack(columns, values, s[Total(columns)..]);
    assert s == s[..Total(columns)] + s[Total(columns)..];
  }

  lemma Holding(columns: seq<Column>, s: seq<Byte>)
    requires Unpack(columns, s).Ok?
    ensures |s| >= Total(columns) && s[..Total(columns)] == Pack(columns, Unpack(columns, s).value)
    ensures forall i :: 0 <= i < |columns| ==> Passes(columns[i], Unpack(columns, s).value[i])
  {
    UnpackPack(columns, s);
    AllPass(columns, s);
  }

  lemma Sizes()
    ensures Total(ID_ROW) == 8 && Total(DIGEST_ROW) == 16 && Total(RESOURCE_ROW) == 9 && Total(COUNT_ROW) == 5
  {
    DigestRowSize();
    TotalFrom(ID_ROW, 0);
    TotalFrom(RESOURCE_ROW, 0);
    TotalFrom(RESOURCE_ROW, 1);
    TotalFrom(COUNT_ROW, 0);
    TotalFrom(COUNT_ROW, 1);
    assert RESOURCE_ROW[0..] == RESOURCE_ROW && COUNT_ROW[0..] == COUNT_ROW && ID_ROW[0..] == ID_ROW;
    assert RESOURCE_ROW[2..] == [] && COUNT_ROW[2..] == [] && ID_ROW[1..] == [];
  }

  lemma IdRead(s: seq<Byte>) returns (id: nat)
    requires Unpack(ID_ROW, s).Ok?
    ensures Unpack(ID_ROW, s).value == [id] && id < INVALID_ID && |s| >= 8 && s[..8] == IdPayload(id)
  {
    Sizes();
    Holding(ID_ROW, s);
    id := Unpack(ID_ROW, s).value[0];
    assert Passes(ID_ROW[0], id);
  }

  // ----- record by record

  lemma BootExact(st: Durable, s: seq<Byte>)
    ensures ApplyBoot(st, s).Ok? ==> IdentityTaken(st, BOOT, s, ApplyBoot(st, s).value)
    ensures (exists next :: IdentityTaken(st, BOOT, s, next)) ==> ApplyBoot(st, s).Ok?
  {
    if UnpackExactly(BOOT_ROW, s).Ok? {
      Holding(BOOT_ROW, s);
      var v := Unpack(BOOT_ROW, s).value;
      var i := Incarnation(v[0], v[1], v[2], v[3], v[4]);
      assert Passes(BOOT_ROW[0], v[0]) && Passes(BOOT_ROW[1], v[1]) && Passes(BOOT_ROW[2], v[2]);
      assert Passes(BOOT_ROW[3], v[3]) && Passes(BOOT_ROW[4], v[4]);
      assert v == [i.hi, i.lo, i.pid, i.index, i.seq_] && s[..Total(BOOT_ROW)] == s;
      assert IncarnationFits(i) && s == BootPayload(i);
    }
    if next :| IdentityTaken(st, BOOT, s, next) {
      var i :| IncarnationFits(i) && s == BootPayload(i) && next == st.(boot := Some(i));
      BootReplays(st, i);
    }
  }

  lemma BindingExact(st: Durable, s: seq<Byte>)
    ensures ApplyBinding(st, s).Ok? ==> IdentityTaken(st, BINDING, s, ApplyBinding(st, s).value)
    ensures (exists next :: IdentityTaken(st, BINDING, s, next)) ==> ApplyBinding(st, s).Ok?
  {
    if UnpackExactly(BINDING_ROW, s).Ok? {
      Holding(BINDING_ROW, s);
      var v := Unpack(BINDING_ROW, s).value;
      var b := Binding(Digest(v[0], v[1]), v[2]);
      assert Passes(BINDING_ROW[0], v[0]) && Passes(BINDING_ROW[1], v[1]) && Passes(BINDING_ROW[2], v[2]);
      assert v == [b.digest.hi, b.digest.lo, b.generation] && s[..Total(BINDING_ROW)] == s;
      assert BindingFits(b) && s == BindingPayload(b);
    }
    if next :| IdentityTaken(st, BINDING, s, next) {
      var b :| BindingFits(b) && s == BindingPayload(b) && next == st.(binding := Some(b));
      BindingReplays(st, b);
    }
  }

  lemma PolicyExact(st: Durable, s: seq<Byte>)
    ensures ApplyPolicy(st, s).Ok? ==> PolicyTaken(st, s, ApplyPolicy(st, s).value)
    ensures (exists next :: PolicyTaken(st, s, next)) ==> ApplyPolicy(st, s).Ok?
  {
    if ApplyPolicy(st, s).Ok? {
      PolicyKeeps(st, s);
      PolicyCodec(s, DecodePolicy(s).value);
    }
    if next :| PolicyTaken(st, s, next) {
      var p: Policy :| p.Valid() && PolicyFits(p) && s == EncodePolicy(p) && next == st.(policy := Some(p));
      PolicyReplays(st, p);
    }
  }

  lemma FenceRead(s: seq<Byte>)
    requires DecodeFence(s).Ok?
    ensures var f := DecodeFence(s).value; f.Valid() && FenceFits(f) && s == EncodeFence(f)
  {
    AllPass(FENCE, s);
    var v := UnpackExactly(FENCE, s).value;
    assert Passes(FENCE[1], v[1]) && Passes(FENCE[2], v[2]) && Passes(FENCE[4], v[4]) && Passes(FENCE[5], v[5]);
    assert Passes(FENCE[6], v[6]) && Passes(FENCE[8], v[8]) && Passes(FENCE[9], v[9]);
    FenceCodec(s, DecodeFence(s).value);
  }

  lemma FencePutExact(st: Durable, s: seq<Byte>)
    ensures ApplyFencePut(st, s).Ok? ==> FenceTaken(st, FENCE_PUT, s, ApplyFencePut(st, s).value)
    ensures (exists next :: FenceTaken(st, FENCE_PUT, s, next)) ==> ApplyFencePut(st, s).Ok?
  {
    if ApplyFencePut(st, s).Ok? {
      var f := DecodeFence(s).value;
      FenceRead(s);
      FencePresent(st, f.id);
      PutPlaces(st.fences, f);
    }
    if next :| FenceTaken(st, FENCE_PUT, s, next) {
      var f: Fence :| f.Valid() && FenceFits(f) && s == EncodeFence(f) && NewFences(st.fences, f, next.fences)
        && (HasFence(st, f.id) || |st.fences| < 4096);
      FenceCodec(s, f);
      FencePresent(st, f.id);
    }
  }

  lemma FenceRemoveExact(st: Durable, s: seq<Byte>)
    ensures ApplyFenceRemove(st, s).Ok? ==> FenceTaken(st, FENCE_REMOVE, s, ApplyFenceRemove(st, s).value)
    ensures (exists next :: FenceTaken(st, FENCE_REMOVE, s, next)) ==> ApplyFenceRemove(st, s).Ok?
  {
    Sizes();
    if ApplyFenceRemove(st, s).Ok? {
      var id := IdRead(s);
      FencePresent(st, id);
      assert s[..8] == s;
    }
    if next :| FenceTaken(st, FENCE_REMOVE, s, next) {
      var id: nat :| id < INVALID_ID && s == IdPayload(id) && LessFence(st.fences, id, next.fences);
      FencePresent(st, id);
      IdUnpacks(id);
    }
  }

  lemma LineageExact(cfg: Config, st: Durable, s: seq<Byte>)
    ensures ApplyLineage(cfg, st, s).Ok? ==> LineageTaken(cfg, st, s, ApplyLineage(cfg, st, s).value)
    ensures (exists next :: LineageTaken(cfg, st, s, next)) ==> ApplyLineage(cfg, st, s).Ok?
  {
    Sizes();
    if ApplyLineage(cfg, st, s).Ok? {
      Holding(DIGEST_ROW, s);
      var v := Unpack(DIGEST_ROW, s).value;
      var d := Digest(v[0], v[1]);
      assert Passes(DIGEST_ROW[0], v[0]) && Passes(DIGEST_ROW[1], v[1]) && v == [d.hi, d.lo];
      assert DigestFits(d) && s[..16] == DigestPayload(d);
    }
    if next :| LineageTaken(cfg, st, s, next) {
      var d :| DigestFits(d) && |s| >= 16 && s[..16] == DigestPayload(d)
        && NewLineages(st.lineages, d, cfg.maxLineages, next.lineages) && next == st.(lineages := next.lineages);
      PairUnpacks(d.hi, d.lo, s[16..]);
      assert s == s[..16] + s[16..];
    }
  }

  lemma BeginExact(st: Durable, s: seq<Byte>)
    ensures ApplyBegin(st, s).Ok? ==> BeginTaken(st, s, ApplyBegin(st, s).value)
    ensures (exists next :: BeginTaken(st, s, next)) ==> ApplyBegin(st, s).Ok?
  {
    Sizes();
    if ApplyBegin(st, s).Ok? {
      var id := IdRead(s);
      assert s[..8] == s;
    }
    if next :| BeginTaken(st, s, next) {
      var id: nat :| id < INVALID_ID && s == IdPayload(id) && id !in st.attempts;
      IdUnpacks(id);
    }
  }

  lemma CloseExact(st: Durable, s: seq<Byte>)
    ensures ApplyClose(st, s).Ok? ==> CloseTaken(st, s, ApplyClose(st, s).value)
    ensures (exists next :: CloseTaken(st, s, next)) ==> ApplyClose(st, s).Ok?
  {
    if ApplyClose(st, s).Ok? { ClosedAttempt(st, s); }
    if next :| CloseTaken(st, s, next) { OpenAttempt(st, s, next); }
  }

  lemma ClosedAttempt(st: Durable, s: seq<Byte>)
    requires ApplyClose(st, s).Ok?
    ensures CloseTaken(st, s, ApplyClose(st, s).value)
  {
    Sizes();
    var id := IdRead(s);
    EraseDrops(st.attempts, id);
    assert s[..8] == s;
  }

  lemma OpenAttempt(st: Durable, s: seq<Byte>, next: Durable)
    requires CloseTaken(st, s, next)
    ensures ApplyClose(st, s).Ok?
  {
    var id: nat :| id < INVALID_ID && s == IdPayload(id) && Dropped(st.attempts, next.attempts, id);
    IdUnpacks(id);
  }

  lemma CompactionExact(st: Durable, s: seq<Byte>)
    ensures ApplyCompaction(st, s).Ok? ==>
              exists n: nat :: n <= MAX_U64 && s == EpochPayload(n)
                && ApplyCompaction(st, s).value == st.(previousEpoch := n)
    ensures (exists n: nat :: n <= MAX_U64 && s == EpochPayload(n)) ==> ApplyCompaction(st, s).Ok?
  {
    if UnpackExactly(EPOCH_ROW, s).Ok? {
      Holding(EPOCH_ROW, s);
      var v := Unpack(EPOCH_ROW, s).value;
      assert Passes(EPOCH_ROW[0], v[0]) && v == [v[0]] && s[..Total(EPOCH_ROW)] == s;
      assert s == EpochPayload(v[0]);
    }
    if n: nat :| n <= MAX_U64 && s == EpochPayload(n) { CompactionReplays(st, n); }
  }

  // ----- revalidation

  /** The operation byte and the resource read are those the record is the encoding of. */
  lemma ResourceRead(s: seq<Byte>, op: nat) returns (r: nat)
    requires Unpack(OP_ROW, s) == Ok([op]) && Unpack(RESOURCE_ROW, s).Ok?
    ensures Unpack(RESOURCE_ROW, s).value == [op, r] && r < INVALID_ID && |s| >= 9 && s[..9] == ResourcePayload(op, r)
  {
    Sizes();
    Holding(RESOURCE_ROW, s);
    var v := Unpack(RESOURCE_ROW, s).value;
    assert Unpack(OP_ROW, s).value[0] == Value(s[..1]) == v[0];
    assert Passes(RESOURCE_ROW[1], v[1]);
    r := v[1];
    assert v == [op, r];
  }

  lemma ResourceUnpacks(s: seq<Byte>, op: nat, r: nat)
    requires op < 256 && r < INVALID_ID && |s| >= 9 && s[..9] == ResourcePayload(op, r)
    ensures Unpack(OP_ROW, s) == Ok([op]) && Unpack(RESOURCE_ROW, s) == Ok([op, r])
  {
    Sizes();
    Powers();
    assert Holds(RESOURCE_ROW[0], op) && Holds(RESOURCE_ROW[1], r);
    AllHoldAt(RESOURCE_ROW, [op, r]);
    ReadsBack(RESOURCE_ROW, s, [op, r]);
    OpByte(RESOURCE_ROW, [op, r], s[9..]);
    assert s[..9] + s[9..] == s;
  }

  lemma RequestRead(cfg: Config, st: Durable, s: seq<Byte>)
    requires Unpack(OP_ROW, s) == Ok([REQUEST]) && ApplyRevalidation(cfg, st, s).Ok?
    ensures RequestTaken(cfg, st, s, ApplyRevalidation(cfg, st, s).value)
  {
    Sizes();
    var r := ResourceRead(s, REQUEST);
  }

  lemma ClearRead(cfg: Config, st: Durable, s: seq<Byte>)
    requires Unpack(OP_ROW, s) == Ok([CLEAR]) && ApplyRevalidation(cfg, st, s).Ok?
    ensures ClearTaken(st, s, ApplyRevalidation(cfg, st, s).value)
  {
    Sizes();
    var r := ResourceRead(s, CLEAR);
    EraseDrops(st.revalidation, r);
    assert s[..9] == s;
  }

  /** Pairs that were read are the encoding of valid pairs, taken in as a live footprint is. */
  lemma {:induction false} PairsRead(list: seq<nat>, s: seq<Byte>, count: nat, max: nat)
    returns (pairs: seq<(nat, nat)>)
    requires ReadPairs(list, s, count, max).Ok?
    ensures |pairs| == count && PairsValid(pairs) && AllFit(pairs)
    ensures var r := ReadPairs(list, s, count, max).value;
            s == EncodePairs(pairs) + r.1 && r.0 == Absorb(list, pairs, max)
    decreases count
  {
    pairs := [];
    if count > 0 {
      var p := PairRead(s);
      var rest := PairsRead(Request(list, p.1, max), s[16..], count - 1, max);
      pairs := [p] + rest;
      assert pairs[1..] == rest;
      AbsorbStep(list, pairs, max);
      PairsValidStep(pairs);
      assert s == s[..16] + s[16..];
    }
  }

  lemma PairRead(s: seq<Byte>) returns (p: (nat, nat))
    requires Unpack(DIGEST_ROW, s).Ok?
    ensures Unpack(DIGEST_ROW, s).value == [p.0, p.1] && PairFits(p)
    ensures |s| >= 16 && s[..16] == Pack(DIGEST_ROW, [p.0, p.1])
  {
    Sizes();
    Holding(DIGEST_ROW, s);
    var v := Unpack(DIGEST_ROW, s).value;
    p := (v[0], v[1]);
    assert Passes(DIGEST_ROW[0], v[0]) && Passes(DIGEST_ROW[1], v[1]) && v == [p.0, p.1];
  }

  lemma CountRead(s: seq<Byte>) returns (n: nat)
    requires Unpack(OP_ROW, s) == Ok([FOOTPRINT]) && Unpack(COUNT_ROW, s).Ok?
    ensures Unpack(COUNT_ROW, s).value == [FOOTPRINT, n] && n < U32
    ensures |s| >= 5 && s[..5] == Pack(COUNT_ROW, [FOOTPRINT, n])
  {
    Sizes();
    Holding(COUNT_ROW, s);
    var v := Unpack(COUNT_ROW, s).value;
    assert Unpack(OP_ROW, s).value[0] == Value(s[..1]) == v[0];
    n := v[1];
    assert Passes(COUNT_ROW[1], n) && v == [FOOTPRINT, n];
  }

  lemma FootprintRead(cfg: Config, st: Durable, s: seq<Byte>)
    requires Unpack(OP_ROW, s) == Ok([FOOTPRINT]) && ApplyRevalidation(cfg, st, s).Ok?
    ensures FootprintTaken(cfg, st, s, ApplyRevalidation(cfg, st, s).value)
  {
    var n := CountRead(s);
    var next := ApplyRevalidation(cfg, st, s).value;
    var pairs := PairsRead(st.revalidation, s[5..], n, cfg.maxFootprint);
    assert s == s[..5] + s[5..] == FootprintPayload(pairs);
    assert next.revalidation == Absorb(st.revalidation, pairs, cfg.maxFootprint);
    AbsorbTakes(st.revalidation, pairs, cfg.maxFootprint);
  }

  lemma RevalidationExact(cfg: Config, st: Durable, s: seq<Byte>)
    ensures ApplyRevalidation(cfg, st, s).Ok? ==> RevalidationTaken(cfg, st, s, ApplyRevalidation(cfg, st, s).value)
    ensures (exists next :: RevalidationTaken(cfg, st, s, next)) ==> ApplyRevalidation(cfg, st, s).Ok?
  {
    if ApplyRevalidation(cfg, st, s).Ok? {
      var op := Unpack(OP_ROW, s).value[0];
      assert Unpack(OP_ROW, s).value == [op];
      if op == REQUEST { RequestRead(cfg, st, s); }
      else if op == CLEAR { ClearRead(cfg, st, s); }
      else { FootprintRead(cfg, st, s); }
    }
    if next :| RevalidationTaken(cfg, st, s, next) { TakenReplays(cfg, st, s, next); }
  }

  lemma TakenReplays(cfg: Config, st: Durable, s: seq<Byte>, next: Durable)
    requires RevalidationTaken(cfg, st, s, next)
    ensures ApplyRevalidation(cfg, st, s).Ok?
  {
    Sizes();
    if RequestTaken(cfg, st, s, next) {
      var r: nat :| r < INVALID_ID && |s| >= 9 && s[..9] == ResourcePayload(REQUEST, r)
        && if r in st.revalidation then |s| == 9 && next == st
           else if |st.revalidation| >= cfg.maxFootprint then next == st
           else |s| == 9 && next == st.(revalidation := st.revalidation + [r]);
      ResourceUnpacks(s, REQUEST, r);
    } else if ClearTaken(st, s, next) {
      var r: nat :| r < INVALID_ID && s == ResourcePayload(CLEAR, r);
      assert s[..9] == s;
      ResourceUnpacks(s, CLEAR, r);
    } else {
      var pairs :| |pairs| < U32 && |pairs| <= cfg.maxFootprint && PairsValid(pairs) && AllFit(pairs)
        && s == FootprintPayload(pairs);
      FootprintReplays(cfg, st, pairs);
    }
  }

  // ----- every record

  /** Replay accepts a record exactly when some state follows from it, and leaves one that does. */
  lemma ReplayExact(cfg: Config, st: Durable, e: Entry)
    ensures Apply(cfg, st, e).Ok? ==> Taken(cfg, st, e, Apply(cfg, st, e).value)
    ensures Apply(cfg, st, e).Err? ==> forall next :: !Taken(cfg, st, e, next)
  {
    if e.kind == BOOT { BootExact(st, e.payload); }
    else if e.kind == BINDING { BindingExact(st, e.payload); }
    else if e.kind == POLICY_CHANGE { PolicyExact(st, e.payload); }
    else if e.kind == FENCE_PUT { FencePutExact(st, e.payload); }
    else if e.kind == FENCE_REMOVE { FenceRemoveExact(st, e.payload); }
    else if e.kind == LINEAGE { LineageExact(cfg, st, e.payload); }
    else if e.kind == REVALIDATION { RevalidationExact(cfg, st, e.payload); }
    else if e.kind == ATTEMPT_BEGIN { BeginExact(st, e.payload); }
    else if e.kind == ATTEMPT_COMMIT || e.kind == ATTEMPT_ABORT { CloseExact(st, e.payload); }
    else if e.kind == COMPACTION { CompactionExact(st, e.payload); }
  }
}
