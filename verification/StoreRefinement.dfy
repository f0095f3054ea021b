/** The journal refines the live state: after any run of operations and compactions, replaying the log from
    nothing gives the state the store holds in memory. */
module StoreRefinement {
  import opened Wrappers
  import opened Model
  import opened Bytes
  import opened StoreCodec
  import opened JournalFormat
  import opened StoreState

  // ----- well-formed states

  predicate Distinct<T(==)>(xs: seq<T>) { forall i, j :: 0 <= i < j < |xs| ==> xs[i] != xs[j] }

  predicate FencesOk(fences: seq<Fence>) {
    && |fences| <= MAX_FENCES
    && (forall i :: 0 <= i < |fences| ==> fences[i].Valid() && FenceFits(fences[i]))
    && (forall i, j :: 0 <= i < j < |fences| ==> fences[i].id != fences[j].id)
  }

  predicate LineagesOk(cfg: Config, lineages: seq<Digest>) {
    |lineages| <= cfg.maxLineages && Distinct(lineages) && forall i :: 0 <= i < |lineages| ==> DigestFits(lineages[i])
  }

  predicate IdsOk(ids: seq<nat>) { Distinct(ids) && forall i :: 0 <= i < |ids| ==> ids[i] < INVALID_ID }

  predicate WellFormed(cfg: Config, st: Durable) {
    && cfg.maxLineages >= 1 && st.epoch <= MAX_U64
    && (st.boot.Some? ==> IncarnationFits(st.boot.value))
    && (st.policy.Some? ==> st.policy.value.Valid() && PolicyFits(st.policy.value))
    && (st.binding.Some? ==> BindingFits(st.binding.value))
    && FencesOk(st.fences) && LineagesOk(cfg, st.lineages)
    && IdsOk(st.revalidation) && |st.revalidation| <= cfg.maxFootprint && IdsOk(st.attempts)
  }

  // ----- lists

  lemma {:induction false} EraseKeeps(xs: seq<nat>, x: nat)
    requires IdsOk(xs)
    ensures IdsOk(Erase(xs, x)) && |Erase(xs, x)| <= |xs|
    ensures forall y :: y in Erase(xs, x) <==> y in xs && y != x
  {
    if xs != [] {
      assert xs == [xs[0]] + xs[1..];
      EraseKeeps(xs[1..], x);
      assert xs[0] !in xs[1..];
    }
  }

  lemma WithFenceKeeps(fences: seq<Fence>, f: Fence)
    requires FencesOk(fences) && f.Valid() && FenceFits(f)
             && (FenceAt(fences, f.id) < |fences| || |fences| < MAX_FENCES)
    ensures FencesOk(WithFence(fences, f))
  {
    var i := FenceAt(fences, f.id);
    if i < |fences| { assert fences[i].id == f.id; }
  }

  lemma WithoutFenceKeeps(fences: seq<Fence>, id: nat)
    requires FencesOk(fences)
    ensures FencesOk(WithoutFence(fences, id))
  {
    var i := FenceAt(fences, id);
    if i < |fences| {
      var rest := fences[..i] + fences[i + 1..];
      assert forall k :: 0 <= k < |rest| ==> rest[k] == fences[if k < i then k else k + 1];
    }
  }

  /** Putting a fence replaces the one with its identity and no other; removing takes that one and no other. */
  lemma FenceListOps(fences: seq<Fence>, f: Fence, id: nat)
    requires FencesOk(fences)
    ensures forall g :: g in WithFence(fences, f) <==> g == f || (g in fences && g.id != f.id)
    ensures forall g :: g in WithoutFence(fences, id) <==> g in fences && g.id != id
  {
    PutMembers(fences, f);
    RemoveMembers(fences, id);
  }

  lemma PutMembers(fences: seq<Fence>, f: Fence)
    requires FencesOk(fences)
    ensures forall g :: g in WithFence(fences, f) <==> g == f || (g in fences && g.id != f.id)
  {
    var i, next := FenceAt(fences, f.id), WithFence(fences, f);
    assert next[if i < |fences| then i else |fences|] == f;
    forall g ensures g in next <==> g == f || (g in fences && g.id != f.id) {
      if g in next && g != f {
        var j :| 0 <= j < |next| && next[j] == g;
        assert j < |fences| && j != i && fences[j] == g;
        assert i < |fences| ==> fences[i].id != fences[j].id;
      }
      if g in fences && g.id != f.id {
        var j :| 0 <= j < |fences| && fences[j] == g;
        assert next[j] == g;
      }
    }
  }

  lemma RemoveMembers(fences: seq<Fence>, id: nat)
    requires FencesOk(fences)
    ensures forall g :: g in WithoutFence(fences, id) <==> g in fences && g.id != id
  {
    var i, next := FenceAt(fences, id), WithoutFence(fences, id);
    forall g ensures g in next <==> g in fences && g.id != id {
      if g in next {
        var k :| 0 <= k < |next| && next[k] == g;
        var j := if k < i then k else k + 1;
        assert i < |fences| ==> fences[j] == g && fences[i].id != fences[j].id;
      }
      if g in fences && g.id != id {
        var j :| 0 <= j < |fences| && fences[j] == g;
        assert j != i && next[if j < i then j else j - 1] == g;
      }
    }
  }

  lemma RememberKeeps(cfg: Config, lineages: seq<Digest>, d: Digest)
    requires cfg.maxLineages >= 1 && LineagesOk(cfg, lineages) && DigestFits(d)
    ensures LineagesOk(cfg, Remember(lineages, d, cfg.maxLineages))
  {
    if d !in lineages {
      var rest := if |lineages| >= cfg.maxLineages && lineages != [] then lineages[1..] else lineages;
      assert Distinct(rest + [d]);
    }
  }

  lemma RequestKeeps(list: seq<nat>, resource: nat, max: nat)
    requires IdsOk(list) && |list| <= max && resource < INVALID_ID
    ensures IdsOk(Request(list, resource, max)) && |Request(list, resource, max)| <= max
  {
  }

  lemma {:induction false} ReadPairsKeeps(list: seq<nat>, s: seq<Byte>, count: nat, max: nat)
    requires IdsOk(list) && |list| <= max && ReadPairs(list, s, count, max).Ok?
    ensures var r := ReadPairs(list, s, count, max).value.0; IdsOk(r) && |r| <= max
    decreases count
  {
    if count > 0 {
      AllPass(DIGEST_ROW, s);
      var v := Unpack(DIGEST_ROW, s).value;
      assert Passes(DIGEST_ROW[1], v[1]);
      RequestKeeps(list, v[1], max);
      ReadPairsKeeps(Request(list, v[1], max), s[16..], count - 1, max);
    }
  }

  lemma RevalidationKeeps(cfg: Config, st: Durable, s: seq<Byte>)
    requires IdsOk(st.revalidation) && |st.revalidation| <= cfg.maxFootprint && ApplyRevalidation(cfg, st, s).Ok?
    ensures var r := ApplyRevalidation(cfg, st, s).value;
            r == st.(revalidation := r.revalidation) && IdsOk(r.revalidation) && |r.revalidation| <= cfg.maxFootprint
  {
    if Unpack(OP_ROW, s).value[0] == FOOTPRINT {
      ReadPairsKeeps(st.revalidation, s[5..], Unpack(COUNT_ROW, s).value[1], cfg.maxFootprint);
    } else {
      AllPass(RESOURCE_ROW, s);
      var resource := Unpack(RESOURCE_ROW, s).value[1];
      assert Passes(RESOURCE_ROW[1], resource);
      EraseKeeps(st.revalidation, resource);
      RequestKeeps(st.revalidation, resource, cfg.maxFootprint);
    }
  }

  lemma AttemptKeeps(st: Durable, s: seq<Byte>)
    requires IdsOk(st.attempts)
    ensures ApplyBegin(st, s).Ok? ==> IdsOk(ApplyBegin(st, s).value.attempts)
    ensures ApplyClose(st, s).Ok? ==> IdsOk(ApplyClose(st, s).value.attempts)
  {
    if Unpack(ID_ROW, s).Ok? {
      AllPass(ID_ROW, s);
      var id := Unpack(ID_ROW, s).value[0];
      assert Passes(ID_ROW[0], id);
      EraseKeeps(st.attempts, id);
    }
  }

  lemma FenceKeeps(st: Durable, s: seq<Byte>)
    requires FencesOk(st.fences)
    ensures ApplyFencePut(st, s).Ok? ==> FencesOk(ApplyFencePut(st, s).value.fences)
    ensures ApplyFenceRemove(st, s).Ok? ==> FencesOk(ApplyFenceRemove(st, s).value.fences)
  {
    if ApplyFencePut(st, s).Ok? {
      AllPass(FENCE, s);
      var v := UnpackExactly(FENCE, s).value;
      assert Passes(FENCE[1], v[1]) && Passes(FENCE[2], v[2]) && Passes(FENCE[4], v[4]) && Passes(FENCE[5], v[5]);
      assert Passes(FENCE[6], v[6]) && Passes(FENCE[8], v[8]) && Passes(FENCE[9], v[9]);
      WithFenceKeeps(st.fences, DecodeFence(s).value);
    }
    if ApplyFenceRemove(st, s).Ok? { WithoutFenceKeeps(st.fences, Unpack(ID_ROW, s).value[0]); }
  }

  lemma LineageKeeps(cfg: Config, st: Durable, s: seq<Byte>)
    requires cfg.maxLineages >= 1 && LineagesOk(cfg, st.lineages)
    ensures ApplyLineage(cfg, st, s).Ok? ==> LineagesOk(cfg, ApplyLineage(cfg, st, s).value.lineages)
  {
    if Unpack(DIGEST_ROW, s).Ok? {
      AllPass(DIGEST_ROW, s);
      var v := Unpack(DIGEST_ROW, s).value;
      assert Passes(DIGEST_ROW[0], v[0]) && Passes(DIGEST_ROW[1], v[1]);
      RememberKeeps(cfg, st.lineages, Digest(v[0], v[1]));
    }
  }

  lemma IdentityKeeps(st: Durable, s: seq<Byte>)
    ensures ApplyBoot(st, s).Ok? ==> IncarnationFits(ApplyBoot(st, s).value.boot.value)
    ensures ApplyBinding(st, s).Ok? ==> BindingFits(ApplyBinding(st, s).value.binding.value)
  {
    if ApplyBoot(st, s).Ok? {
      AllPass(BOOT_ROW, s);
      var v := UnpackExactly(BOOT_ROW, s).value;
      assert Passes(BOOT_ROW[0], v[0]) && Passes(BOOT_ROW[1], v[1]) && Passes(BOOT_ROW[2], v[2]);
      assert Passes(BOOT_ROW[3], v[3]) && Passes(BOOT_ROW[4], v[4]);
    }
    if ApplyBinding(st, s).Ok? {
      AllPass(BINDING_ROW, s);
      var v := UnpackExactly(BINDING_ROW, s).value;
      assert Passes(BINDING_ROW[0], v[0]) && Passes(BINDING_ROW[1], v[1]) && Passes(BINDING_ROW[2], v[2]);
    }
  }

  lemma PolicyKeeps(st: Durable, s: seq<Byte>)
    requires ApplyPolicy(st, s).Ok?
    ensures var p := ApplyPolicy(st, s).value.policy.value; p.Valid() && PolicyFits(p)
  {
    AllPass(POLICY, s);
    var v := UnpackExactly(POLICY, s).value;
    assert Passes(POLICY[1], v[1]) && Passes(POLICY[2], v[2]) && Passes(POLICY[11], v[11]) && Passes(POLICY[19], v[19]);
  }

  /** Whatever bytes a record carries, replaying it leaves a well-formed state or fails. */
  lemma ApplyKeeps(cfg: Config, st: Durable, e: Entry)
    requires WellFormed(cfg, st) && e.epoch <= MAX_U64 && Apply(cfg, st, e).Ok?
    ensures WellFormed(cfg, Apply(cfg, st, e).value)
  {
    if e.kind == BOOT || e.kind == BINDING {
      IdentityKeeps(st, e.payload);
    } else if e.kind == POLICY_CHANGE {
      PolicyKeeps(st, e.payload);
    } else if e.kind == FENCE_PUT || e.kind == FENCE_REMOVE {
      FenceKeeps(st, e.payload);
    } else if e.kind == LINEAGE {
      LineageKeeps(cfg, st, e.payload);
    } else if e.kind == REVALIDATION {
      RevalidationKeeps(cfg, st, e.payload);
    } else if e.kind == ATTEMPT_BEGIN || e.kind == ATTEMPT_COMMIT || e.kind == ATTEMPT_ABORT {
      AttemptKeeps(st, e.payload);
    }
  }

  lemma {:induction false} ReplayKeeps(cfg: Config, st: Durable, log: seq<Entry>)
    requires WellFormed(cfg, st) && Replay(cfg, st, log).Ok?
    requires forall i :: 0 <= i < |log| ==> log[i].epoch <= MAX_U64
    ensures WellFormed(cfg, Replay(cfg, st, log).value)
    decreases |log|
  {
    if log != [] {
      assert log[0].epoch <= MAX_U64;
      assert forall i :: 0 <= i < |log| - 1 ==> log[1..][i] == log[i + 1];
      ApplyKeeps(cfg, st, log[0]);
      ReplayKeeps(cfg, Apply(cfg, st, log[0]).value, log[1..]);
    }
  }

  // ----- a journaled record, replayed

  lemma RowUnpacks(columns: seq<Column>, values: seq<nat>)
    requires |columns| == |values| && forall i :: 0 <= i < |columns| ==> Holds(columns[i], values[i])
    ensures UnpackExactly(columns, Pack(columns, values)) == Ok(values)
    ensures Unpack(columns, Pack(columns, values)) == Ok(values) && |Pack(columns, values)| == Total(columns)
  {
    AllHoldAt(columns, values);
    UnpackExactlyIff(columns, Pack(columns, values), values);
  }

  lemma IdUnpacks(id: nat)
    requires id < INVALID_ID
    ensures Unpack(ID_ROW, IdPayload(id)) == Ok([id]) && |IdPayload(id)| == Total(ID_ROW)
  {
    Powers();
    RowUnpacks(ID_ROW, [id]);
  }

  lemma InvalidIdRefused(rest: seq<Byte>)
    ensures Unpack(ID_ROW, IdPayload(INVALID_ID) + rest).Err?
  {
    Powers();
    LeRoundTrip(INVALID_ID, 8);
    assert IdPayload(INVALID_ID) == Le(INVALID_ID, 8) + [];
    assert (IdPayload(INVALID_ID) + rest)[..8] == Le(INVALID_ID, 8);
  }

  lemma BootReplays(st: Durable, i: Incarnation)
    requires IncarnationFits(i)
    ensures ApplyBoot(st, BootPayload(i)) == Ok(st.(boot := Some(i)))
  {
    Powers();
    RowUnpacks(BOOT_ROW, [i.hi, i.lo, i.pid, i.index, i.seq_]);
  }

  lemma PolicyReplays(st: Durable, p: Policy)
    requires p.Valid() && PolicyFits(p)
    ensures ApplyPolicy(st, EncodePolicy(p)) == Ok(st.(policy := Some(p)))
  {
    PolicyCodec(EncodePolicy(p), p);
  }

  lemma BindingReplays(st: Durable, b: Binding)
    requires BindingFits(b)
    ensures ApplyBinding(st, BindingPayload(b)) == Ok(st.(binding := Some(b)))
  {
    Powers();
    RowUnpacks(BINDING_ROW, [b.digest.hi, b.digest.lo, b.generation]);
  }

  lemma FencePutReplays(st: Durable, f: Fence)
    requires f.Valid() && FenceFits(f)
    ensures ApplyFencePut(st, EncodeFence(f)) ==
            if FreshAtCapacity(st, f) then Err(LimitExceeded) else Ok(st.(fences := WithFence(st.fences, f)))
  {
    FenceCodec(EncodeFence(f), f);
  }

  lemma FenceRemoveReplays(st: Durable, id: nat)
    requires FencesOk(st.fences) && FenceAt(st.fences, id) < |st.fences|
    ensures ApplyFenceRemove(st, IdPayload(id)) == Ok(st.(fences := WithoutFence(st.fences, id)))
  {
    assert st.fences[FenceAt(st.fences, id)].Valid();
    IdUnpacks(id);
  }

  lemma LineageReplays(cfg: Config, st: Durable, d: Digest)
    requires DigestFits(d)
    ensures ApplyLineage(cfg, st, DigestPayload(d)) == Ok(st.(lineages := Remember(st.lineages, d, cfg.maxLineages)))
  {
    Powers();
    RowUnpacks(DIGEST_ROW, [d.hi, d.lo]);
  }

  lemma BeginReplays(st: Durable, id: nat)
    requires id < INVALID_ID && id !in st.attempts
    ensures ApplyBegin(st, IdPayload(id)) == Ok(st.(attempts := st.attempts + [id]))
  {
    IdUnpacks(id);
  }

  lemma CloseReplays(st: Durable, id: nat)
    requires IdsOk(st.attempts) && id in st.attempts
    ensures ApplyClose(st, IdPayload(id)) == Ok(st.(attempts := Erase(st.attempts, id)))
  {
    IdUnpacks(id);
  }

  lemma CompactionReplays(st: Durable, epoch: nat)
    requires epoch <= MAX_U64
    ensures ApplyCompaction(st, EpochPayload(epoch)) == Ok(st.(previousEpoch := epoch))
  {
    Powers();
    RowUnpacks(EPOCH_ROW, [epoch]);
  }

  /** The operation byte is read off the front. */
  lemma OpByte(columns: seq<Column>, values: seq<nat>, rest: seq<Byte>)
    requires |columns| == |values| == 2 && columns[0] == BYTE && values[0] < 256
    ensures Unpack(OP_ROW, Pack(columns, values) + rest) == Ok([values[0]])
  {
    Powers();
    LeRoundTrip(values[0], 1);
    assert (Pack(columns, values) + rest)[..1] == Le(values[0], 1);
    assert OP_ROW[1..] == [] && [values[0]] + [] == [values[0]];
    assert Passes(OP_ROW[0], values[0]);
  }

  lemma ResourceReplays(cfg: Config, st: Durable, op: nat, resource: nat)
    requires (op == REQUEST || op == CLEAR) && resource <= MAX_U64
    ensures ApplyRevalidation(cfg, st, ResourcePayload(op, resource)) ==
            if resource == INVALID_ID then Err(OutOfRange)
            else Ok(st.(revalidation := if op == REQUEST then Request(st.revalidation, resource, cfg.maxFootprint)
                                        else Erase(st.revalidation, resource)))
  {
    Powers();
    OpByte(RESOURCE_ROW, [op, resource], []);
    assert ResourcePayload(op, resource) + [] == ResourcePayload(op, resource);
    if resource == INVALID_ID {
      InvalidResourceRefused(op);
    } else {
      RowUnpacks(RESOURCE_ROW, [op, resource]);
    }
  }

  lemma InvalidResourceRefused(op: nat)
    requires op < 256
    ensures Unpack(RESOURCE_ROW, ResourcePayload(op, INVALID_ID)) == Err(OutOfRange)
  {
    Powers();
    var s := ResourcePayload(op, INVALID_ID);
    assert RESOURCE_ROW[1..] == ID_ROW && [op, INVALID_ID][1..] == [INVALID_ID];
    assert s[..1] == Le(op, 1) && s[1..] == IdPayload(INVALID_ID);
    LeRoundTrip(op, 1);
    InvalidIdRefused([]);
    assert IdPayload(INVALID_ID) + [] == IdPayload(INVALID_ID);
  }

  // ----- footprints

  lemma {:induction false} AbsorbFull(list: seq<nat>, pairs: seq<(nat, nat)>, max: nat)
    requires |list| >= max
    ensures Absorb(list, pairs, max) == list
    decreases |pairs|
  {
    if pairs != [] && pairs[0].1 in list { AbsorbFull(list, pairs[1..], max); }
  }

  lemma AbsorbStep(list: seq<nat>, pairs: seq<(nat, nat)>, max: nat)
    requires pairs != []
    ensures Absorb(list, pairs, max) == Absorb(Request(list, pairs[0].1, max), pairs[1..], max)
  {
    if pairs[0].1 !in list && |list| >= max { AbsorbFull(list, pairs[1..], max); }
  }

  lemma PairUnpacks(a: nat, b: nat, rest: seq<Byte>)
    requires a <= MAX_U64 && b <= MAX_U64
    ensures |Pack(DIGEST_ROW, [a, b])| == 16
    ensures Unpack(DIGEST_ROW, Pack(DIGEST_ROW, [a, b]) + rest) == Ok([a, b])
    ensures (Pack(DIGEST_ROW, [a, b]) + rest)[16..] == rest
  {
    Powers();
    DigestRowSize();
    AllHoldAt(DIGEST_ROW, [a, b]);
    PackUnpack(DIGEST_ROW, [a, b], rest);
  }

  predicate PairFits(p: (nat, nat)) { p.0 <= MAX_U64 && p.1 <= MAX_U64 }

  predicate PairOk(p: (nat, nat)) { p.0 != INVALID_ID && p.1 != INVALID_ID }

  lemma ReadPairsStep(list: seq<nat>, p: (nat, nat), rest: seq<Byte>, count: nat, max: nat)
    requires PairFits(p)
    ensures ReadPairs(list, Pack(DIGEST_ROW, [p.0, p.1]) + rest, count + 1, max) ==
            if PairOk(p) then ReadPairs(Request(list, p.1, max), rest, count, max) else Err(OutOfRange)
  {
    PairUnpacks(p.0, p.1, rest);
  }

  /** Live recording stops early and replay reads on, yet both end with the same list. */
  lemma {:induction false} PairsReplay(list: seq<nat>, pairs: seq<(nat, nat)>, max: nat)
    requires forall i :: 0 <= i < |pairs| ==> PairFits(pairs[i])
    ensures ReadPairs(list, EncodePairs(pairs), |pairs|, max) ==
            if PairsValid(pairs) then Ok((Absorb(list, pairs, max), [])) else Err(OutOfRange)
    decreases |pairs|
  {
    if pairs != [] {
      var p := pairs[0];
      assert PairFits(p);
      assert forall i :: 0 <= i < |pairs| - 1 ==> pairs[1..][i] == pairs[i + 1];
      ReadPairsStep(list, p, EncodePairs(pairs[1..]), |pairs| - 1, max);
      PairsReplay(Request(list, p.1, max), pairs[1..], max);
      AbsorbStep(list, pairs, max);
      PairsValidStep(pairs);
    }
  }

  lemma PairsValidStep(pairs: seq<(nat, nat)>)
    requires pairs != []
    ensures PairsValid(pairs) <==> PairOk(pairs[0]) && PairsValid(pairs[1..])
  {
    if PairsValid(pairs[1..]) && PairOk(pairs[0]) {
      forall i | 0 <= i < |pairs| ensures pairs[i].0 != INVALID_ID && pairs[i].1 != INVALID_ID {
        if i > 0 { assert pairs[1..][i - 1] == pairs[i]; }
      }
    }
  }

  lemma CountUnpacks(n: nat, rest: seq<Byte>)
    requires n < U32
    ensures |Pack(COUNT_ROW, [FOOTPRINT, n])| == 5
    ensures Unpack(COUNT_ROW, Pack(COUNT_ROW, [FOOTPRINT, n]) + rest) == Ok([FOOTPRINT, n])
    ensures (Pack(COUNT_ROW, [FOOTPRINT, n]) + rest)[5..] == rest
  {
    Powers();
    TotalFrom(COUNT_ROW, 0);
    TotalFrom(COUNT_ROW, 1);
    assert COUNT_ROW[0..] == COUNT_ROW && COUNT_ROW[2..] == [];
    AllHoldAt(COUNT_ROW, [FOOTPRINT, n]);
    PackUnpack(COUNT_ROW, [FOOTPRINT, n], rest);
  }

  lemma FootprintReplays(cfg: Config, st: Durable, pairs: seq<(nat, nat)>)
    requires |pairs| <= cfg.maxFootprint && |pairs| < U32 && forall i :: 0 <= i < |pairs| ==> PairFits(pairs[i])
    ensures ApplyRevalidation(cfg, st, FootprintPayload(pairs)) ==
            if PairsValid(pairs) then Ok(st.(revalidation := Absorb(st.revalidation, pairs, cfg.maxFootprint)))
            else Err(OutOfRange)
  {
    FootprintHead(|pairs|, EncodePairs(pairs));
    PairsReplay(st.revalidation, pairs, cfg.maxFootprint);
    FootprintBody(cfg, st, FootprintPayload(pairs), |pairs|, EncodePairs(pairs));
  }

  lemma FootprintHead(n: nat, rest: seq<Byte>)
    requires n < U32
    ensures var s := Pack(COUNT_ROW, [FOOTPRINT, n]) + rest;
            && Unpack(OP_ROW, s) == Ok([FOOTPRINT]) && Unpack(COUNT_ROW, s) == Ok([FOOTPRINT, n]) && |s| >= 5
            && s[5..] == rest
  {
    OpByte(COUNT_ROW, [FOOTPRINT, n], rest);
    CountUnpacks(n, rest);
  }

  lemma FootprintBody(cfg: Config, st: Durable, s: seq<Byte>, n: nat, rest: seq<Byte>)
    requires Unpack(OP_ROW, s) == Ok([FOOTPRINT]) && Unpack(COUNT_ROW, s) == Ok([FOOTPRINT, n]) && |s| >= 5
             && s[5..] == rest
    requires n <= cfg.maxFootprint
    ensures ApplyRevalidation(cfg, st, s) ==
            match ReadPairs(st.revalidation, rest, n, cfg.maxFootprint)
            case Err(e) => Err(e)
            case Ok(r) => if r.1 == [] then Ok(st.(revalidation := r.0)) else Err(MalformedInput)
  {
  }

  // ----- one operation

  /** The record that an operation journals replays to the operation's own effect, exactly when it is sound. */
  ghost predicate Follows(cfg: Config, st: Durable, op: Op) {
    var done := Perform(cfg, st, op);
    done.Written? ==>
      if Sound(st, op) then Apply(cfg, st, done.entry) == Ok(done.after) else Apply(cfg, st, done.entry).Err?
  }

  lemma ListFollows(cfg: Config, st: Durable, op: Op)
    requires WellFormed(cfg, st) && Representable(op)
    requires op.PutFence? || op.RemoveFence? || op.RecordLineage?
    ensures Follows(cfg, st, op)
  {
    match op {
      case PutFence(f) => if f.Valid() { FencePutReplays(st, f); }
      case RemoveFence(id) => if FenceAt(st.fences, id) < |st.fences| { FenceRemoveReplays(st, id); }
      case RecordLineage(d) => LineageReplays(cfg, st, d);
    }
  }

  lemma RevalidationFollows(cfg: Config, st: Durable, op: Op)
    requires WellFormed(cfg, st) && Representable(op) && cfg.maxRecordBytes < U32
    requires op.RequestRevalidation? || op.ClearRevalidation? || op.RecordFootprint?
    ensures Follows(cfg, st, op)
  {
    match op {
      case RequestRevalidation(r) => ResourceReplays(cfg, st, REQUEST, r);
      case ClearRevalidation(r) => ResourceReplays(cfg, st, CLEAR, r);
      case RecordFootprint(pairs) =>
        if Perform(cfg, st, op).Written? {
          assert forall i :: 0 <= i < |pairs| ==> PairFits(pairs[i]);
          FootprintReplays(cfg, st, pairs);
        }
    }
  }

  lemma AttemptFollows(cfg: Config, st: Durable, op: Op)
    requires WellFormed(cfg, st) && Representable(op)
    requires op.BeginAttempt? || op.CommitAttempt? || op.AbortAttempt?
    ensures Follows(cfg, st, op)
  {
    match op {
      case BeginAttempt(id) => if id != INVALID_ID && id !in st.attempts { BeginReplays(st, id); }
      case CommitAttempt(id) => if id in st.attempts { CloseReplays(st, id); }
      case AbortAttempt(id) => if id in st.attempts { CloseReplays(st, id); }
    }
  }

  lemma IdentityFollows(cfg: Config, st: Durable, op: Op)
    requires WellFormed(cfg, st) && Representable(op)
    requires op.EstablishEpoch? || op.RecordBoot? || op.PersistPolicy? || op.BindTopology?
    ensures Follows(cfg, st, op)
  {
    match op {
      case EstablishEpoch =>
      case RecordBoot(i) => BootReplays(st, i);
      case PersistPolicy(p) => if p.Valid() { PolicyReplays(st, p); }
      case BindTopology(b) => BindingReplays(st, b);
    }
  }

  lemma ReplayFollows(cfg: Config, st: Durable, op: Op)
    requires WellFormed(cfg, st) && Representable(op) && cfg.maxRecordBytes < U32
    ensures Follows(cfg, st, op)
  {
    if op.PutFence? || op.RemoveFence? || op.RecordLineage? {
      ListFollows(cfg, st, op);
    } else if op.RequestRevalidation? || op.ClearRevalidation? || op.RecordFootprint? {
      RevalidationFollows(cfg, st, op);
    } else if op.BeginAttempt? || op.CommitAttempt? || op.AbortAttempt? {
      AttemptFollows(cfg, st, op);
    } else {
      IdentityFollows(cfg, st, op);
    }
  }

  // ----- the previous epoch is the one thing compaction does not keep

  /** Equal but for the previous epoch. */
  predicate Agree(a: Durable, b: Durable) { a == b.(previousEpoch := a.previousEpoch) }

  lemma ApplyAgrees(cfg: Config, a: Durable, b: Durable, e: Entry)
    requires Agree(a, b)
    ensures Apply(cfg, a, e).Ok? <==> Apply(cfg, b, e).Ok?
    ensures Apply(cfg, a, e).Ok? ==> Agree(Apply(cfg, a, e).value, Apply(cfg, b, e).value)
  {
  }

  /** The log replays from nothing to the live state. */
  predicate Tracks(cfg: Config, log: seq<Entry>, live: Durable) {
    var r := Replay(cfg, FRESH, log);
    r.Ok? && Agree(live, r.value)
  }

  lemma {:induction false} ReplayConcat(cfg: Config, st: Durable, a: seq<Entry>, b: seq<Entry>)
    ensures Replay(cfg, st, a + b) ==
            if Replay(cfg, st, a).Err? then Replay(cfg, st, a) else Replay(cfg, Replay(cfg, st, a).value, b)
    decreases |a|
  {
    if a == [] {
      assert a + b == b;
    } else {
      assert (a + b)[1..] == a[1..] + b && (a + b)[0] == a[0];
      if Apply(cfg, st, a[0]).Ok? { ReplayConcat(cfg, Apply(cfg, st, a[0]).value, a[1..], b); }
    }
  }

  lemma ReplayOne(cfg: Config, st: Durable, e: Entry)
    ensures Replay(cfg, st, [e]) == Apply(cfg, st, e)
  {
    if Apply(cfg, st, e).Ok? { assert Replay(cfg, Apply(cfg, st, e).value, [e][1..]) == Apply(cfg, st, e); }
  }

  /** Log refinement, one operation: the extended log tracks the new state exactly when the operation is sound. */
  lemma PerformTracks(cfg: Config, log: seq<Entry>, live: Durable, op: Op)
    requires Tracks(cfg, log, live) && WellFormed(cfg, live) && Representable(op) && cfg.maxRecordBytes < U32
    requires Perform(cfg, live, op).Written?
    ensures var done := Perform(cfg, live, op);
            if Sound(live, op) then Tracks(cfg, log + [done.entry], done.after) && WellFormed(cfg, done.after)
            else Replay(cfg, FRESH, log + [done.entry]).Err?
  {
    var e, replayed := Perform(cfg, live, op).entry, Replay(cfg, FRESH, log).value;
    ReplayConcat(cfg, FRESH, log, [e]);
    ReplayOne(cfg, replayed, e);
    ApplyAgrees(cfg, live, replayed, e);
    ReplayFollows(cfg, live, op);
    WrittenEpoch(cfg, live, op);
    if Sound(live, op) { ApplyKeeps(cfg, live, e); }
  }

  lemma WrittenEpoch(cfg: Config, st: Durable, op: Op)
    requires st.epoch <= MAX_U64 && Perform(cfg, st, op).Written?
    ensures Perform(cfg, st, op).entry.epoch <= MAX_U64 && 0 < Perform(cfg, st, op).entry.kind < KIND_COUNT
  {
  }
}
