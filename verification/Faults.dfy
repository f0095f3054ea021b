/** Which error is reported: of the demands on a value, listed in the order in which they are looked at, that of the
    first that is not met. */
module Faults {
  import opened Wrappers
  import opened Model
  import opened Bytes
  import opened StoreCodec
  import opened JournalFormat
  import opened Journals
  import opened Integrity
  import opened TopologyBuild
  import opened StoreState
  import opened StoreRefinement
  import opened StoreLaws
  import opened ReplayLaws

  /** What must hold, and the error reported when it is the first that does not. */
  datatype Demand = Demand(met: bool, error: Error)

  /** The first k demands are met and the next one, if any, is not. */
  predicate MetUpTo(demands: seq<Demand>, k: nat) {
    k <= |demands| && (forall j :: 0 <= j < k ==> demands[j].met) && (k < |demands| ==> !demands[k].met)
  }

  function ErrorAt(demands: seq<Demand>, k: nat): Option<Error> {
    if k < |demands| then Some(demands[k].error) else None
  }

  // ----- policies, resources and edges

  function PolicyDemands(p: Policy): seq<Demand> {
    [Demand(p.id != 0xFFFF_FFFF_FFFF_FFFF, InvalidArgument), Demand(p.generation != 0, StaleGeneration),
      Demand(1 <= p.maxHops <= 64, OutOfRange), Demand(1 <= p.maxFanout <= 65536, OutOfRange),
      Demand(1 <= p.maxExpansions <= 16777216, OutOfRange), Demand(1 <= p.maxVisited <= 4194304, OutOfRange),
      Demand(1 <= p.maxSources <= 4096, OutOfRange), Demand(1 <= p.maxRecords <= 1048576, OutOfRange),
      Demand(1 <= p.maxPathRecords <= p.maxRecords, OutOfRange),
      Demand(p.maxExpansions + p.maxVisited <= p.maxRecords, InvalidArgument), Demand(p.lifetime != 0, OutOfRange),
      Demand(p.ceiling != 0, InvalidArgument), Demand(p.maxGain == 65536 || p.allowAmplification, Conflict),
      Demand(p.requireKnown, InvalidArgument),
      Demand(0 < p.elevated < p.high < p.critical < p.exhausted <= 100000, InvalidArgument),
      Demand(p.decay.stepTicks != 0, InvalidArgument), Demand(1 <= p.decay.maxSteps <= 4096, OutOfRange),
      Demand(p.cooldown <= 1099511627776, OutOfRange)]
  }

  lemma PolicyFaultExact(p: Policy, k: nat)
    requires MetUpTo(PolicyDemands(p), k)
    ensures PolicyFault(p) == ErrorAt(PolicyDemands(p), k)
  {
    var d := PolicyDemands(p);
    assert d == [d[0], d[1], d[2], d[3], d[4], d[5], d[6], d[7], d[8], d[9], d[10], d[11], d[12], d[13], d[14], d[15],
                 d[16], d[17]];
  }

  function ResourceDemands(r: Resource): seq<Demand> {
    [Demand(r.id != 0xFFFF_FFFF_FFFF_FFFF, InvalidArgument), Demand(r.generation != 0, StaleGeneration)]
  }

  function EdgeDemands(e: Edge): seq<Demand> {
    [Demand(e.id != 0xFFFF_FFFF_FFFF_FFFF, InvalidArgument), Demand(e.source != 0xFFFF_FFFF_FFFF_FFFF, InvalidArgument),
      Demand(e.target != 0xFFFF_FFFF_FFFF_FFFF, InvalidArgument), Demand(e.generation != 0, StaleGeneration),
      Demand(e.maxHops <= 64, OutOfRange),
      Demand(!(e.amplifyingFlag && e.amplification != 65536 && e.barrierFlag), Conflict)]
  }

  lemma InputFaultExact(r: Resource, e: Edge, k: nat)
    ensures MetUpTo(ResourceDemands(r), k) ==> ResourceFault(r) == ErrorAt(ResourceDemands(r), k)
    ensures MetUpTo(EdgeDemands(e), k) ==> EdgeFault(e) == ErrorAt(EdgeDemands(e), k)
  {
    var c, d := ResourceDemands(r), EdgeDemands(e);
    assert c == [c[0], c[1]] && d == [d[0], d[1], d[2], d[3], d[4], d[5]];
  }

  /** The builder reports the fault of the first resource, and then of the first edge, that has one. */
  lemma {:induction false} FirstFaultExact(resources: seq<Resource>, i: nat, k: nat)
    requires i < |resources| && forall j :: 0 <= j < i ==> MetUpTo(ResourceDemands(resources[j]), 2)
    requires k < 2 && MetUpTo(ResourceDemands(resources[i]), k)
    ensures FirstFault(resources) == Some(ResourceDemands(resources[i])[k].error)
  {
    var any := Edge(0, 0, 0, 0, 65536, 0, 0, 0, 0, false, false, false);
    InputFaultExact(resources[i], any, k);
    if i > 0 {
      InputFaultExact(resources[0], any, 2);
      FirstFaultExact(resources[1..], i - 1, k);
    }
  }

  lemma {:induction false} FirstEdgeFaultExact(edges: seq<Edge>, i: nat, k: nat)
    requires i < |edges| && forall j :: 0 <= j < i ==> MetUpTo(EdgeDemands(edges[j]), 6)
    requires k < 6 && MetUpTo(EdgeDemands(edges[i]), k)
    ensures FirstEdgeFault(edges) == Some(EdgeDemands(edges[i])[k].error)
  {
    InputFaultExact(Resource(0, Unprotected, true, 1), edges[i], k);
    if i > 0 {
      InputFaultExact(Resource(0, Unprotected, true, 1), edges[0], 6);
      FirstEdgeFaultExact(edges[1..], i - 1, k);
    }
  }

  // ----- files

  /** What the header of a file must be; then only the retention limit can stop the file from opening. */
  function HeaderDemands(h: Hashing, file: seq<Byte>): seq<Demand> {
    var whole := |file| >= 32;
    [Demand(whole, TruncatedInput), Demand(whole && file[..8] == [66, 80, 70, 65, 66, 74, 48, 49], MalformedInput),
      Demand(whole && Number(file, 8, 2) == 1, VersionMismatch),
      Demand(whole && Number(file, 28, 4) == h.header(file[..28]) % 0x1_0000_0000, IntegrityMismatch)]
  }

  lemma HeaderFaultExact(h: Hashing, lim: JournalFormat.Limits, file: seq<Byte>, k: nat)
    requires MetUpTo(HeaderDemands(h, file), k)
    ensures k < 4 ==> Recover(h, lim, file) == Err(HeaderDemands(h, file)[k].error)
    ensures k == 4 && Recover(h, lim, file).Err? ==> Recover(h, lim, file).error == LimitExceeded
  {
    var d := HeaderDemands(h, file);
    assert d == [d[0], d[1], d[2], d[3]];
    if k == 4 { var found := ScanExact(h, lim, lim.maxRetained, file[32..], START); }
  }

  // ----- fields

  /** A row stops at the first field that is missing or out of its range; bytes left over are looked at last. */
  lemma {:induction false} RowFaultExact(columns: seq<Column>, s: seq<Byte>, i: nat)
    requires i < |columns| && Unpack(columns[..i], s).Ok? && Total(columns[..i]) <= |s|
    ensures |s| < Total(columns[..i]) + columns[i].width ==> UnpackExactly(columns, s) == Err(TruncatedInput)
    ensures |s| >= Total(columns[..i]) + columns[i].width ==>
              var v := Number(s, Total(columns[..i]), columns[i].width);
              (v < columns[i].low || v > columns[i].high ==> UnpackExactly(columns, s) == Err(columns[i].error))
    ensures Unpack(columns, s).Ok? && |s| > Total(columns) ==> UnpackExactly(columns, s) == Err(MalformedInput)
  {
    if i > 0 {
      var w := columns[0].width;
      assert columns[..i][1..] == columns[1..][..i - 1] && columns[..i][0] == columns[0];
      RowFaultExact(columns[1..], s[w..], i - 1);
      var at := Total(columns[1..][..i - 1]);
      if |s| >= w + at + columns[i].width {
        assert s[w..][at..at + columns[i].width] == s[w + at..w + at + columns[i].width];
      }
    } else {
      assert columns[..0] == [];
      assert |s| >= columns[0].width ==> s[0..columns[0].width] == s[..columns[0].width];
    }
  }

  // ----- records that the state cannot take

  /** What an identity record must be, beyond its eight bytes, for the state to take it. */
  function IdDemands(st: Durable, kind: nat, id: nat, rest: seq<Byte>): seq<Demand> {
    [Demand(id != 0xFFFF_FFFF_FFFF_FFFF, OutOfRange), Demand(kind == FENCE_REMOVE ==> HasFence(st, id), NotFound),
      Demand(kind == ATTEMPT_BEGIN ==> id !in st.attempts, Duplicate),
      Demand(kind == ATTEMPT_COMMIT || kind == ATTEMPT_ABORT ==> id in st.attempts, NotFound),
      Demand(rest == [], MalformedInput)]
  }

  lemma IdFaultExact(cfg: Config, st: Durable, kind: nat, epoch: nat, id: nat, rest: seq<Byte>, k: nat)
    requires id <= MAX_U64 && kind in {FENCE_REMOVE, ATTEMPT_BEGIN, ATTEMPT_COMMIT, ATTEMPT_ABORT}
    requires k < 5 && MetUpTo(IdDemands(st, kind, id, rest), k)
    ensures Apply(cfg, st, Entry(kind, epoch, IdPayload(id) + rest)) == Err(IdDemands(st, kind, id, rest)[k].error)
  {
    var d := IdDemands(st, kind, id, rest);
    assert d == [d[0], d[1], d[2], d[3], d[4]];
    FencePresent(st, id);
    IdReads(id, rest);
  }

  lemma IdReads(id: nat, rest: seq<Byte>)
    requires id <= MAX_U64
    ensures Unpack(ID_ROW, IdPayload(id) + rest) == if id == INVALID_ID then Err(OutOfRange) else Ok([id])
    ensures |IdPayload(id)| == Total(ID_ROW)
  {
    Powers();
    if id == INVALID_ID {
      LeRoundTrip(INVALID_ID, 8);
      assert IdPayload(INVALID_ID) == Le(INVALID_ID, 8) + [];
      assert (IdPayload(INVALID_ID) + rest)[..8] == Le(INVALID_ID, 8);
    } else {
      AllHoldAt(ID_ROW, [id]);
      PackUnpack(ID_ROW, [id], rest);
    }
  }

  /** A fence that finds no place, a footprint that is too long, bytes left over behind a resource that is taken or
      cleared, and a record of an unknown kind. */
  lemma OtherFaults(cfg: Config, st: Durable, e: Entry, f: Fence, n: nat, rest: seq<Byte>)
    ensures e.kind == FENCE_PUT && e.payload == EncodeFence(f) && FenceFits(f) && f.Valid() ==>
              (|st.fences| >= 4096 && !HasFence(st, f.id) ==> Apply(cfg, st, e) == Err(LimitExceeded))
    ensures e.kind == REVALIDATION && e.payload == Pack(COUNT_ROW, [FOOTPRINT, n]) + rest ==>
              (cfg.maxFootprint < n < U32 ==> Apply(cfg, st, e) == Err(OversizedInput))
    ensures e.kind == REVALIDATION && n < INVALID_ID && rest != [] ==>
              && (e.payload == ResourcePayload(CLEAR, n) + rest ==> Apply(cfg, st, e) == Err(MalformedInput))
              && (e.payload == ResourcePayload(REQUEST, n) + rest
                  && (n in st.revalidation || |st.revalidation| < cfg.maxFootprint) ==>
                    Apply(cfg, st, e) == Err(MalformedInput))
    ensures e.kind == 0 || e.kind > 12 ==> Apply(cfg, st, e) == Err(MalformedInput)
  {
    if FenceFits(f) { FenceCodec(EncodeFence(f), f); }
    FencePresent(st, f.id);
    if n < U32 { FootprintHead(n, rest); }
    Sizes();
    if n < INVALID_ID {
      ResourceUnpacks(ResourcePayload(CLEAR, n) + rest, CLEAR, n);
      ResourceUnpacks(ResourcePayload(REQUEST, n) + rest, REQUEST, n);
    }
  }
}
