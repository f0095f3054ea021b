/** Payloads of policy and fence records. Encoding and decoding are exact inverses: every valid value is read
    back, and only its own encoding is read as that value. */
module StoreCodec {
  import opened Wrappers
  import opened Model
  import opened Bytes

  const FORMAT := Column(2, 1, 1, VersionMismatch)
  const FRACTION := Column(4, 0, FixedPoint.UNITY, OutOfRange)

  /** Fields of a row, read in order and then to the end of the input. */
  function UnpackExactly(columns: seq<Column>, s: seq<Byte>): (r: Result<seq<nat>>)
    ensures r.Ok? ==> |r.value| == |columns|
  {
    var r := Unpack(columns, s);
    if r.Ok? && |s| > Total(columns) then Err(MalformedInput) else r
  }

  lemma UnpackExactlyIff(columns: seq<Column>, s: seq<Byte>, values: seq<nat>)
    requires |columns| == |values|
    ensures UnpackExactly(columns, s) == Ok(values) <==> AllHold(columns, values) && s == Pack(columns, values)
  {
    if AllHold(columns, values) {
      PackUnpack(columns, values, []);
      assert Pack(columns, values) + [] == Pack(columns, values);
    }
    if UnpackExactly(columns, s).Ok? {
      UnpackPack(columns, s);
      assert s[..Total(columns)] == s;
    }
  }

  lemma {:induction false} PassesAt(columns: seq<Column>, s: seq<Byte>, i: nat)
    requires Unpack(columns, s).Ok? && i < |columns|
    ensures Passes(columns[i], Unpack(columns, s).value[i])
  {
    if i > 0 {
      PassesAt(columns[1..], s[columns[0].width..], i - 1);
      assert columns[1..][i - 1] == columns[i];
    }
  }

  lemma AllPass(columns: seq<Column>, s: seq<Byte>)
    requires Unpack(columns, s).Ok?
    ensures forall i :: 0 <= i < |columns| ==> Passes(columns[i], Unpack(columns, s).value[i])
  {
    forall i | 0 <= i < |columns| ensures Passes(columns[i], Unpack(columns, s).value[i]) {
      PassesAt(columns, s, i);
    }
  }

  lemma {:induction false} TotalBound(columns: seq<Column>)
    requires forall i :: 0 <= i < |columns| ==> columns[i].width <= 8
    ensures Total(columns) <= 8 * |columns|
  {
    if columns != [] {
      assert columns[0].width <= 8;
      assert forall i :: 0 <= i < |columns| - 1 ==> columns[1..][i] == columns[i + 1];
      TotalBound(columns[1..]);
    }
  }

  function Bit(b: bool): nat { if b then 1 else 0 }

  // ----- policy

  const POLICY := [
    FORMAT, IDENT, QUAD,
    LONG, LONG, LONG, LONG, LONG, LONG, LONG,
    FRACTION, QUAD, Column(1, 0, 3, MalformedInput), FRACTION,
    FLAG, Column(4, FixedPoint.UNITY, FixedPoint.MAX_GAIN, OutOfRange),
    QUAD, FRACTION, FRACTION, QUAD, FRACTION, LONG,
    LONG, LONG, LONG, LONG, FLAG]

  function AggregationCode(a: Aggregation): nat {
    match a case Max => 0 case SaturatingSum => 1 case WeightedMax => 2 case PriorityFirst => 3
  }

  function AggregationOf(n: nat): Aggregation {
    if n == 0 then Max else if n == 1 then SaturatingSum else if n == 2 then WeightedMax else PriorityFirst
  }

  function PolicyValues(p: Policy): (v: seq<nat>)
    ensures |v| == 27
  {
    [1, p.id, p.generation,
     p.maxHops, p.maxFanout, p.maxExpansions, p.maxVisited, p.maxSources, p.maxRecords, p.maxPathRecords,
     p.floor, p.lifetime, AggregationCode(p.aggregation), p.ceiling,
     Bit(p.allowAmplification), p.maxGain,
     p.cooldown, p.hysteresis, p.decay.perStep, p.decay.stepTicks, p.decay.floor, p.decay.maxSteps,
     p.elevated, p.high, p.critical, p.exhausted, Bit(p.requireKnown)]
  }

  predicate PolicyRow(v: seq<nat>) { |v| == 27 && forall i :: 0 <= i < 27 ==> Passes(POLICY[i], v[i]) }

  function PolicyOf(v: seq<nat>): Policy
    requires PolicyRow(v)
  {
    assert Passes(POLICY[10], v[10]) && Passes(POLICY[13], v[13]) && Passes(POLICY[15], v[15]);
    assert Passes(POLICY[17], v[17]) && Passes(POLICY[18], v[18]) && Passes(POLICY[20], v[20]);
    Policy(v[1], v[2], v[3], v[4], v[5], v[6], v[7], v[8], v[9], v[10], v[11], AggregationOf(v[12]), v[13],
           v[14] == 1, v[15], v[16], v[17], Decay(v[18], v[19], v[20], v[21]), v[22], v[23], v[24], v[25], v[26] == 1)
  }

  /** Every check of a policy, in order. */
  function PolicyFault(p: Policy): (e: Option<Error>)
    ensures e.None? <==> p.Valid()
  {
    if p.id == INVALID_ID then Some(InvalidArgument)
    else if p.generation == 0 then Some(StaleGeneration)
    else if !(0 < p.maxHops <= 64 && 0 < p.maxFanout <= 0x1_0000 && 0 < p.maxExpansions <= 0x100_0000
              && 0 < p.maxVisited <= 0x40_0000 && 0 < p.maxSources <= 0x1000 && 0 < p.maxRecords <= 0x10_0000
              && 0 < p.maxPathRecords <= p.maxRecords) then Some(OutOfRange)
    else if p.maxRecords < p.maxExpansions + p.maxVisited then Some(InvalidArgument)
    else if p.lifetime == 0 then Some(OutOfRange)
    else if p.ceiling == 0 then Some(InvalidArgument)
    else if !p.allowAmplification && p.maxGain != FixedPoint.UNITY then Some(Conflict)
    else if !p.requireKnown || !(0 < p.elevated < p.high < p.critical < p.exhausted <= 100000) then
      Some(InvalidArgument)
    else if p.decay.stepTicks == 0 then Some(InvalidArgument)
    else if !(0 < p.decay.maxSteps <= 4096) || p.cooldown > 0x100_0000_0000 then Some(OutOfRange)
    else None
  }

  function EncodePolicy(p: Policy): (s: seq<Byte>)
    ensures |s| <= 216
  {
    TotalBound(POLICY);
    Pack(POLICY, PolicyValues(p))
  }

  function DecodePolicy(s: seq<Byte>): Result<Policy> {
    var v := UnpackExactly(POLICY, s);
    if v.Err? then Err(v.error)
    else
      AllPass(POLICY, s);
      var p := PolicyOf(v.value);
      if PolicyFault(p).Some? then Err(PolicyFault(p).value) else Ok(p)
  }

  const MAX_U64: nat := 0xFFFF_FFFF_FFFF_FFFF

  /** Fields held in 64-bit words that validation does not bound any tighter. */
  predicate PolicyFits(p: Policy) {
    p.id <= MAX_U64 && p.generation <= MAX_U64 && p.lifetime <= MAX_U64 && p.decay.stepTicks <= MAX_U64
  }

  lemma PolicyRowHolds(p: Policy)
    requires p.Valid() && PolicyFits(p)
    ensures AllHold(POLICY, PolicyValues(p))
  {
    Powers();
    var v := PolicyValues(p);
    forall i | 0 <= i < 27 ensures Holds(POLICY[i], v[i]) {
    }
    AllHoldAt(POLICY, v);
  }

  lemma PolicyOfValues(p: Policy)
    requires PolicyRow(PolicyValues(p))
    ensures PolicyOf(PolicyValues(p)) == p
  {
  }

  lemma ValuesOfPolicy(v: seq<nat>)
    requires PolicyRow(v)
    ensures PolicyValues(PolicyOf(v)) == v
  {
    assert Passes(POLICY[0], v[0]) && Passes(POLICY[12], v[12]) && Passes(POLICY[14], v[14])
           && Passes(POLICY[26], v[26]);
  }

  /** Decoding inverts encoding on every valid policy, and accepts no other bytes for it. */
  lemma PolicyCodec(s: seq<Byte>, p: Policy)
    requires PolicyFits(p)
    ensures DecodePolicy(s) == Ok(p) <==> p.Valid() && s == EncodePolicy(p)
  {
    var v := PolicyValues(p);
    UnpackExactlyIff(POLICY, s, v);
    if p.Valid() && s == EncodePolicy(p) {
      PolicyRowHolds(p);
      AllPass(POLICY, s);
      PolicyOfValues(p);
    }
    if DecodePolicy(s) == Ok(p) {
      AllPass(POLICY, s);
      ValuesOfPolicy(UnpackExactly(POLICY, s).value);
    }
  }

  // ----- fence

  const FENCE := [FORMAT, IDENT, IDENT, Column(1, 0, 2, MalformedInput), QUAD, QUAD, QUAD, FLAG, QUAD, QUAD]

  function KindCode(k: FenceKind): nat {
    match k case RefuseIngress => 0 case RefuseEgress => 1 case Barrier => 2
  }

  function KindOf(n: nat): FenceKind { if n == 0 then RefuseIngress else if n == 1 then RefuseEgress else Barrier }

  function FenceValues(f: Fence): (v: seq<nat>)
    ensures |v| == 10
  {
    [1, f.id, f.resource, KindCode(f.kind), f.epoch, f.generation, f.expiresAt, Bit(f.durable), f.provenance.0,
      f.provenance.1]
  }

  function FenceOf(v: seq<nat>): Fence
    requires |v| == 10
  {
    Fence(v[1], v[2], KindOf(v[3]), v[4], v[5], v[6], v[7] == 1, (v[8], v[9]))
  }

  function FenceFault(f: Fence): (e: Option<Error>)
    ensures e.None? <==> f.Valid()
  {
    if f.id == INVALID_ID || f.resource == INVALID_ID then Some(InvalidArgument)
    else if f.epoch == 0 then Some(StaleEpoch)
    else None
  }

  function EncodeFence(f: Fence): (s: seq<Byte>)
    ensures |s| <= 80
  {
    TotalBound(FENCE);
    Pack(FENCE, FenceValues(f))
  }

  function DecodeFence(s: seq<Byte>): Result<Fence> {
    var v := UnpackExactly(FENCE, s);
    if v.Err? then Err(v.error)
    else
      var f := FenceOf(v.value);
      if FenceFault(f).Some? then Err(FenceFault(f).value) else Ok(f)
  }

  predicate FenceFits(f: Fence) {
    && f.id <= MAX_U64 && f.resource <= MAX_U64 && f.epoch <= MAX_U64 && f.generation <= MAX_U64
    && f.expiresAt <= MAX_U64
    && f.provenance.0 <= MAX_U64 && f.provenance.1 <= MAX_U64
  }

  lemma FenceCodec(s: seq<Byte>, f: Fence)
    requires FenceFits(f)
    ensures DecodeFence(s) == Ok(f) <==> f.Valid() && s == EncodeFence(f)
  {
    var v := FenceValues(f);
    UnpackExactlyIff(FENCE, s, v);
    if f.Valid() {
      Powers();
      AllHoldAt(FENCE, v);
    }
    if DecodeFence(s) == Ok(f) {
      AllPass(FENCE, s);
      var w := UnpackExactly(FENCE, s).value;
      assert Passes(FENCE[0], w[0]) && Passes(FENCE[3], w[3]) && Passes(FENCE[7], w[7]);
      assert w == v;
    }
  }
}
