/** The journal file: header, length-prefixed records with checksum, sequence number and chained digest,
    and the scan that recovers the longest intact prefix. */
module JournalFormat {
  import opened Wrappers
  import opened Bytes

  datatype Digest = Digest(hi: nat, lo: nat)

  /** Checksums and chain digest, left uninterpreted: any deterministic functions will do. */
  datatype Hashing = Hashing(header: seq<Byte> -> nat, record: (seq<Byte>, seq<Byte>) -> nat,
                             chain: (Digest, nat, nat, nat, nat, seq<Byte>) -> Digest)

  datatype Limits = Limits(maxRecordBytes: nat, maxRecords: nat, maxFileBytes: nat, maxRetained: nat)

  datatype Record = Record(sequence: nat, kind: nat, tick: nat, epoch: nat, chain: Digest, payload: seq<Byte>)

  const HEADER_BYTES: nat := 32
  const RECORD_HEADER_BYTES: nat := 52
  const KIND_COUNT: nat := 13
  const U32: nat := 0x1_0000_0000
  const U64: nat := 0x1_0000_0000_0000_0000

  function Crc(h: Hashing, body: seq<Byte>, payload: seq<Byte>): nat { h.record(body, payload) % U32 }

  function ChainOf(
    h: Hashing, previous: Digest, sequence: nat, kind: nat, tick: nat, epoch: nat, payload: seq<Byte>): Digest {
    var d := h.chain(previous, sequence, kind, tick, epoch, payload);
    Digest(d.hi % U64, d.lo % U64)
  }

  // ----- encoding

  /** Sequence, kind, reserved, tick, epoch and the two halves of the digest. */
  const BODY := [QUAD, WORD, WORD, QUAD, QUAD, QUAD, QUAD]

  lemma BodySize()
    ensures Total(BODY) == 44
  {
    TotalFrom(BODY, 0);
    TotalFrom(BODY, 1);
    TotalFrom(BODY, 2);
    TotalFrom(BODY, 3);
    TotalFrom(BODY, 4);
    TotalFrom(BODY, 5);
    TotalFrom(BODY, 6);
    assert BODY[0..] == BODY && BODY[7..] == [];
  }

  function BodyValues(r: Record): seq<nat> {
    [r.sequence, r.kind, 0, r.tick, r.epoch, r.chain.hi, r.chain.lo]
  }

  function Body(r: Record): (s: seq<Byte>)
    ensures |s| == 44
  {
    BodySize();
    Pack(BODY, BodyValues(r))
  }

  function Encode(h: Hashing, r: Record): (s: seq<Byte>)
    ensures |s| == RECORD_HEADER_BYTES + |r.payload|
  {
    Le(|r.payload|, 4) + Le(Crc(h, Body(r), r.payload), 4) + Body(r) + r.payload
  }

  predicate Encodable(r: Record) {
    && 0 < r.kind < KIND_COUNT && |r.payload| < U32
    && r.sequence < U64 && r.tick < U64 && r.epoch < U64 && r.chain.hi < U64 && r.chain.lo < U64
  }

  // ----- scanning

  /** Where the scan stands: how many records, bytes of payload, last sequence number and digest. */
  datatype Tip = Tip(count: nat, retained: nat, sequence: nat, chain: Digest)

  const START := Tip(0, 0, 0, Digest(0, 0))

  function After(tip: Tip, r: Record): Tip {
    Tip(tip.count + 1, tip.retained + |r.payload|, r.sequence, r.chain)
  }

  datatype Parsed = End | Torn | Got(record: Record)

  /** Try to take one record off the front of the remaining bytes. */
  function Parse(h: Hashing, lim: Limits, s: seq<Byte>, tip: Tip): (p: Parsed)
    ensures p.Got? ==> |s| >= RECORD_HEADER_BYTES + |p.record.payload|
  {
    if s == [] then End
    else if |s| < RECORD_HEADER_BYTES then Torn
    else
      var length := Value(s[..4]);
      if length > lim.maxRecordBytes || tip.count >= lim.maxRecords || |s| < RECORD_HEADER_BYTES + length then Torn
      else
        var body, payload := s[8..RECORD_HEADER_BYTES], s[RECORD_HEADER_BYTES..RECORD_HEADER_BYTES + length];
        if Crc(h, body, payload) != Value(s[4..8]) then Torn
        else
          var r := Assemble(body, payload);
          if !(0 < r.kind < KIND_COUNT) then Torn
          else if r.chain != ChainOf(h, tip.chain, r.sequence, r.kind, r.tick, r.epoch, payload) then Torn
          else if r.sequence != tip.sequence + 1 then Torn
          else Got(r)
  }

  /** The record in a body that has been checked; the reserved field is not looked at. */
  function Assemble(body: seq<Byte>, payload: seq<Byte>): (r: Record)
    requires |body| == 44
    ensures r.payload == payload
  {
    BodySize();
    PlainUnpacks(BODY, body);
    var v := Unpack(BODY, body).value;
    Record(v[0], v[1], v[3], v[4], Digest(v[5], v[6]), payload)
  }

  /** Unrestricted fields are read from any input that is long enough. */
  lemma {:induction false} PlainUnpacks(columns: seq<Column>, s: seq<Byte>)
    requires forall i :: 0 <= i < |columns| ==> columns[i] == WORD || columns[i] == QUAD
    requires |s| >= Total(columns)
    ensures Unpack(columns, s).Ok?
  {
    if columns != [] {
      Powers();
      assert columns[0] == WORD || columns[0] == QUAD;
      ValueBound(s[..columns[0].width]);
      PlainUnpacks(columns[1..], s[columns[0].width..]);
    }
  }

  /** Recovered records, the bytes they span, and whether something unreadable followed. */
  datatype Replayed = Replayed(records: seq<Record>, bytes: nat, torn: bool)

  /** Reads one record off the front of the remaining bytes. */
  type Parser = (seq<Byte>, Tip) -> Parsed

  function ParserOf(h: Hashing, lim: Limits): Parser { (s: seq<Byte>, tip: Tip) => Parse(h, lim, s, tip) }

  /** Take records off the front until the bytes end or one cannot be read. */
  function Scan(parse: Parser, maxRetained: nat, s: seq<Byte>, tip: Tip): (r: Result<Replayed>)
    ensures r.Ok? ==> r.value.bytes <= |s|
    decreases |s|
  {
    var p := parse(s, tip);
    if p.End? then Ok(Replayed([], 0, false))
    else if p.Torn? || |s| < RECORD_HEADER_BYTES + |p.record.payload| then Ok(Replayed([], 0, true))
    else if tip.retained + |p.record.payload| > maxRetained then Err(LimitExceeded)
    else
      var n := RECORD_HEADER_BYTES + |p.record.payload|;
      Prepend(p.record, n, Scan(parse, maxRetained, s[n..], After(tip, p.record)))
  }

  function Prepend(r: Record, n: nat, rest: Result<Replayed>): Result<Replayed> {
    if rest.Err? then rest else Ok(Replayed([r] + rest.value.records, n + rest.value.bytes, rest.value.torn))
  }

  // ----- records the journal itself wrote

  /** The record continues the sequence and the chain, and respects every limit of the scan. */
  predicate Continues(h: Hashing, lim: Limits, cap: nat, r: Record, tip: Tip) {
    && Encodable(r) && r.sequence == tip.sequence + 1
    && r.chain == ChainOf(h, tip.chain, r.sequence, r.kind, r.tick, r.epoch, r.payload)
    && |r.payload| <= lim.maxRecordBytes && tip.count < lim.maxRecords && tip.retained + |r.payload| <= cap
  }

  function TipOf(records: seq<Record>, tip: Tip): Tip {
    if records == [] then tip else TipOf(records[1..], After(tip, records[0]))
  }

  /** How many records lie wholly inside the first n bytes of their encoding. */
  function Whole(records: seq<Record>, n: nat): (k: nat)
    ensures k <= |records|
  {
    if records == [] || n < RECORD_HEADER_BYTES + |records[0].payload| then 0
    else 1 + Whole(records[1..], n - RECORD_HEADER_BYTES - |records[0].payload|)
  }
}
