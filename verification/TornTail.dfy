/** Torn-tail safety: whatever prefix of the file survives a crash, the scan recovers exactly the records
    wholly inside it, a repaired file scans clean, and later appends extend what was recovered. */
module TornTail {
  import opened Wrappers
  import opened Bytes
  import opened JournalFormat

  /** The parts of an encoded record are where the scan looks for them. */
  lemma EncodedParts(h: Hashing, r: Record, tail: seq<Byte>)
    ensures var s := Encode(h, r) + tail;
            && s[..4] == Le(|r.payload|, 4) && s[4..8] == Le(Crc(h, Body(r), r.payload), 4)
            && s[8..RECORD_HEADER_BYTES] == Body(r)
            && s[RECORD_HEADER_BYTES..RECORD_HEADER_BYTES + |r.payload|] == r.payload
            && s[RECORD_HEADER_BYTES + |r.payload|..] == tail
  {
  }

  lemma AssembleBody(r: Record)
    requires Encodable(r)
    ensures Assemble(Body(r), r.payload) == r
  {
    Powers();
    AllHoldAt(BODY, BodyValues(r));
    PackUnpack(BODY, BodyValues(r), []);
    assert Pack(BODY, BodyValues(r)) + [] == Body(r);
  }

  /** A record the journal wrote is parsed back whole, whatever follows it. */
  lemma ParseEncoded(h: Hashing, lim: Limits, cap: nat, r: Record, tail: seq<Byte>, tip: Tip)
    requires Continues(h, lim, cap, r, tip)
    ensures Parse(h, lim, Encode(h, r) + tail, tip) == Got(r)
  {
    EncodedParts(h, r, tail);
    AssembleBody(r);
    Powers();
    LeRoundTrip(|r.payload|, 4);
    LeRoundTrip(Crc(h, Body(r), r.payload), 4);
  }

  function Put(records: seq<Record>, bytes: nat, r: Result<Replayed>): Result<Replayed> {
    if r.Err? then r else Ok(Replayed(records + r.value.records, bytes + r.value.bytes, r.value.torn))
  }

  lemma PutPut(a: seq<Record>, x: nat, b: seq<Record>, y: nat, r: Result<Replayed>)
    ensures Put(a, x, Put(b, y, r)) == Put(a + b, x + y, r)
  {
    if r.Ok? { assert a + (b + r.value.records) == a + b + r.value.records; }
  }

  lemma PutNothing(r: Result<Replayed>)
    ensures Put([], 0, r) == r
  {
    if r.Ok? { assert [] + r.value.records == r.value.records; }
  }

  /** One step of the scan. */
  lemma ScanStep(parse: Parser, cap: nat, s: seq<Byte>, tip: Tip, r: Record, rest: seq<Byte>)
    requires parse(s, tip) == Got(r) && RECORD_HEADER_BYTES + |r.payload| <= |s| && tip.retained + |r.payload| <= cap
    requires s[RECORD_HEADER_BYTES + |r.payload|..] == rest
    ensures Scan(parse, cap, s, tip) ==
            Put([r], RECORD_HEADER_BYTES + |r.payload|, Scan(parse, cap, rest, After(tip, r)))
  {
  }

  /** Parsing a record looks at no byte behind it. */
  ghost predicate AgreesAt(parse: Parser, s: seq<Byte>, t: seq<Byte>, tip: Tip) {
    parse(s, tip).Got? && (s <= t || t <= s) && RECORD_HEADER_BYTES + |parse(s, tip).record.payload| <= |t| ==>
      parse(t, tip) == parse(s, tip)
  }

  /** A proper part of a record is torn, unless it is empty. */
  ghost predicate TornAt(parse: Parser, s: seq<Byte>, n: nat, tip: Tip) {
    parse(s, tip).Got? && n < RECORD_HEADER_BYTES + |parse(s, tip).record.payload| <= |s| ==>
      parse(s[..n], tip) == if n == 0 then End else Torn
  }

  ghost predicate EndsAt(parse: Parser, s: seq<Byte>, tip: Tip) { parse(s, tip).End? <==> s == [] }

  ghost predicate Local(parse: Parser) {
    && (forall s: seq<Byte>, tip: Tip :: EndsAt(parse, s, tip))
    && (forall s: seq<Byte>, t: seq<Byte>, tip: Tip :: AgreesAt(parse, s, t, tip))
    && (forall s: seq<Byte>, n: nat, tip: Tip :: TornAt(parse, s, n, tip))
  }

  lemma ParserLocal(h: Hashing, lim: Limits)
    ensures Local(ParserOf(h, lim))
  {
    var parse := ParserOf(h, lim);
    forall s: seq<Byte>, t: seq<Byte>, tip: Tip ensures AgreesAt(parse, s, t, tip) {
      if parse(s, tip).Got? && (s <= t || t <= s) && RECORD_HEADER_BYTES + |parse(s, tip).record.payload| <= |t| {
        ParseAgrees(h, lim, s, t, tip);
      }
    }
    forall s: seq<Byte>, n: nat, tip: Tip ensures TornAt(parse, s, n, tip) {
      if parse(s, tip).Got? && 4 <= n <= |s| { assert s[..n][..4] == s[..4]; }
    }
    forall s: seq<Byte>, tip: Tip ensures EndsAt(parse, s, tip) {
    }
  }

  lemma ParseAgrees(h: Hashing, lim: Limits, s: seq<Byte>, t: seq<Byte>, tip: Tip)
    requires Parse(h, lim, s, tip).Got? && (s <= t || t <= s)
    requires RECORD_HEADER_BYTES + |Parse(h, lim, s, tip).record.payload| <= |t|
    ensures Parse(h, lim, t, tip) == Parse(h, lim, s, tip)
  {
    var n := |Parse(h, lim, s, tip).record.payload|;
    assert t[..4] == s[..4] && t[4..8] == s[4..8];
    assert t[8..RECORD_HEADER_BYTES] == s[8..RECORD_HEADER_BYTES];
    assert t[RECORD_HEADER_BYTES..RECORD_HEADER_BYTES + n] == s[RECORD_HEADER_BYTES..RECORD_HEADER_BYTES + n];
  }

  lemma CutAndDrop(s: seq<Byte>, n: nat, all: nat)
    requires n <= all <= |s|
    ensures s[..all][n..] == s[n..][..all - n] && s[..all] <= s
  {
  }

  /** Bytes that the records take up in the file. */
  function Span(records: seq<Record>): nat {
    if records == [] then 0 else RECORD_HEADER_BYTES + |records[0].payload| + Span(records[1..])
  }

  function CutOf(records: seq<Record>, n: nat): Result<Replayed> {
    var front := records[..Whole(records, n)];
    Ok(Replayed(front, Span(front), Span(front) != n))
  }

  lemma CutOfStep(r: Record, rest: seq<Record>, n: nat)
    requires n >= RECORD_HEADER_BYTES + |r.payload|
    ensures CutOf([r] + rest, n) ==
            Prepend(r, RECORD_HEADER_BYTES + |r.payload|, CutOf(rest, n - RECORD_HEADER_BYTES - |r.payload|))
  {
    var all, m := [r] + rest, n - RECORD_HEADER_BYTES - |r.payload|;
    assert all[1..] == rest;
    assert all[..Whole(rest, m) + 1] == [r] + rest[..Whole(rest, m)];
    assert all[..Whole(rest, m) + 1][1..] == rest[..Whole(rest, m)];
  }

  /** Torn-tail safety on any bytes: cutting a file anywhere inside what a scan recovers leaves exactly the
      records wholly inside the cut, reported torn exactly when the cut runs through a record. */
  lemma {:induction false} CutScans(parse: Parser, cap: nat, s: seq<Byte>, n: nat, tip: Tip)
    requires Local(parse) && Scan(parse, cap, s, tip).Ok? && n <= Scan(parse, cap, s, tip).value.bytes
    ensures Scan(parse, cap, s[..n], tip) == CutOf(Scan(parse, cap, s, tip).value.records, n)
    decreases |s|
  {
    var p := parse(s, tip);
    if !p.Got? || |s| < RECORD_HEADER_BYTES + |p.record.payload| {
      assert EndsAt(parse, s[..n], tip);
    } else {
      var all := RECORD_HEADER_BYTES + |p.record.payload|;
      var found := Scan(parse, cap, s[all..], After(tip, p.record)).value.records;
      ScanStep(parse, cap, s, tip, p.record, s[all..]);
      if n < all {
        assert TornAt(parse, s, n, tip);
      } else {
        CutScans(parse, cap, s[all..], n - all, After(tip, p.record));
        CutAndDrop(s, all, n);
        assert AgreesAt(parse, s, s[..n], tip);
        ScanStep(parse, cap, s[..n], tip, p.record, s[all..][..n - all]);
        CutOfStep(p.record, found, n);
      }
    }
  }

  lemma {:induction false} ScanSpan(parse: Parser, cap: nat, s: seq<Byte>, tip: Tip)
    requires Scan(parse, cap, s, tip).Ok?
    ensures Scan(parse, cap, s, tip).value.bytes == Span(Scan(parse, cap, s, tip).value.records)
    decreases |s|
  {
    var p := parse(s, tip);
    if p.Got? && |s| >= RECORD_HEADER_BYTES + |p.record.payload| {
      var n := RECORD_HEADER_BYTES + |p.record.payload|;
      ScanSpan(parse, cap, s[n..], After(tip, p.record));
      assert ([p.record] + Scan(parse, cap, s[n..], After(tip, p.record)).value.records)[1..]
          == Scan(parse, cap, s[n..], After(tip, p.record)).value.records;
    }
  }

  lemma {:induction false} WholeSpan(records: seq<Record>, n: nat)
    ensures Whole(records, Span(records) + n) == |records|
    ensures Span(records[..Whole(records, n)]) <= n
  {
    if records != [] {
      var e := RECORD_HEADER_BYTES + |records[0].payload|;
      WholeSpan(records[1..], n);
      if n >= e {
        WholeSpan(records[1..], n - e);
        assert records[..Whole(records, n)][1..] == records[1..][..Whole(records[1..], n - e)];
      }
    }
  }

  /** Repair is idempotent on every input, damaged or not: cutting a file at the end of what a scan
      recovered leaves a file that scans clean to the same records. */
  lemma RepairScansClean(parse: Parser, cap: nat, s: seq<Byte>, tip: Tip)
    requires Local(parse) && Scan(parse, cap, s, tip).Ok?
    ensures var r := Scan(parse, cap, s, tip).value;
            Scan(parse, cap, s[..r.bytes], tip) == Ok(Replayed(r.records, r.bytes, false))
  {
    var r := Scan(parse, cap, s, tip).value;
    ScanSpan(parse, cap, s, tip);
    WholeSpan(r.records, 0);
    CutScans(parse, cap, s, r.bytes, tip);
    assert r.records[..|r.records|] == r.records;
  }

  lemma DropAppended(s: seq<Byte>, e: seq<Byte>, n: nat)
    requires n <= |s|
    ensures (s + e)[n..] == s[n..] + e && s <= s + e
  {
  }

  lemma TipStep(r: Record, rest: seq<Record>, tip: Tip)
    ensures TipOf([r] + rest, tip) == TipOf(rest, After(tip, r))
  {
    assert ([r] + rest)[1..] == rest;
  }

  /** The first record of a scan that succeeds, and the rest of it. */
  lemma ScanHead(parse: Parser, cap: nat, s: seq<Byte>, tip: Tip, found: seq<Record>)
    returns (r: Record, rest: seq<Byte>, more: seq<Record>)
    requires Local(parse) && s != [] && Scan(parse, cap, s, tip) == Ok(Replayed(found, |s|, false))
    ensures found == [r] + more && parse(s, tip) == Got(r) && tip.retained + |r.payload| <= cap
    ensures |s| >= RECORD_HEADER_BYTES + |r.payload| && rest == s[RECORD_HEADER_BYTES + |r.payload|..]
    ensures Scan(parse, cap, rest, After(tip, r)) == Ok(Replayed(more, |rest|, false))
  {
    assert EndsAt(parse, s, tip);
    r := parse(s, tip).record;
    rest := s[RECORD_HEADER_BYTES + |r.payload|..];
    more := Scan(parse, cap, rest, After(tip, r)).value.records;
  }

  /** A clean file is read through to whatever follows it. */
  lemma {:induction false} ScanConcat(parse: Parser, cap: nat, s: seq<Byte>, t: seq<Byte>, found: seq<Record>, tip: Tip)
    requires Local(parse) && Scan(parse, cap, s, tip) == Ok(Replayed(found, |s|, false))
    ensures Scan(parse, cap, s + t, tip) == Put(found, |s|, Scan(parse, cap, t, TipOf(found, tip)))
    decreases |s|
  {
    var end := Scan(parse, cap, t, TipOf(found, tip));
    if s == [] {
      assert EndsAt(parse, s, tip) && s + t == t;
      PutNothing(end);
    } else {
      var first, rest, more := ScanHead(parse, cap, s, tip, found);
      var n := RECORD_HEADER_BYTES + |first.payload|;
      TipStep(first, more, tip);
      ScanConcat(parse, cap, rest, t, more, After(tip, first));
      DropAppended(s, t, n);
      assert AgreesAt(parse, s, s + t, tip);
      ScanStep(parse, cap, s + t, tip, first, rest + t);
      PutPut([first], n, more, |rest|, end);
    }
  }

  /** The bytes are whole records from start to end. */
  ghost predicate Clean(h: Hashing, lim: Limits, cap: nat, s: seq<Byte>, found: seq<Record>) {
    Scan(ParserOf(h, lim), cap, s, START) == Ok(Replayed(found, |s|, false))
  }

  /** A record that continues a clean file is recovered after all earlier ones, whoever wrote them. */
  lemma AppendScans(h: Hashing, lim: Limits, cap: nat, s: seq<Byte>, found: seq<Record>, r: Record)
    requires Clean(h, lim, cap, s, found) && Continues(h, lim, cap, r, TipOf(found, START))
    ensures Clean(h, lim, cap, s + Encode(h, r), found + [r])
    ensures TipOf(found + [r], START) == After(TipOf(found, START), r)
  {
    EncodedParsed(h, lim, cap, r, TipOf(found, START));
    AppendClean(h, lim, cap, s, Encode(h, r), found, r);
    TipSnoc(found, r, START);
  }

  lemma AppendClean(h: Hashing, lim: Limits, cap: nat, s: seq<Byte>, e: seq<Byte>, found: seq<Record>, r: Record)
    requires Clean(h, lim, cap, s, found)
    requires ParserOf(h, lim)(e, TipOf(found, START)) == Got(r) && |e| == RECORD_HEADER_BYTES + |r.payload|
    requires TipOf(found, START).retained + |r.payload| <= cap
    ensures Clean(h, lim, cap, s + e, found + [r])
  {
    ParserLocal(h, lim);
    AppendParsed(ParserOf(h, lim), cap, s, e, found, r);
  }

  lemma EncodedParsed(h: Hashing, lim: Limits, cap: nat, r: Record, tip: Tip)
    requires Continues(h, lim, cap, r, tip)
    ensures ParserOf(h, lim)(Encode(h, r), tip) == Got(r)
  {
    ParseEncoded(h, lim, cap, r, [], tip);
    assert Encode(h, r) + [] == Encode(h, r);
  }

  lemma AppendParsed(parse: Parser, cap: nat, s: seq<Byte>, e: seq<Byte>, found: seq<Record>, r: Record)
    requires Local(parse) && Scan(parse, cap, s, START) == Ok(Replayed(found, |s|, false))
    requires parse(e, TipOf(found, START)) == Got(r) && |e| == RECORD_HEADER_BYTES + |r.payload|
    requires TipOf(found, START).retained + |r.payload| <= cap
    ensures Scan(parse, cap, s + e, START) == Ok(Replayed(found + [r], |s| + |e|, false))
  {
    ScanLast(parse, cap, e, TipOf(found, START), r);
    ScanConcat(parse, cap, s, e, found, START);
  }

  lemma ScanLast(parse: Parser, cap: nat, e: seq<Byte>, tip: Tip, r: Record)
    requires Local(parse) && parse(e, tip) == Got(r) && |e| == RECORD_HEADER_BYTES + |r.payload|
    requires tip.retained + |r.payload| <= cap
    ensures Scan(parse, cap, e, tip) == Ok(Replayed([r], |e|, false))
  {
    assert EndsAt(parse, [], After(tip, r));
    assert e[|e|..] == [] && [r] + [] == [r];
    ScanStep(parse, cap, e, tip, r, []);
  }

  lemma {:induction false} TipSnoc(found: seq<Record>, r: Record, tip: Tip)
    ensures TipOf(found + [r], tip) == After(TipOf(found, tip), r)
  {
    if found == [] {
      assert found + [r] == [r];
    } else {
      TipSnoc(found[1..], r, After(tip, found[0]));
      assert (found + [r])[1..] == found[1..] + [r];
    }
  }

  /** Records that end inside the first n bytes survive the cut. */
  lemma {:induction false} WholeKeeps(records: seq<Record>, j: nat, n: nat)
    requires j <= |records| && Span(records[..j]) <= n
    ensures j <= Whole(records, n)
  {
    if j > 0 {
      assert records[..j][1..] == records[1..][..j - 1];
      WholeKeeps(records[1..], j - 1, n - RECORD_HEADER_BYTES - |records[0].payload|);
    }
  }

  /** The retention limit is the only thing that can stop a clean file from being read. */
  lemma {:induction false} ScanUnderCap(parse: Parser, cap: nat, big: nat, s: seq<Byte>, tip: Tip)
    requires Scan(parse, big, s, tip).Ok? && tip.retained <= cap
    ensures var v := Scan(parse, big, s, tip).value;
            && TipOf(v.records, tip).retained >= tip.retained
            && Scan(parse, cap, s, tip) == if TipOf(v.records, tip).retained <= cap then Ok(v) else Err(LimitExceeded)
    decreases |s|
  {
    var p := parse(s, tip);
    if p.Got? && |s| >= RECORD_HEADER_BYTES + |p.record.payload| {
      var rest, next := s[RECORD_HEADER_BYTES + |p.record.payload|..], After(tip, p.record);
      TipStep(p.record, Scan(parse, big, rest, next).value.records, tip);
      if next.retained <= cap {
        ScanUnderCap(parse, cap, big, rest, next);
      } else {
        TipGrows(Scan(parse, big, rest, next).value.records, next);
      }
    }
  }

  lemma {:induction false} TipGrows(records: seq<Record>, tip: Tip)
    ensures TipOf(records, tip).retained >= tip.retained && TipOf(records, tip).count == tip.count + |records|
  {
    if records != [] { TipGrows(records[1..], After(tip, records[0])); }
  }

  /** A file that exceeds the retention limit keeps exceeding it whatever is written behind it. */
  lemma {:induction false} ScanErrSticks(parse: Parser, cap: nat, s: seq<Byte>, t: seq<Byte>, tip: Tip)
    requires Local(parse) && Scan(parse, cap, s, tip).Err?
    ensures Scan(parse, cap, s + t, tip).Err?
    decreases |s|
  {
    var p := parse(s, tip);
    var n := RECORD_HEADER_BYTES + |p.record.payload|;
    DropAppended(s, t, n);
    assert AgreesAt(parse, s, s + t, tip);
    if tip.retained + |p.record.payload| <= cap { ScanErrSticks(parse, cap, s[n..], t, After(tip, p.record)); }
  }
}
