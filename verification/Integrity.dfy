/** What a recovered record guarantees, on the bytes of any file whatever: every record stands at its own offset with
    the length, checksum, sequence number and digest it must have, and the scan stops only where none does. */
module Integrity {
  import opened Wrappers
  import opened Bytes
  import opened JournalFormat
  import opened TornTail
  import opened Journals

  /** The number written at an offset, least significant byte first. */
  function Number(s: seq<Byte>, at: nat, width: nat): nat
    requires at + width <= |s|
  {
    Value(s[at..at + width])
  }

  lemma {:induction false} FieldAt(columns: seq<Column>, s: seq<Byte>, i: nat)
    requires i < |columns| && Unpack(columns, s).Ok?
    ensures Total(columns[..i]) + columns[i].width <= |s|
    ensures Unpack(columns, s).value[i] == Number(s, Total(columns[..i]), columns[i].width)
  {
    var w := columns[0].width;
    if i > 0 {
      FieldAt(columns[1..], s[w..], i - 1);
      assert columns[..i][1..] == columns[1..][..i - 1];
      var at := Total(columns[1..][..i - 1]);
      assert s[w..][at..at + columns[i].width] == s[w + at..w + at + columns[i].width];
    } else {
      assert columns[..0] == [];
    }
  }

  lemma BodyOffsets()
    ensures Total(BODY[..0]) == 0 && Total(BODY[..1]) == 8 && Total(BODY[..3]) == 12 && Total(BODY[..4]) == 20
    ensures Total(BODY[..5]) == 28 && Total(BODY[..6]) == 36
  {
    TotalUpTo(BODY, 0);
    TotalUpTo(BODY, 1);
    TotalUpTo(BODY, 2);
    TotalUpTo(BODY, 3);
    TotalUpTo(BODY, 4);
    TotalUpTo(BODY, 5);
    assert BODY[..0] == [];
  }

  lemma {:induction false} TotalUpTo(columns: seq<Column>, k: nat)
    requires k < |columns|
    ensures Total(columns[..k + 1]) == Total(columns[..k]) + columns[k].width
  {
    if k > 0 {
      TotalUpTo(columns[1..], k - 1);
      assert columns[..k + 1][1..] == columns[1..][..k] && columns[..k][1..] == columns[1..][..k - 1];
    } else {
      assert columns[..1][1..] == [] && columns[..0] == [];
    }
  }

  /** A record stands at the front of these bytes, behind the given sequence number and digest. */
  predicate Stands(h: Hashing, lim: Limits, s: seq<Byte>, tip: Tip, r: Record) {
    var n := |r.payload|;
    && |s| >= 52 + n && n <= lim.maxRecordBytes && tip.count < lim.maxRecords
    && Number(s, 0, 4) == n && s[52..52 + n] == r.payload
    && Number(s, 4, 4) == h.record(s[8..52], r.payload) % 0x1_0000_0000
    && r.sequence == tip.sequence + 1 && r.sequence == Number(s, 8, 8)
    && 0 < r.kind < 13 && r.kind == Number(s, 16, 2)
    && r.tick == Number(s, 20, 8) && r.epoch == Number(s, 28, 8)
    && r.chain.hi == Number(s, 36, 8) && r.chain.lo == Number(s, 44, 8)
    && var d := h.chain(tip.chain, r.sequence, r.kind, r.tick, r.epoch, r.payload);
       r.chain.hi == d.hi % 0x1_0000_0000_0000_0000 && r.chain.lo == d.lo % 0x1_0000_0000_0000_0000
  }

  lemma BodyFields(s: seq<Byte>, payload: seq<Byte>)
    requires |s| >= 52
    ensures var r := Assemble(s[8..52], payload);
            && r.sequence == Number(s, 8, 8) && r.kind == Number(s, 16, 2) && r.tick == Number(s, 20, 8)
            && r.epoch == Number(s, 28, 8) && r.chain.hi == Number(s, 36, 8) && r.chain.lo == Number(s, 44, 8)
  {
    var body := s[8..52];
    BodySize();
    PlainUnpacks(BODY, body);
    BodyOffsets();
    FieldAt(BODY, body, 0);
    FieldAt(BODY, body, 1);
    FieldAt(BODY, body, 3);
    FieldAt(BODY, body, 4);
    FieldAt(BODY, body, 5);
    FieldAt(BODY, body, 6);
    InBody(s, 0, 8);
    InBody(s, 8, 2);
    InBody(s, 12, 8);
    InBody(s, 20, 8);
    InBody(s, 28, 8);
    InBody(s, 36, 8);
  }

  lemma InBody(s: seq<Byte>, at: nat, width: nat)
    requires |s| >= 52 && at + width <= 44
    ensures Number(s[8..52], at, width) == Number(s, 8 + at, width)
  {
    var a, b := s[8..52][at..at + width], s[8 + at..8 + at + width];
    assert forall i :: 0 <= i < width ==> a[i] == s[8 + at + i] == b[i];
    assert a == b;
  }

  /** Parsing yields exactly the record that stands at the front, if one does. */
  lemma ParseExact(h: Hashing, lim: Limits, s: seq<Byte>, tip: Tip, r: Record)
    ensures Parse(h, lim, s, tip) == Got(r) <==> Stands(h, lim, s, tip, r)
    ensures Parse(h, lim, s, tip).End? <==> s == []
  {
    if |s| >= 52 {
      var n := Number(s, 0, 4);
      if 52 + n <= |s| {
        var payload := s[52..52 + n];
        BodyFields(s, payload);
        var found := Assemble(s[8..52], payload);
        var d := h.chain(tip.chain, found.sequence, found.kind, found.tick, found.epoch, payload);
        assert ChainOf(h, tip.chain, found.sequence, found.kind, found.tick, found.epoch, payload)
            == Digest(d.hi % 0x1_0000_0000_0000_0000, d.lo % 0x1_0000_0000_0000_0000);
      }
    }
  }

  /** Nothing stands at the front. */
  ghost predicate Nothing(h: Hashing, lim: Limits, s: seq<Byte>, tip: Tip) {
    forall r: Record :: !Stands(h, lim, s, tip, r)
  }

  /** Record i stands at its own offset, behind the records before it. */
  ghost predicate StandsAt(h: Hashing, lim: Limits, s: seq<Byte>, tip: Tip, records: seq<Record>, i: nat)
    requires i < |records|
  {
    Span(records[..i]) <= |s| && Stands(h, lim, s[Span(records[..i])..], TipOf(records[..i], tip), records[i])
  }

  /** The records stand one behind the other at the front of these bytes. */
  ghost predicate AllStand(h: Hashing, lim: Limits, s: seq<Byte>, tip: Tip, records: seq<Record>) {
    Span(records) <= |s| && forall i :: 0 <= i < |records| ==> StandsAt(h, lim, s, tip, records, i)
  }

  lemma SpanFront(r: Record, rest: seq<Record>, i: nat)
    requires i <= |rest|
    ensures ([r] + rest)[..i + 1] == [r] + rest[..i]
    ensures Span([r] + rest[..i]) == 52 + |r.payload| + Span(rest[..i])
    ensures forall tip :: TipOf([r] + rest[..i], tip) == TipOf(rest[..i], After(tip, r))
  {
    assert ([r] + rest[..i])[1..] == rest[..i];
  }

  lemma StandBehind(h: Hashing, lim: Limits, s: seq<Byte>, tip: Tip, r: Record, rest: seq<Record>)
    requires Stands(h, lim, s, tip, r) && AllStand(h, lim, s[52 + |r.payload|..], After(tip, r), rest)
    ensures AllStand(h, lim, s, tip, [r] + rest)
  {
    var n := 52 + |r.payload|;
    var all := [r] + rest;
    SpanFront(r, rest, |rest|);
    assert rest[..|rest|] == rest && all[..|rest| + 1] == all;
    forall i | 0 <= i < |all| ensures StandsAt(h, lim, s, tip, all, i) {
      if i == 0 {
        assert all[..0] == [] && s[0..] == s;
      } else {
        SpanFront(r, rest, i - 1);
        assert StandsAt(h, lim, s[n..], After(tip, r), rest, i - 1);
        assert s[n..][Span(rest[..i - 1])..] == s[n + Span(rest[..i - 1])..];
      }
    }
  }

  /** The records found stand one behind the other and end where none stands; the scan fails exactly when the next
      record that stands would exceed the retention limit. */
  ghost predicate ScanFinds(h: Hashing, lim: Limits, cap: nat, s: seq<Byte>, tip: Tip, found: seq<Record>)
    requires tip.retained <= cap && AllStand(h, lim, s, tip, found)
  {
    var rest := s[Span(found)..];
    var end := TipOf(found, tip);
    && end.retained <= cap
    && match Scan(ParserOf(h, lim), cap, s, tip)
       case Ok(r) => r == Replayed(found, Span(found), rest != []) && Nothing(h, lim, rest, end)
       case Err(e) => e == LimitExceeded && exists r :: Stands(h, lim, rest, end, r) && end.retained + |r.payload| > cap
  }

  lemma ScanOn(h: Hashing, lim: Limits, cap: nat, s: seq<Byte>, tip: Tip, r: Record, rest: seq<Record>)
    requires Parse(h, lim, s, tip) == Got(r) && Stands(h, lim, s, tip, r) && tip.retained + |r.payload| <= cap
    requires AllStand(h, lim, s[52 + |r.payload|..], After(tip, r), rest)
    requires ScanFinds(h, lim, cap, s[52 + |r.payload|..], After(tip, r), rest)
    ensures AllStand(h, lim, s, tip, [r] + rest) && ScanFinds(h, lim, cap, s, tip, [r] + rest)
  {
    StandBehind(h, lim, s, tip, r, rest);
    SpanFront(r, rest, |rest|);
    assert rest[..|rest|] == rest && s[52 + |r.payload|..][Span(rest)..] == s[Span([r] + rest)..];
  }

  lemma ScanStops(h: Hashing, lim: Limits, cap: nat, s: seq<Byte>, tip: Tip)
    requires tip.retained <= cap
    requires var p := Parse(h, lim, s, tip); p.Got? ==> tip.retained + |p.record.payload| > cap
    ensures AllStand(h, lim, s, tip, []) && ScanFinds(h, lim, cap, s, tip, [])
  {
    assert s[0..] == s;
    var p := Parse(h, lim, s, tip);
    if p.Got? {
      ParseExact(h, lim, s, tip, p.record);
    } else {
      forall r: Record ensures !Stands(h, lim, s, tip, r) { ParseExact(h, lim, s, tip, r); }
    }
  }

  /** What the scan of any bytes recovers. */
  lemma {:induction false} ScanExact(h: Hashing, lim: Limits, cap: nat, s: seq<Byte>, tip: Tip)
    returns (found: seq<Record>)
    requires tip.retained <= cap
    ensures AllStand(h, lim, s, tip, found) && ScanFinds(h, lim, cap, s, tip, found)
    decreases |s|
  {
    var p := Parse(h, lim, s, tip);
    if p.Got? && tip.retained + |p.record.payload| <= cap {
      ParseExact(h, lim, s, tip, p.record);
      var rest := ScanExact(h, lim, cap, s[52 + |p.record.payload|..], After(tip, p.record));
      ScanOn(h, lim, cap, s, tip, p.record, rest);
      found := [p.record] + rest;
    } else {
      ScanStops(h, lim, cap, s, tip);
      found := [];
    }
  }

  /** A record that continues the tip is written so that it stands, its reserved bytes zero. */
  lemma WrittenStands(h: Hashing, lim: Limits, cap: nat, r: Record, tail: seq<Byte>, tip: Tip)
    requires Continues(h, lim, cap, r, tip)
    ensures Stands(h, lim, Encode(h, r) + tail, tip, r) && Number(Encode(h, r), 18, 2) == 0
  {
    ParseEncoded(h, lim, cap, r, tail, tip);
    ParseExact(h, lim, Encode(h, r) + tail, tip, r);
    var s := Encode(h, r);
    EncodedParts(h, r, []);
    assert s + [] == s;
    Powers();
    AllHoldAt(BODY, BodyValues(r));
    PackUnpack(BODY, BodyValues(r), []);
    assert Pack(BODY, BodyValues(r)) + [] == s[8..52];
    TotalUpTo(BODY, 1);
    BodyOffsets();
    FieldAt(BODY, s[8..52], 2);
    InBody(s, 10, 2);
  }

  /** A file header, byte by byte: BPFABJ01, version 1, and a checksum over the first 28 bytes. */
  predicate HeaderStands(h: Hashing, file: seq<Byte>) {
    && |file| >= 32 && file[..8] == [66, 80, 70, 65, 66, 74, 48, 49] && Number(file, 8, 2) == 1
    && Number(file, 28, 4) == h.header(file[..28]) % 0x1_0000_0000
  }

  /** The header that is written stands, and names its own size. */
  lemma WrittenHeaderStands(h: Hashing, rest: seq<Byte>)
    ensures var file := Header(h) + rest;
            && HeaderStands(h, file) && Number(file, 10, 2) == 0 && Number(file, 12, 4) == 32
            && Number(file, 16, 8) == 0 && Number(file, 24, 4) == 0
  {
    HeaderAccepted(h, rest);
    HeaderParts(h, rest);
    FrontFields(Header(h) + rest);
  }

  lemma FrontFields(file: seq<Byte>)
    requires |file| >= 32 && file[..28] == HeaderFront()
    ensures Number(file, 10, 2) == 0 && Number(file, 12, 4) == 32
    ensures Number(file, 16, 8) == 0 && Number(file, 24, 4) == 0
  {
    FrontField(file, 10, 2);
    FrontField(file, 12, 4);
    FrontField(file, 16, 8);
    FrontField(file, 24, 4);
    FrontPieces();
    Powers();
    LeRoundTrip(32, 4);
    LeRoundTrip(0, 2);
    LeRoundTrip(0, 4);
    LeRoundTrip(0, 8);
  }

  lemma FrontPieces()
    ensures var front := HeaderFront();
            && front[10..12] == Le(0, 2) && front[12..16] == Le(32, 4) && front[16..24] == Le(0, 8)
            && front[24..28] == Le(0, 4)
  {
    Pieces(MAGIC + Le(1, 2), Le(0, 2), Le(32, 4), Le(0, 8), Le(0, 4));
  }

  lemma Pieces(a: seq<Byte>, b: seq<Byte>, c: seq<Byte>, d: seq<Byte>, e: seq<Byte>)
    ensures var all := a + b + c + d + e;
            && all[|a|..|a| + |b|] == b && all[|a| + |b|..|a| + |b| + |c|] == c
            && all[|a| + |b| + |c|..|a| + |b| + |c| + |d|] == d && all[|a| + |b| + |c| + |d|..|all|] == e
  {
    var all := a + b + c + d + e;
    Middle(a, b, c + d + e);
    Middle(a + b, c, d + e);
    Middle(a + b + c, d, e);
    Middle(a + b + c + d, e, []);
    assert a + b + (c + d + e) == all && a + b + c + (d + e) == all && all + [] == all;
  }

  lemma Middle(a: seq<Byte>, b: seq<Byte>, c: seq<Byte>)
    ensures (a + b + c)[|a|..|a| + |b|] == b
  {
  }

  lemma FrontField(file: seq<Byte>, at: nat, width: nat)
    requires |file| >= 32 && file[..28] == HeaderFront() && at + width <= 28
    ensures file[at..at + width] == HeaderFront()[at..at + width]
  {
    var a, b := file[at..at + width], HeaderFront()[at..at + width];
    assert forall i :: 0 <= i < width ==> a[i] == file[..28][at + i] == b[i];
  }

  /** What opening any file recovers: its header stands, and its records stand one behind the other up to where none
      does. */
  lemma RecoveredExact(h: Hashing, lim: Limits, file: seq<Byte>)
    requires Recover(h, lim, file).Ok?
    ensures HeaderStands(h, file)
    ensures var found := Recover(h, lim, file).value;
            && AllStand(h, lim, file[32..], START, found.records) && found.bytes == Span(found.records)
            && TipOf(found.records, START).retained <= lim.maxRetained
            && Nothing(h, lim, file[32 + found.bytes..], TipOf(found.records, START))
            && (found.torn <==> 32 + found.bytes < |file|)
  {
    var found := ScanExact(h, lim, lim.maxRetained, file[32..], START);
    assert file[32..][Span(found)..] == file[32 + Span(found)..];
  }

  /** A file is refused exactly when its header does not stand, or the records that stand exceed the retention limit. */
  lemma RefusedExact(h: Hashing, lim: Limits, file: seq<Byte>)
    ensures Recover(h, lim, file).Err? <==>
              || !HeaderStands(h, file)
              || exists found: seq<Record> ::
                   AllStand(h, lim, file[32..], START, found) && TipOf(found, START).retained > lim.maxRetained
  {
    if HeaderStands(h, file) {
      var found := ScanExact(h, lim, lim.maxRetained, file[32..], START);
      if Recover(h, lim, file).Err? {
        var rest, end := file[32..][Span(found)..], TipOf(found, START);
        var r :| Stands(h, lim, rest, end, r) && end.retained + |r.payload| > lim.maxRetained;
        OneMore(h, lim, file[32..], START, found, r);
      } else {
        forall more: seq<Record> | AllStand(h, lim, file[32..], START, more)
          ensures TipOf(more, START).retained <= lim.maxRetained
        {
          LongestStands(h, lim, file[32..], START, found, more);
        }
      }
    }
  }

  lemma OneMore(h: Hashing, lim: Limits, s: seq<Byte>, tip: Tip, found: seq<Record>, r: Record)
    requires AllStand(h, lim, s, tip, found) && Stands(h, lim, s[Span(found)..], TipOf(found, tip), r)
    ensures AllStand(h, lim, s, tip, found + [r])
    ensures TipOf(found + [r], tip) == After(TipOf(found, tip), r)
  {
    var all := found + [r];
    TipSnoc(found, r, tip);
    SpanSnoc(found, r);
    forall i | 0 <= i < |all| ensures StandsAt(h, lim, s, tip, all, i) {
      if i < |found| {
        assert StandsAt(h, lim, s, tip, found, i);
        assert all[..i] == found[..i];
      } else {
        assert all[..i] == found;
      }
    }
  }

  lemma {:induction false} SpanSnoc(found: seq<Record>, r: Record)
    ensures Span(found + [r]) == Span(found) + 52 + |r.payload|
  {
    if found != [] {
      SpanSnoc(found[1..], r);
      assert (found + [r])[1..] == found[1..] + [r];
    } else {
      assert [r][1..] == [];
    }
  }

  /** Records that stand are a front part of those that stand up to where none does. */
  lemma {:induction false} LongestStands(
    h: Hashing, lim: Limits, s: seq<Byte>, tip: Tip, found: seq<Record>, more: seq<Record>)
    requires AllStand(h, lim, s, tip, found) && AllStand(h, lim, s, tip, more)
    requires Nothing(h, lim, s[Span(found)..], TipOf(found, tip))
    ensures more <= found && TipOf(more, tip).retained <= TipOf(found, tip).retained
    decreases |more|
  {
    if more != [] {
      var n := |more| - 1;
      FrontStands(h, lim, s, tip, more, n);
      LongestStands(h, lim, s, tip, found, more[..n]);
      assert more[..n] == found[..n] && found[..|found|] == found;
      assert StandsAt(h, lim, s, tip, more, n) && StandsAt(h, lim, s, tip, found, n);
      ParseExact(h, lim, s[Span(found[..n])..], TipOf(found[..n], tip), found[n]);
      ParseExact(h, lim, s[Span(found[..n])..], TipOf(found[..n], tip), more[n]);
      assert more == more[..n] + [more[n]];
      RetainedUpTo(found, tip, n + 1);
      assert more == found[..n + 1];
    } else {
      RetainedUpTo(found, tip, 0);
    }
  }

  lemma FrontStands(h: Hashing, lim: Limits, s: seq<Byte>, tip: Tip, records: seq<Record>, n: nat)
    requires AllStand(h, lim, s, tip, records) && n <= |records|
    ensures AllStand(h, lim, s, tip, records[..n])
  {
    SpanUpTo(records, n);
    forall i | 0 <= i < n ensures StandsAt(h, lim, s, tip, records[..n], i) {
      assert StandsAt(h, lim, s, tip, records, i) && records[..n][..i] == records[..i];
    }
  }

  lemma {:induction false} SpanUpTo(records: seq<Record>, n: nat)
    requires n <= |records|
    ensures Span(records[..n]) <= Span(records)
  {
    if n > 0 {
      SpanUpTo(records[1..], n - 1);
      assert records[..n][1..] == records[1..][..n - 1];
    }
  }

  lemma {:induction false} RetainedUpTo(records: seq<Record>, tip: Tip, n: nat)
    requires n <= |records|
    ensures TipOf(records[..n], tip).retained <= TipOf(records, tip).retained
  {
    if records != [] {
      if n > 0 {
        RetainedUpTo(records[1..], After(tip, records[0]), n - 1);
        assert records[..n][1..] == records[1..][..n - 1];
      } else {
        RetainedUpTo(records[1..], After(tip, records[0]), 0);
        assert records[..0] == [] && records[1..][..0] == [];
      }
    }
  }
}
