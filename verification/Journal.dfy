/** The append-only journal over one file: opening with repair, appending, syncing and atomic rewriting. */
module Journals {
  import opened Wrappers
  import opened Bytes
  import opened JournalFormat
  import opened TornTail

  // ----- file header

  /** The characters BPFABJ01. */
  const MAGIC: seq<Byte> := [66, 80, 70, 65, 66, 74, 48, 49]
  const FORMAT_VERSION: nat := 1

  function HeaderFront(): (s: seq<Byte>)
    ensures |s| == 28
  {
    MAGIC + Le(FORMAT_VERSION, 2) + Le(0, 2) + Le(HEADER_BYTES, 4) + Le(0, 8) + Le(0, 4)
  }

  function Header(h: Hashing): (s: seq<Byte>)
    ensures |s| == HEADER_BYTES
  {
    HeaderFront() + Le(h.header(HeaderFront()) % U32, 4)
  }

  function CheckHeader(h: Hashing, file: seq<Byte>): Status {
    if |file| < HEADER_BYTES then Failed(TruncatedInput)
    else if file[..8] != MAGIC then Failed(MalformedInput)
    else if Value(file[8..10]) != FORMAT_VERSION then Failed(VersionMismatch)
    else if h.header(file[..28]) % U32 != Value(file[28..32]) then Failed(IntegrityMismatch)
    else Success
  }

  lemma HeaderParts(h: Hashing, rest: seq<Byte>)
    ensures var f := Header(h) + rest;
            && f[..8] == MAGIC && f[8..10] == Le(FORMAT_VERSION, 2) && f[..28] == HeaderFront()
            && f[28..32] == Le(h.header(HeaderFront()) % U32, 4)
  {
    var f := Header(h) + rest;
    assert f[..28] == HeaderFront();
    assert f[8..10] == HeaderFront()[8..10];
  }

  lemma HeaderAccepted(h: Hashing, rest: seq<Byte>)
    ensures CheckHeader(h, Header(h) + rest) == Success
  {
    HeaderParts(h, rest);
    Powers();
    LeRoundTrip(FORMAT_VERSION, 2);
    LeRoundTrip(h.header(HeaderFront()) % U32, 4);
  }

  /** Only the first 32 bytes decide. */
  lemma HeaderLocal(h: Hashing, f: seq<Byte>, g: seq<Byte>)
    requires |f| >= HEADER_BYTES && |g| >= HEADER_BYTES && f[..HEADER_BYTES] == g[..HEADER_BYTES]
    ensures CheckHeader(h, f) == CheckHeader(h, g)
  {
    assert f[..8] == f[..HEADER_BYTES][..8] && f[..28] == f[..HEADER_BYTES][..28];
    assert f[8..10] == f[..HEADER_BYTES][8..10] && f[28..32] == f[..HEADER_BYTES][28..32];
    assert g[..8] == g[..HEADER_BYTES][..8] && g[..28] == g[..HEADER_BYTES][..28];
    assert g[8..10] == g[..HEADER_BYTES][8..10] && g[28..32] == g[..HEADER_BYTES][28..32];
  }

  /** What opening a file recovers. */
  function Recover(h: Hashing, lim: Limits, file: seq<Byte>): Result<Replayed> {
    var status := CheckHeader(h, file);
    if status.Failed? then Err(status.error)
    else Scan(ParserOf(h, lim), lim.maxRetained, file[HEADER_BYTES..], START)
  }

  /** A file that opens without repair, to exactly these records. */
  ghost predicate Intact(h: Hashing, lim: Limits, file: seq<Byte>, records: seq<Record>) {
    CheckHeader(h, file) == Success && Clean(h, lim, lim.maxRetained, file[HEADER_BYTES..], records)
  }

  /** Torn-tail safety of the whole file: a crash that leaves the first n bytes, header included, loses only
      records that were not wholly inside them; repair leaves a file that opens clean to the same records. */
  lemma CrashRecovers(h: Hashing, lim: Limits, file: seq<Byte>, records: seq<Record>, n: nat)
    requires Intact(h, lim, file, records) && HEADER_BYTES <= n <= |file|
    ensures var kept := records[..Whole(records, n - HEADER_BYTES)];
            && HEADER_BYTES + Span(kept) <= n
            && Recover(h, lim, file[..n]) == Ok(Replayed(kept, Span(kept), HEADER_BYTES + Span(kept) != n))
            && Intact(h, lim, file[..HEADER_BYTES + Span(kept)], kept)
    ensures forall j: nat :: j <= |records| && HEADER_BYTES + Span(records[..j]) <= n ==>
            j <= Whole(records, n - HEADER_BYTES)
  {
    var m := n - HEADER_BYTES;
    CutKeeps(h, lim, file, records, n);
    CutFile(h, lim, file, records, n);
    forall j: nat | j <= |records| && HEADER_BYTES + Span(records[..j]) <= n ensures j <= Whole(records, m) {
      WholeKeeps(records, j, m);
    }
  }

  lemma CutFile(h: Hashing, lim: Limits, file: seq<Byte>, records: seq<Record>, n: nat)
    requires Intact(h, lim, file, records) && HEADER_BYTES <= n <= |file|
    ensures CheckHeader(h, file[..n]) == Success && Recover(h, lim, file[..n]) == CutOf(records, n - HEADER_BYTES)
  {
    CutHeader(h, file, n);
    CutRows(h, lim, file[HEADER_BYTES..], records, n - HEADER_BYTES);
    assert file[..n][HEADER_BYTES..] == file[HEADER_BYTES..][..n - HEADER_BYTES];
  }

  lemma CutHeader(h: Hashing, file: seq<Byte>, n: nat)
    requires HEADER_BYTES <= n <= |file| && CheckHeader(h, file) == Success
    ensures CheckHeader(h, file[..n]) == Success
  {
    HeaderLocal(h, file, file[..n]);
  }

  lemma CutRows(h: Hashing, lim: Limits, rows: seq<Byte>, records: seq<Record>, m: nat)
    requires Clean(h, lim, lim.maxRetained, rows, records) && m <= |rows|
    ensures Scan(ParserOf(h, lim), lim.maxRetained, rows[..m], START) == CutOf(records, m)
  {
    ParserLocal(h, lim);
    CutScans(ParserOf(h, lim), lim.maxRetained, rows, m, START);
  }

  /** What is left once the torn tail is cut off. */
  lemma CutKeeps(h: Hashing, lim: Limits, file: seq<Byte>, records: seq<Record>, n: nat)
    requires Intact(h, lim, file, records) && HEADER_BYTES <= n <= |file|
    ensures var kept := records[..Whole(records, n - HEADER_BYTES)];
            HEADER_BYTES + Span(kept) <= n && Intact(h, lim, file[..HEADER_BYTES + Span(kept)], kept)
  {
    var kept := records[..Whole(records, n - HEADER_BYTES)];
    WholeSpan(records, n - HEADER_BYTES);
    CutFile(h, lim, file, records, n);
    KeepFront(h, lim, file, kept, n);
  }

  lemma KeepFront(h: Hashing, lim: Limits, file: seq<Byte>, kept: seq<Record>, n: nat)
    requires HEADER_BYTES + Span(kept) <= n <= |file| && CheckHeader(h, file[..n]) == Success
    requires Recover(h, lim, file[..n]).Ok? && Recover(h, lim, file[..n]).value.records == kept
          && Recover(h, lim, file[..n]).value.bytes == Span(kept)
    ensures Intact(h, lim, file[..HEADER_BYTES + Span(kept)], kept)
  {
    RepairedFile(h, lim, file[..n], kept, Span(kept));
    assert file[..n][..HEADER_BYTES + Span(kept)] == file[..HEADER_BYTES + Span(kept)];
  }

  /** Repair is idempotent on every file that opens at all, however damaged. */
  lemma RepairedFile(h: Hashing, lim: Limits, file: seq<Byte>, records: seq<Record>, bytes: nat)
    requires CheckHeader(h, file) == Success && bytes <= |file| - HEADER_BYTES
    requires Recover(h, lim, file).Ok? && Recover(h, lim, file).value.records == records
          && Recover(h, lim, file).value.bytes == bytes
    ensures Intact(h, lim, file[..HEADER_BYTES + bytes], records)
  {
    HeaderLocal(h, file, file[..HEADER_BYTES + bytes]);
    ParserLocal(h, lim);
    assert file[..HEADER_BYTES + bytes][HEADER_BYTES..] == file[HEADER_BYTES..][..bytes];
    RepairScansClean(ParserOf(h, lim), lim.maxRetained, file[HEADER_BYTES..], START);
  }

  // ----- the journal object

  datatype Disk = Disk(bytes: seq<Byte>, synced: nat)

  /** A crash keeps at least what was synced. */
  ghost predicate CrashLeaves(before: Disk, after: Disk) {
    before.synced <= |after.bytes| && after.bytes <= before.bytes && after.synced == before.synced
  }

  /** What a crash leaves opens again exactly when the header is whole. */
  lemma CrashedOpensIff(h: Hashing, lim: Limits, before: Disk, records: seq<Record>, after: Disk)
    requires Intact(h, lim, before.bytes, records) && CrashLeaves(before, after)
    ensures Recover(h, lim, after.bytes).Ok? <==> |after.bytes| >= HEADER_BYTES
    ensures |after.bytes| < HEADER_BYTES ==> Recover(h, lim, after.bytes) == Err(TruncatedInput)
  {
    if |after.bytes| >= HEADER_BYTES {
      CrashRecovers(h, lim, before.bytes, records, |after.bytes|);
      assert before.bytes[..|after.bytes|] == after.bytes;
    }
  }

  /** A freshly created journal is not synced: a crash may leave nothing of it, and it never opens again. */
  lemma FreshJournalCanBeLost(h: Hashing, lim: Limits)
    ensures Intact(h, lim, Header(h), []) && CrashLeaves(Disk(Header(h), 0), Disk([], 0))
    ensures Recover(h, lim, []) == Err(TruncatedInput)
  {
    StartLaidOut(h, lim, lim.maxRetained);
    CrashedOpensIff(h, lim, Disk(Header(h), 0), [], Disk([], 0));
  }

  /** Outcome of the checks made while a rewritten file is laid out, starting at the given size. */
  function CheckRewrite(lim: Limits, records: seq<Record>, bytes: nat): Status {
    if records == [] then Success
    else if |records[0].payload| > lim.maxRecordBytes then Failed(OversizedInput)
    else
      var size := bytes + RECORD_HEADER_BYTES + |records[0].payload|;
      if size > lim.maxFileBytes then Failed(LimitExceeded) else CheckRewrite(lim, records[1..], size)
  }

  /** All that is checked before the file is replaced. */
  function RewriteCheck(lim: Limits, records: seq<Record>): Status {
    if |records| > lim.maxRecords then Failed(LimitExceeded) else CheckRewrite(lim, records, HEADER_BYTES)
  }

  function Payloads(records: seq<Record>): nat {
    if records == [] then 0 else |records[0].payload| + Payloads(records[1..])
  }

  predicate SameContent(a: Record, b: Record) {
    a.kind == b.kind && a.tick == b.tick && a.epoch == b.epoch && a.payload == b.payload
  }

  predicate SameContents(a: seq<Record>, b: seq<Record>) {
    |a| == |b| && forall i :: 0 <= i < |a| ==> SameContent(a[i], b[i])
  }

  /** The record that continues the tip. */
  function NextRecord(h: Hashing, tip: Tip, kind: nat, tick: nat, epoch: nat, payload: seq<Byte>): Record {
    var sequence := tip.sequence + 1;
    Record(sequence, kind, tick, epoch, ChainOf(h, tip.chain, sequence, kind, tick, epoch, payload), payload)
  }

  predicate Writable(r: Record) { 0 < r.kind < KIND_COUNT && r.tick < U64 && r.epoch < U64 }

  /** The limit on records is a machine word. */
  predicate Sized(lim: Limits) { lim.maxRecords < U64 }

  /** The length fits its 32-bit field; a longer payload is written with its length truncated. */
  predicate Narrow(payload: seq<Byte>) { |payload| < U32 }

  predicate AllNarrow(records: seq<Record>) { forall r <- records :: Narrow(r.payload) }

  // ----- the file that holds given contents

  /** The contents under fresh sequence numbers and digests. */
  function Renumbered(h: Hashing, contents: seq<Record>): (records: seq<Record>)
    ensures |records| == |contents|
  {
    if contents == [] then []
    else
      var front, c := Renumbered(h, contents[..|contents| - 1]), contents[|contents| - 1];
      front + [NextRecord(h, TipOf(front, START), c.kind, c.tick, c.epoch, c.payload)]
  }

  function FileOf(h: Hashing, records: seq<Record>): seq<Byte> {
    if records == [] then Header(h) else FileOf(h, records[..|records| - 1]) + Encode(h, records[|records| - 1])
  }

  lemma RenumberedStep(h: Hashing, contents: seq<Record>, i: nat)
    requires i < |contents|
    ensures var front, c := Renumbered(h, contents[..i]), contents[i];
            var next := NextRecord(h, TipOf(front, START), c.kind, c.tick, c.epoch, c.payload);
            && Renumbered(h, contents[..i + 1]) == front + [next]
            && TipOf(front + [next], START) == After(TipOf(front, START), next)
  {
    var front, c := Renumbered(h, contents[..i]), contents[i];
    var next := NextRecord(h, TipOf(front, START), c.kind, c.tick, c.epoch, c.payload);
    assert contents[..i + 1][..i] == contents[..i];
    TipSnoc(front, next, START);
  }

  lemma FileSnoc(h: Hashing, records: seq<Record>, r: Record)
    ensures FileOf(h, records + [r]) == FileOf(h, records) + Encode(h, r)
  {
    assert (records + [r])[..|records|] == records;
  }

  lemma {:induction false} RenumberedKeeps(h: Hashing, contents: seq<Record>)
    ensures SameContents(Renumbered(h, contents), contents)
    ensures TipOf(Renumbered(h, contents), START).sequence == TipOf(Renumbered(h, contents), START).count == |contents|
    ensures TipOf(Renumbered(h, contents), START).retained == Payloads(contents)
  {
    if contents != [] {
      var n := |contents| - 1;
      assert contents[..n + 1] == contents;
      RenumberedKeeps(h, contents[..n]);
      RenumberedStep(h, contents, n);
      PayloadsSnoc(contents, n);
      SameContentsSnoc(h, contents, n);
    }
  }

  lemma SameContentsSnoc(h: Hashing, contents: seq<Record>, n: nat)
    requires n < |contents| && SameContents(Renumbered(h, contents[..n]), contents[..n])
    ensures SameContents(Renumbered(h, contents[..n + 1]), contents[..n + 1])
  {
    RenumberedStep(h, contents, n);
    assert contents[..n + 1] == contents[..n] + [contents[n]];
  }

  lemma {:induction false} PayloadsSnoc(contents: seq<Record>, i: nat)
    requires i < |contents|
    ensures Payloads(contents[..i + 1]) == Payloads(contents[..i]) + |contents[i].payload|
  {
    if i > 0 {
      PayloadsSnoc(contents[1..], i - 1);
      assert contents[..i + 1][1..] == contents[1..][..i] && contents[..i][1..] == contents[1..][..i - 1];
    }
  }

  /** What a record must satisfy to be laid out readably. */
  predicate Fitting(lim: Limits, r: Record) { Writable(r) && Narrow(r.payload) && |r.payload| <= lim.maxRecordBytes }

  /** The file holds the contents; only the retention limit decides whether it opens. */
  lemma {:induction false} FileOfLaidOut(h: Hashing, lim: Limits, cap: nat, contents: seq<Record>)
    requires Sized(lim) && |contents| <= lim.maxRecords && Payloads(contents) <= cap
    requires forall i :: 0 <= i < |contents| ==> Fitting(lim, contents[i])
    ensures LaidOut(h, lim, cap, FileOf(h, Renumbered(h, contents)), Renumbered(h, contents))
  {
    if contents == [] {
      StartLaidOut(h, lim, cap);
    } else {
      var n := |contents| - 1;
      PayloadsSnoc(contents, n);
      assert contents[..n + 1] == contents;
      assert Fitting(lim, contents[n]);
      FileOfLaidOut(h, lim, cap, contents[..n]);
      RenumberedKeeps(h, contents[..n]);
      RenumberedStep(h, contents, n);
      LaidOutNext(h, lim, cap, Renumbered(h, contents[..n]), contents[n]);
    }
  }

  lemma LaidOutNext(h: Hashing, lim: Limits, cap: nat, front: seq<Record>, c: Record)
    requires Sized(lim) && LaidOut(h, lim, cap, FileOf(h, front), front) && Fitting(lim, c)
    requires TipOf(front, START).sequence == TipOf(front, START).count < lim.maxRecords
    requires TipOf(front, START).retained + |c.payload| <= cap
    ensures var next := NextRecord(h, TipOf(front, START), c.kind, c.tick, c.epoch, c.payload);
            LaidOut(h, lim, cap, FileOf(h, front + [next]), front + [next])
  {
    var next := NextRecord(h, TipOf(front, START), c.kind, c.tick, c.epoch, c.payload);
    AppendAfterHeader(h, lim, cap, FileOf(h, front), front, next);
    FileSnoc(h, front, next);
  }

  lemma {:induction false} CheckedFits(lim: Limits, contents: seq<Record>, bytes: nat, i: nat)
    requires CheckRewrite(lim, contents, bytes) == Success && i < |contents|
    ensures |contents[i].payload| <= lim.maxRecordBytes
  {
    if i > 0 { CheckedFits(lim, contents[1..], bytes + RECORD_HEADER_BYTES + |contents[0].payload|, i - 1); }
  }

  lemma RewrittenLaidOut(h: Hashing, lim: Limits, contents: seq<Record>)
    requires Sized(lim) && |contents| <= lim.maxRecords && CheckRewrite(lim, contents, HEADER_BYTES) == Success
    requires forall i :: 0 <= i < |contents| ==> Writable(contents[i]) && Narrow(contents[i].payload)
    ensures LaidOut(h, lim, Payloads(contents), FileOf(h, Renumbered(h, contents)), Renumbered(h, contents))
    ensures TipOf(Renumbered(h, contents), START).retained == Payloads(contents)
  {
    forall i | 0 <= i < |contents| ensures Fitting(lim, contents[i]) { CheckedFits(lim, contents, HEADER_BYTES, i); }
    FileOfLaidOut(h, lim, Payloads(contents), contents);
    RenumberedKeeps(h, contents);
  }

  /** A rewritten file opens exactly when its payloads respect the retention limit. */
  lemma RewrittenOpens(h: Hashing, lim: Limits, contents: seq<Record>)
    requires Sized(lim) && |contents| <= lim.maxRecords && CheckRewrite(lim, contents, HEADER_BYTES) == Success
    requires forall i :: 0 <= i < |contents| ==> Writable(contents[i]) && Narrow(contents[i].payload)
    ensures var records := Renumbered(h, contents);
            var file := FileOf(h, records);
            Recover(h, lim, file) == if Payloads(contents) <= lim.maxRetained
                                     then Ok(Replayed(records, |file| - HEADER_BYTES, false)) else Err(LimitExceeded)
  {
    RewrittenLaidOut(h, lim, contents);
    UnderCap(h, lim, Payloads(contents), FileOf(h, Renumbered(h, contents)), Renumbered(h, contents));
  }

  /** Nothing written behind it makes an unreadable file readable again. */
  lemma UnreadableSticks(h: Hashing, lim: Limits, file: seq<Byte>, more: seq<Byte>)
    requires CheckHeader(h, file) == Success && Recover(h, lim, file).Err?
    ensures Recover(h, lim, file + more).Err?
  {
    HeaderLocal(h, file, file + more);
    ParserLocal(h, lim);
    DropAppended(file, more, HEADER_BYTES);
    ScanErrSticks(ParserOf(h, lim), lim.maxRetained, file[HEADER_BYTES..], more, START);
  }

  /** The checks made before a record of this kind and size is appended. */
  function AppendCheck(lim: Limits, kind: nat, size: nat, records: nat, bytes: nat, retained: nat): Status {
    if kind == KIND_COUNT then Failed(InvalidArgument)
    else if size > lim.maxRecordBytes then Failed(OversizedInput)
    else if records >= lim.maxRecords || bytes + RECORD_HEADER_BYTES + size > lim.maxFileBytes
         || retained + size > lim.maxRetained then Failed(LimitExceeded)
    else Success
  }

  class Journal {
    const h: Hashing
    const limits: Limits
    var file: seq<Byte>
    var synced: nat
    var records: seq<Record>
    var tip: Tip
    var torn: nat
    var repaired: bool

    ghost predicate Valid()
      reads this
    {
      && Sized(limits) && synced <= |file| && Intact(h, limits, file, records)
      && TipOf(records, START) == tip && tip.sequence == tip.count == |records|
    }

    constructor (h: Hashing, limits: Limits, disk: Disk)
      ensures this.h == h && this.limits == limits && file == disk.bytes && synced == disk.synced
      ensures records == [] && tip == START && torn == 0 && !repaired
    {
      this.h := h;
      this.limits := limits;
      file, synced, records, tip, torn, repaired := disk.bytes, disk.synced, [], START, 0, false;
    }

    /** Read records until the bytes end or one cannot be read. */
    method ReadRecords(parse: Parser, s: seq<Byte>) returns (r: Result<nat>)
      requires records == [] && tip == START && torn == 0
      modifies this`records, this`tip, this`torn
      ensures var scan := Scan(parse, limits.maxRetained, s, START);
              if scan.Err? then r == Err(scan.error)
              else r == Ok(scan.value.bytes) && records == scan.value.records
                   && tip == TipOf(records, START) && torn == (if scan.value.torn then 1 else 0)
    {
      var offset: nat := 0;
      ghost var all := Scan(parse, limits.maxRetained, s, START);
      assert s[0..] == s;
      PutNothing(all);
      while true
        invariant offset <= |s| && torn == 0 && tip == TipOf(records, START)
        invariant all == Put(records, offset, Scan(parse, limits.maxRetained, s[offset..], tip))
        decreases |s| - offset
      {
        ghost var rest := Scan(parse, limits.maxRetained, s[offset..], tip);
        var p := parse(s[offset..], tip);
        if p.End? {
          assert records + [] == records;
          break;
        }
        if p.Torn? || |s| - offset < RECORD_HEADER_BYTES + |p.record.payload| {
          assert records + [] == records;
          torn := 1;
          break;
        }
        var size := RECORD_HEADER_BYTES + |p.record.payload|;
        assert s[offset..][size..] == s[offset + size..];
        if tip.retained + |p.record.payload| > limits.maxRetained { return Err(LimitExceeded); }
        ScanStep(parse, limits.maxRetained, s[offset..], tip, p.record, s[offset + size..]);
        PutPut(records, offset, [p.record], size,
          Scan(parse, limits.maxRetained, s[offset + size..], After(tip, p.record)));
        TipSnoc(records, p.record, START);
        records := records + [p.record];
        tip := After(tip, p.record);
        offset := offset + size;
      }
      return Ok(offset);
    }

    /** Check the header, read the records and cut off whatever follows the last whole one. */
    method Replay() returns (status: Status)
      requires Sized(limits) && synced <= |file| && records == [] && tip == START && torn == 0 && !repaired
      modifies this
      ensures var found := Recover(h, limits, old(file));
              if found.Err? then status == Failed(found.error) && file == old(file) && synced == old(synced)
              else
                && status == Success && Valid() && records == found.value.records
                && HEADER_BYTES + found.value.bytes <= |old(file)|
                && file == old(file)[..HEADER_BYTES + found.value.bytes]
                && synced == (if old(synced) <= |file| then old(synced) else |file|)
                && torn == (if found.value.torn then 1 else 0) && repaired == (file != old(file))
    {
      var header := CheckHeader(h, file);
      if header.Failed? { return header; }
      var r := ReadRecords(ParserOf(h, limits), file[HEADER_BYTES..]);
      if r.Err? { return Failed(r.error); }
      var offset := HEADER_BYTES + r.value;
      Repaired(h, limits, file, records, r.value);
      if |file| > offset {
        file := file[..offset];
        repaired := true;
      }
      assert old(file)[..|old(file)|] == old(file);
      if synced > |file| { synced := |file|; }
      return Success;
    }

    /** Append one record; refused, the journal is untouched. */
    method Append(kind: nat, tick: nat, epoch: nat, payload: seq<Byte>) returns (status: Status)
      requires Valid() && 0 < kind <= KIND_COUNT && tick < U64 && epoch < U64
      modifies this`file, this`records, this`tip
      ensures Narrow(payload) || status.Failed? ==> Valid()
      ensures status == AppendCheck(limits, kind, |payload|, |old(records)|, |old(file)|, old(tip).retained)
      ensures var r := NextRecord(h, old(tip), kind, tick, epoch, payload);
              if status == Success then file == old(file) + Encode(h, r) && records == old(records) + [r]
              else file == old(file) && records == old(records) && tip == old(tip)
    {
      if kind == KIND_COUNT { return Failed(InvalidArgument); }
      if |payload| > limits.maxRecordBytes { return Failed(OversizedInput); }
      if |records| >= limits.maxRecords { return Failed(LimitExceeded); }
      if |file| + RECORD_HEADER_BYTES + |payload| > limits.maxFileBytes { return Failed(LimitExceeded); }
      if tip.retained + |payload| > limits.maxRetained { return Failed(LimitExceeded); }
      var r := NextRecord(h, tip, kind, tick, epoch, payload);
      if Narrow(payload) { AppendIntact(h, limits, file, records, r); }
      file := file + Encode(h, r);
      records := records + [r];
      tip := After(tip, r);
      return Success;
    }

    method Sync()
      requires Valid()
      modifies this`synced
      ensures Valid() && synced == |file|
    {
      synced := |file|;
    }

    /** Lay out a new file with these contents, renumbered, replace the old one by it and read it back. All limits but
        the retention limit are checked before anything is replaced; when that one is exceeded, the file that cannot
        be read back stays in place. */
    method Rewrite(contents: seq<Record>) returns (status: Status)
      requires Valid() && forall r <- contents :: Writable(r)
      modifies this
      ensures var check := RewriteCheck(limits, contents);
              if check.Failed? then
                && status == check && Valid() && file == old(file) && records == old(records)
                && synced == old(synced) && tip == old(tip)
              else if !AllNarrow(contents) then
                var bytes := FileOf(h, Renumbered(h, contents));
                var found := Recover(h, limits, bytes);
                if found.Err? then status == Failed(found.error) && file == bytes && synced == |file|
                else
                  && status == Success && Valid() && records == found.value.records && synced == |file|
                  && file <= bytes && |file| == HEADER_BYTES + found.value.bytes
              else if Payloads(contents) > limits.maxRetained then
                && status == Failed(LimitExceeded) && file == FileOf(h, Renumbered(h, contents)) && synced == |file|
                && Recover(h, limits, file) == Err(LimitExceeded)
              else
                && status == Success && Valid() && records == Renumbered(h, contents)
                && file == FileOf(h, records) && synced == |file|
    {
      if |contents| > limits.maxRecords { return Failed(LimitExceeded); }
      var buffer := LayOut(h, limits, contents);
      if buffer.Err? { return Failed(buffer.error); }
      if AllNarrow(contents) { RewrittenOpens(h, limits, contents); }
      status := Install(buffer.value);
    }

    /** Replace the file and read the new one. */
    method Install(bytes: seq<Byte>) returns (status: Status)
      requires Sized(limits)
      modifies this
      ensures var found := Recover(h, limits, bytes);
              if found.Err? then status == Failed(found.error) && file == bytes && synced == |bytes|
              else
                && status == Success && Valid() && records == found.value.records && synced == |file|
                && file <= bytes && |file| == HEADER_BYTES + found.value.bytes
    {
      file, synced, records, tip, torn, repaired := bytes, |bytes|, [], START, 0, false;
      status := Replay();
      assert bytes[..|bytes|] == bytes;
    }
  }

  /** The bytes of a file that holds these contents under fresh sequence numbers and digests. */
  method LayOut(h: Hashing, lim: Limits, contents: seq<Record>) returns (r: Result<seq<Byte>>)
    ensures var check := CheckRewrite(lim, contents, HEADER_BYTES);
            r == if check.Failed? then Err(check.error) else Ok(FileOf(h, Renumbered(h, contents)))
  {
    var buffer, last := StartFile(h, contents);
    assert contents[0..] == contents;
    for i := 0 to |contents|
      invariant Progress(h, contents, i, buffer, last)
      invariant CheckRewrite(lim, contents, HEADER_BYTES) == CheckRewrite(lim, contents[i..], |buffer|)
    {
      LayOutStep(lim, contents, i, |buffer|);
      if |contents[i].payload| > lim.maxRecordBytes { return Err(OversizedInput); }
      buffer, last := WriteNext(h, contents, i, buffer, last);
      if |buffer| > lim.maxFileBytes { return Err(LimitExceeded); }
    }
    ProgressDone(h, contents, buffer, last);
    assert contents[|contents|..] == [];
    return Ok(buffer);
  }

  lemma ProgressDone(h: Hashing, contents: seq<Record>, buffer: seq<Byte>, last: Tip)
    requires Progress(h, contents, |contents|, buffer, last)
    ensures buffer == FileOf(h, Renumbered(h, contents))
  {
    assert ProgressAt(h, contents, |contents|, buffer, last) && contents[..|contents|] == contents;
  }

  /** The first n records are laid out; stated so that the definition is looked into only where it is asked for. */
  ghost predicate Progress(h: Hashing, contents: seq<Record>, n: nat, buffer: seq<Byte>, last: Tip)
    requires n <= |contents|
  {
    forall i :: i == n ==> ProgressAt(h, contents, i, buffer, last)
  }

  ghost predicate ProgressAt(h: Hashing, contents: seq<Record>, i: nat, buffer: seq<Byte>, last: Tip)
    requires i <= |contents|
  {
    var done := Renumbered(h, contents[..i]);
    buffer == FileOf(h, done) && last == TipOf(done, START)
  }

  method StartFile(h: Hashing, ghost contents: seq<Record>) returns (buffer: seq<Byte>, last: Tip)
    ensures |buffer| == HEADER_BYTES && Progress(h, contents, 0, buffer, last)
  {
    buffer, last := Header(h), START;
  }

  /** Add the next record to a file being laid out. */
  method WriteNext(h: Hashing, contents: seq<Record>, i: nat, buffer: seq<Byte>, last: Tip)
    returns (grown: seq<Byte>, tip: Tip)
    requires i < |contents| && Progress(h, contents, i, buffer, last)
    ensures Progress(h, contents, i + 1, grown, tip)
    ensures |grown| == |buffer| + RECORD_HEADER_BYTES + |contents[i].payload|
  {
    var c := contents[i];
    assert ProgressAt(h, contents, i, buffer, last);
    RenumberedStep(h, contents, i);
    var next := NextRecord(h, last, c.kind, c.tick, c.epoch, c.payload);
    FileSnoc(h, Renumbered(h, contents[..i]), next);
    grown := buffer + Encode(h, next);
    tip := After(last, next);
  }

  ghost predicate LaidOut(h: Hashing, lim: Limits, cap: nat, file: seq<Byte>, records: seq<Record>) {
    CheckHeader(h, file) == Success && Clean(h, lim, cap, file[HEADER_BYTES..], records)
  }

  lemma AppendAfterHeader(h: Hashing, lim: Limits, cap: nat, file: seq<Byte>, records: seq<Record>, r: Record)
    requires LaidOut(h, lim, cap, file, records) && Continues(h, lim, cap, r, TipOf(records, START))
    ensures LaidOut(h, lim, cap, file + Encode(h, r), records + [r])
    ensures TipOf(records + [r], START) == After(TipOf(records, START), r)
  {
    AppendScans(h, lim, cap, file[HEADER_BYTES..], records, r);
    HeaderLocal(h, file, file + Encode(h, r));
    DropAppended(file, Encode(h, r), HEADER_BYTES);
  }

  lemma AppendIntact(h: Hashing, lim: Limits, file: seq<Byte>, records: seq<Record>, r: Record)
    requires Intact(h, lim, file, records) && Continues(h, lim, lim.maxRetained, r, TipOf(records, START))
    ensures Intact(h, lim, file + Encode(h, r), records + [r])
    ensures TipOf(records + [r], START) == After(TipOf(records, START), r)
  {
    AppendAfterHeader(h, lim, lim.maxRetained, file, records, r);
  }

  lemma StartLaidOut(h: Hashing, lim: Limits, cap: nat)
    ensures LaidOut(h, lim, cap, Header(h), [])
  {
    HeaderAccepted(h, []);
    assert Header(h) + [] == Header(h);
    EmptyClean(h, lim, cap, Header(h)[HEADER_BYTES..]);
  }

  lemma LayOutStep(lim: Limits, contents: seq<Record>, i: nat, size: nat)
    requires i < |contents|
    ensures CheckRewrite(lim, contents[i..], size) ==
      if |contents[i].payload| > lim.maxRecordBytes then Failed(OversizedInput)
      else if size + RECORD_HEADER_BYTES + |contents[i].payload| > lim.maxFileBytes then Failed(LimitExceeded)
      else CheckRewrite(lim, contents[i + 1..], size + RECORD_HEADER_BYTES + |contents[i].payload|)
  {
    assert contents[i..][1..] == contents[i + 1..];
  }

  lemma EmptyClean(h: Hashing, lim: Limits, cap: nat, s: seq<Byte>)
    requires s == []
    ensures Clean(h, lim, cap, s, [])
  {
  }

  /** A file laid out without regard to the retention limit opens exactly when it respects it. */
  lemma UnderCap(h: Hashing, lim: Limits, cap: nat, file: seq<Byte>, records: seq<Record>)
    requires LaidOut(h, lim, cap, file, records)
    ensures Recover(h, lim, file) == if TipOf(records, START).retained <= lim.maxRetained
                                     then Ok(Replayed(records, |file| - HEADER_BYTES, false)) else Err(LimitExceeded)
  {
    ScanUnderCap(ParserOf(h, lim), lim.maxRetained, cap, file[HEADER_BYTES..], START);
  }

  lemma Repaired(h: Hashing, lim: Limits, file: seq<Byte>, records: seq<Record>, bytes: nat)
    requires CheckHeader(h, file) == Success && bytes <= |file| - HEADER_BYTES
    requires Recover(h, lim, file).Ok? && Recover(h, lim, file).value.records == records
          && Recover(h, lim, file).value.bytes == bytes
    ensures Intact(h, lim, file[..HEADER_BYTES + bytes], records)
    ensures TipOf(records, START).sequence == TipOf(records, START).count == |records|
  {
    RecoveredSequence(h, lim, lim.maxRetained, file[HEADER_BYTES..], START);
    RepairedFile(h, lim, file, records, bytes);
    TipGrows(records, START);
  }

  /** Sequence numbers count the records. */
  lemma {:induction false} RecoveredSequence(h: Hashing, lim: Limits, cap: nat, s: seq<Byte>, tip: Tip)
    requires Scan(ParserOf(h, lim), cap, s, tip).Ok?
    ensures var found := Scan(ParserOf(h, lim), cap, s, tip).value.records;
            TipOf(found, tip).sequence == tip.sequence + |found|
    decreases |s|
  {
    var p := Parse(h, lim, s, tip);
    if p.Got? {
      var rest := s[RECORD_HEADER_BYTES + |p.record.payload|..];
      RecoveredSequence(h, lim, cap, rest, After(tip, p.record));
      TipStep(p.record, Scan(ParserOf(h, lim), cap, rest, After(tip, p.record)).value.records, tip);
    }
  }

  /** Open the journal, creating the file when asked. */
  method Open(h: Hashing, limits: Limits, disk: Option<Disk>, create: bool) returns (r: Result<Journal>)
    requires Sized(limits) && (disk.Some? ==> disk.value.synced <= |disk.value.bytes|)
    ensures var bad := limits.maxRecordBytes < 16 || limits.maxRecords == 0 || limits.maxFileBytes < HEADER_BYTES;
            if bad then r == Err(InvalidArgument)
            else if disk.None? then
              if create then r.Ok? && fresh(r.value) && r.value.Valid() && r.value.records == []
                             && r.value.file == Header(h) && r.value.synced == 0
              else r == Err(NotFound)
            else
              var found := Recover(h, limits, disk.value.bytes);
              if found.Err? then r == Err(found.error)
              else r.Ok? && fresh(r.value) && r.value.Valid() && r.value.records == found.value.records
                   && r.value.file <= disk.value.bytes
    ensures r.Ok? ==> r.value.h == h && r.value.limits == limits
  {
    if limits.maxRecordBytes < 16 || limits.maxRecords == 0 || limits.maxFileBytes < HEADER_BYTES {
      return Err(InvalidArgument);
    }
    if disk.None? && !create { return Err(NotFound); }
    var journal := new Journal(h, limits, if disk.Some? then disk.value else Disk(Header(h), 0));
    if disk.None? {
      StartLaidOut(h, limits, limits.maxRetained);
    }
    var status := journal.Replay();
    if status.Failed? { return Err(status.error); }
    return Ok(journal);
  }
}
