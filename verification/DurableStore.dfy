/** The store object: live state beside the journal that refines it. */
module DurableStores {
  import opened Wrappers
  import opened Model
  import opened Bytes
  import opened StoreCodec
  import opened JournalFormat
  import opened Journals
  import opened StoreState
  import opened StoreRefinement
  import opened StoreLaws
  import opened Compaction

  function EntryOf(r: Record): Entry { Entry(r.kind, r.epoch, r.payload) }

  function Entries(records: seq<Record>): (log: seq<Entry>)
    ensures |log| == |records| && forall i :: 0 <= i < |records| ==> log[i] == EntryOf(records[i])
  {
    seq(|records|, i requires 0 <= i < |records| => EntryOf(records[i]))
  }

  lemma EntriesSnoc(records: seq<Record>, r: Record)
    ensures Entries(records + [r]) == Entries(records) + [EntryOf(r)]
  {
  }

  /** Records to be rewritten; sequence numbers and digests are assigned by the journal. */
  function Drafts(log: seq<Entry>): (records: seq<Record>)
    ensures |records| == |log|
  {
    seq(|log|, i requires 0 <= i < |log| => Record(0, log[i].kind, 0, log[i].epoch, Digest(0, 0), log[i].payload))
  }

  /** Rewritten records bear tick zero and the kinds, epochs and payloads of the log. */
  lemma DraftsExact(log: seq<Entry>, i: nat)
    requires i < |log|
    ensures var r := Drafts(log)[i];
            r.tick == 0 && r.kind == log[i].kind && r.epoch == log[i].epoch && r.payload == log[i].payload
  {
  }

  lemma SameContentsSameEntries(records: seq<Record>, log: seq<Entry>)
    requires SameContents(records, Drafts(log))
    ensures Entries(records) == log
  {
    forall i | 0 <= i < |log| ensures Entries(records)[i] == log[i] {
      assert SameContent(records[i], Drafts(log)[i]);
    }
  }

  predicate EntryWritable(e: Entry) { 0 < e.kind < KIND_COUNT && e.epoch < U64 }

  lemma {:induction false} PartsWritable(epoch: nat, fences: seq<Fence>, list: seq<nat>, lineages: seq<Digest>)
    requires epoch < U64
    ensures forall e <- FencePart(epoch, fences) :: EntryWritable(e)
    ensures forall e <- RevalidationPart(epoch, list) :: EntryWritable(e)
    ensures forall e <- AttemptPart(epoch, list) :: EntryWritable(e)
    ensures forall e <- LineagePart(epoch, lineages) :: EntryWritable(e)
    decreases |fences| + |list| + |lineages|
  {
    if fences != [] { PartsWritable(epoch, fences[1..], list, lineages); }
    if list != [] { PartsWritable(epoch, fences, list[1..], lineages); }
    if lineages != [] { PartsWritable(epoch, fences, list, lineages[1..]); }
  }

  lemma CompactedWritable(st: Durable)
    requires st.epoch < U64
    ensures forall r <- Drafts(Compacted(st)) :: Writable(r)
  {
    PartsWritable(st.epoch, st.fences, st.revalidation, st.lineages);
    PartsWritable(st.epoch, [], st.attempts, []);
    assert forall e <- Compacted(st) :: EntryWritable(e);
    forall r <- Drafts(Compacted(st)) ensures Writable(r) {
      var i :| 0 <= i < |Compacted(st)| && r == Drafts(Compacted(st))[i];
      assert Compacted(st)[i] in Compacted(st);
    }
  }

  /** Records that were read back hold 64-bit epochs. */
  lemma {:induction false} ScannedWritable(h: Hashing, lim: Limits, cap: nat, s: seq<Byte>, tip: Tip)
    requires Scan(ParserOf(h, lim), cap, s, tip).Ok?
    ensures forall r <- Scan(ParserOf(h, lim), cap, s, tip).value.records :: r.epoch <= MAX_U64
    decreases |s|
  {
    var p := Parse(h, lim, s, tip);
    if p.Got? {
      ParsedEpoch(h, lim, s, tip);
      ScannedWritable(h, lim, cap, s[RECORD_HEADER_BYTES + |p.record.payload|..], After(tip, p.record));
    }
  }

  lemma ParsedEpoch(h: Hashing, lim: Limits, s: seq<Byte>, tip: Tip)
    requires Parse(h, lim, s, tip).Got?
    ensures Parse(h, lim, s, tip).record.epoch <= MAX_U64
  {
    var body := s[8..RECORD_HEADER_BYTES];
    BodySize();
    PlainUnpacks(BODY, body);
    AllPass(BODY, body);
    assert Passes(BODY[4], Unpack(BODY, body).value[4]);
  }

  lemma IntactWritable(h: Hashing, lim: Limits, file: seq<Byte>, records: seq<Record>)
    requires Intact(h, lim, file, records)
    ensures forall i :: 0 <= i < |records| ==> Entries(records)[i].epoch <= MAX_U64
  {
    ScannedWritable(h, lim, lim.maxRetained, file[HEADER_BYTES..], START);
    forall i | 0 <= i < |records| ensures Entries(records)[i].epoch <= MAX_U64 { assert records[i] in records; }
  }

  /** Crash safety of the store: whatever prefix of its file survives, the journal opens again exactly when the prefix
      holds the header, and then the store opens to the replay of the records wholly inside it. */
  lemma CrashedStoreOpens(
    h: Hashing, lim: Limits, cfg: Config, file: seq<Byte>, records: seq<Record>, live: Durable, n: nat)
    requires Intact(h, lim, file, records) && Tracks(cfg, Entries(records), live) && n <= |file|
    ensures Recover(h, lim, file[..n]).Ok? <==> n >= HEADER_BYTES
    ensures n >= HEADER_BYTES ==>
              var k := Whole(records, n - HEADER_BYTES);
              Recover(h, lim, file[..n]).value.records == records[..k] && Replay(cfg, FRESH, Entries(records[..k])).Ok?
  {
    if n >= HEADER_BYTES {
      var k := Whole(records, n - HEADER_BYTES);
      CrashRecovers(h, lim, file, records, n);
      PrefixReplays(cfg, records, k);
    }
  }

  lemma PrefixReplays(cfg: Config, records: seq<Record>, k: nat)
    requires k <= |records| && Replay(cfg, FRESH, Entries(records)).Ok?
    ensures Replay(cfg, FRESH, Entries(records[..k])).Ok?
  {
    assert Entries(records) == Entries(records[..k]) + Entries(records[k..]);
    ReplayConcat(cfg, FRESH, Entries(records[..k]), Entries(records[k..]));
  }

  /** What refuses an operation, and what it changes when it is written. */
  lemma OperationTold(cfg: Config, st: Durable, op: Op)
    ensures forall e :: RefusedWith(cfg, st, op, e) ==> Perform(cfg, st, op) == Refused(e)
    ensures var done := Perform(cfg, st, op); done.Written? ==> Effects(cfg, st, op, done.after, done.status)
    ensures op.PersistPolicy? && op.policy.Valid() && st.epoch != 0 && Outdated(st, op.policy) ==>
              Perform(cfg, st, op) == if st.policy == Some(op.policy) then Unchanged else Refused(StaleGeneration)
  {
    forall e | RefusedWith(cfg, st, op, e) ensures Perform(cfg, st, op) == Refused(e) { RefusalsExact(cfg, st, op, e); }
    if Perform(cfg, st, op).Written? { EffectsExact(cfg, st, op); }
    if op.PersistPolicy? && op.policy.Valid() {
      assert forall m :: !Malformed(op, m);
      RefusalsExact(cfg, st, op, StaleGeneration);
    }
  }

  class DurableStore {
    const cfg: Config
    const journal: Journal
    var live: Durable

    /** The store is configured with its journal's limits, and records fit their 32-bit length field. */
    ghost predicate Configured() {
      && cfg.maxRecordBytes == journal.limits.maxRecordBytes < U32 && cfg.maxRetained == journal.limits.maxRetained
      && cfg.maxLineages >= 1 && cfg.maxRecordBytes >= 4096
    }

    ghost predicate Valid()
      reads this, journal
    {
      && journal.Valid() && Configured()
      && WellFormed(cfg, live) && Tracks(cfg, Entries(journal.records), live)
    }

    constructor (cfg: Config, journal: Journal)
      ensures this.cfg == cfg && this.journal == journal && live == FRESH
    {
      this.cfg := cfg;
      this.journal := journal;
      live := FRESH;
    }

    /** Rebuild the state from the journal's records. */
    method ReplayRecords() returns (status: Status)
      requires journal.Valid() && Configured() && live == FRESH
      modifies this
      ensures var r := Replay(cfg, FRESH, Entries(journal.records));
              if r.Err? then status == Failed(r.error) else status == Success && live == r.value && Valid()
    {
      ghost var log := Entries(journal.records);
      assert log[0..] == log;
      for i := 0 to |journal.records|
        invariant Replay(cfg, live, log[i..]) == Replay(cfg, FRESH, log)
      {
        var next := Apply(cfg, live, EntryOf(journal.records[i]));
        assert log[i..][1..] == log[i + 1..];
        if next.Err? { return Failed(next.error); }
        live := next.value;
      }
      IntactWritable(journal.h, journal.limits, journal.file, journal.records);
      ReplayKeeps(cfg, FRESH, log);
      return Success;
    }

    /** Any operation but compaction: check, journal, sync, and only then change the live state. */
    method Execute(op: Op, tick: nat) returns (status: Status)
      requires Valid() && Representable(op) && tick < U64
      modifies this, journal
      ensures var done := Perform(cfg, old(live), op);
              var refused := journal.records == old(journal.records) && journal.file == old(journal.file)
                && live == old(live) && Valid();
              match done
              case Refused(e) => status == Failed(e) && refused
              case Unchanged => status == Success && refused
              case Written(entry, after, outcome) =>
                var check := AppendCheck(journal.limits, entry.kind, |entry.payload|, |old(journal.records)|,
                                         |old(journal.file)|, old(journal.tip).retained);
                if check.Failed? then status == check && refused
                else
                  && Entries(journal.records) == Entries(old(journal.records)) + [entry]
                  && old(journal.file) <= journal.file
                  && live == after && status == outcome && (Synced(op) ==> journal.synced == |journal.file|)
                  && (Sound(old(live), op) <==> Valid())
      ensures forall e :: RefusedWith(cfg, old(live), op, e) ==>
                status == Failed(e) && journal.file == old(journal.file) && live == old(live)
      ensures journal.file == old(journal.file) || Effects(cfg, old(live), op, live, status)
      ensures op.PersistPolicy? && op.policy.Valid() && old(live).epoch != 0 && Outdated(old(live), op.policy) ==>
                && journal.file == old(journal.file) && live == old(live)
                && status == (if old(live).policy == Some(op.policy) then Success else Failed(StaleGeneration))
    {
      var done := Perform(cfg, live, op);
      OperationTold(cfg, live, op);
      if done.Refused? { return Failed(done.error); }
      if done.Unchanged? { return Success; }
      var entry := done.entry;
      WrittenEpoch(cfg, live, op);
      PerformTracks(cfg, Entries(journal.records), live, op);
      status := WriteOut(entry, tick, done.after, Synced(op), Sound(live, op));
      if status == Success { status := done.status; }
    }

    /** Append the entry, sync it when asked to, and only then take over the new state. */
    method WriteOut(entry: Entry, tick: nat, after: Durable, sync: bool, ghost sound: bool) returns (status: Status)
      requires Valid() && tick < U64 && entry.epoch <= MAX_U64 && 0 < entry.kind < KIND_COUNT
      requires var log := Entries(journal.records) + [entry];
               if sound then Tracks(cfg, log, after) && WellFormed(cfg, after) else Replay(cfg, FRESH, log).Err?
      modifies this, journal
      ensures status == AppendCheck(journal.limits, entry.kind, |entry.payload|, |old(journal.records)|,
                                    |old(journal.file)|, old(journal.tip).retained)
      ensures if status.Failed? then
                && journal.records == old(journal.records) && journal.file == old(journal.file)
                && live == old(live) && Valid()
              else
                && Entries(journal.records) == Entries(old(journal.records)) + [entry]
                && |journal.records| == |old(journal.records)| + 1 && old(journal.file) <= journal.file
                && live == after && (sync ==> journal.synced == |journal.file|) && (sound <==> Valid())
    {
      status := journal.Append(entry.kind, tick, entry.epoch, entry.payload);
      if status.Failed? { return; }
      EntriesSnoc(old(journal.records), journal.records[|journal.records| - 1]);
      if sync { journal.Sync(); }
      live := after;
    }

    /** Replace the journal by one that rebuilds the live state. Limits that are checked first leave everything as it
        was; the retention limit is not, and when the new file exceeds it the store does not open again. */
    method CompactJournal() returns (status: Status)
      requires Valid()
      modifies journal
      ensures var check := CompactionCheck(journal.limits, live);
              if check.Failed? then
                && status == check && Valid() && journal.file == old(journal.file)
                && journal.records == old(journal.records)
                && journal.synced == old(journal.synced)
              else if Retained(Compacted(live)) <= cfg.maxRetained then
                && status == Success && Valid() && Entries(journal.records) == Compacted(live)
                && journal.synced == |journal.file|
              else
                && status == Failed(LimitExceeded) && journal.synced == |journal.file|
                && Recover(journal.h, journal.limits, journal.file) == Err(LimitExceeded)
    {
      CompactedTracks(cfg, journal.h, live);
      status := Refill(Compacted(live));
    }

    /** Replace the journal by one that holds this log. */
    method Refill(log: seq<Entry>) returns (status: Status)
      requires Valid() && Rebuilds(cfg, journal.h, log, live)
      modifies journal
      ensures var check := RewriteCheck(journal.limits, Drafts(log));
              if check.Failed? then
                && status == check && Valid() && journal.file == old(journal.file)
                && journal.records == old(journal.records)
                && journal.synced == old(journal.synced)
              else if Retained(log) <= cfg.maxRetained then
                && status == Success && Valid() && Entries(journal.records) == log && journal.synced == |journal.file|
              else
                && status == Failed(LimitExceeded) && journal.synced == |journal.file|
                && Recover(journal.h, journal.limits, journal.file) == Err(LimitExceeded)
    {
      assert RebuildsFrom(cfg, journal.h, log, live);
      DraftSizes(journal.limits, log);
      status := journal.Rewrite(Drafts(log));
    }
  }

  /** The limits that a compaction checks before it replaces anything. */
  function CompactionCheck(lim: Limits, live: Durable): Status {
    RewriteCheck(lim, Drafts(Compacted(live)))
  }

  lemma DraftSizes(lim: Limits, log: seq<Entry>)
    requires lim.maxRecordBytes < U32
    ensures Payloads(Drafts(log)) == Retained(log)
    ensures RewriteCheck(lim, Drafts(log)) == Success ==> AllNarrow(Drafts(log))
  {
    var contents := Drafts(log);
    DraftsRetained(log);
    if RewriteCheck(lim, contents) == Success {
      forall r <- contents ensures Narrow(r.payload) {
        var i :| 0 <= i < |contents| && contents[i] == r;
        CheckedFits(lim, contents, HEADER_BYTES, i);
      }
    }
  }

  /** A journal can hold the log, and replays it to this state; looked into only where asked for. */
  ghost predicate Rebuilds(cfg: Config, h: Hashing, log: seq<Entry>, live: Durable) {
    forall es: seq<Entry> :: es == log ==> RebuildsFrom(cfg, h, es, live)
  }

  ghost predicate RebuildsFrom(cfg: Config, h: Hashing, log: seq<Entry>, live: Durable) {
    && Entries(Renumbered(h, Drafts(log))) == log && Tracks(cfg, log, live)
    && forall r <- Drafts(log) :: Writable(r)
  }

  lemma CompactedTracks(cfg: Config, h: Hashing, live: Durable)
    requires WellFormed(cfg, live)
    ensures Rebuilds(cfg, h, Compacted(live), live)
  {
    CompactedWritable(live);
    RenumberedKeeps(h, Drafts(Compacted(live)));
    SameContentsSameEntries(Renumbered(h, Drafts(Compacted(live))), Compacted(live));
    CompactedReplays(cfg, live);
  }

  lemma {:induction false} DraftsRetained(log: seq<Entry>)
    ensures Payloads(Drafts(log)) == Retained(log)
  {
    if log != [] {
      var n := |log| - 1;
      DraftsRetained(log[..n]);
      PayloadsSnoc(Drafts(log), n);
      assert Drafts(log)[..n] == Drafts(log[..n]) && Drafts(log)[..n + 1] == Drafts(log);
    }
  }
}
