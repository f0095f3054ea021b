/** The crash protocol on bytes: every step of the fabric is carried out on the journal's file, a crash keeps any
    prefix of it that is at least as long as the synced part, and what then opens is told exactly. */
module FabricBytes {
  import opened Wrappers
  import opened Bytes
  import opened StoreCodec
  import opened JournalFormat
  import opened TornTail
  import opened Journals
  import opened StoreState
  import opened StoreRefinement
  import opened Compaction
  import opened DurableStores
  import opened FabricCrash

  /** The file, how much of it is synced, and the records it holds. */
  datatype Medium = Medium(file: seq<Byte>, synced: nat, records: seq<Record>)

  /** The bytes of the synced records and the header before them; at first nothing is synced. */
  function SyncedBytes(records: seq<Record>, synced: nat): nat
    requires synced <= |records|
  {
    if synced == 0 then 0 else HEADER_BYTES + Span(records[..synced])
  }

  /** The file stands for the log, and the synced part of the file for the synced part of the log. */
  ghost predicate Backs(h: Hashing, lim: Limits, m: Medium, w: World) {
    && Intact(h, lim, m.file, m.records) && Entries(m.records) == w.log && Counted(m.records)
    && w.synced <= |m.records| && m.synced == SyncedBytes(m.records, w.synced) <= |m.file|
  }

  predicate Counted(records: seq<Record>) {
    TipOf(records, START).sequence == TipOf(records, START).count == |records|
  }

  /** The store is configured with its journal's limits. */
  predicate Agreed(cfg: Config, lim: Limits) {
    && cfg.maxLineages >= 1 && cfg.maxRecordBytes == lim.maxRecordBytes < U32 && cfg.maxRetained == lim.maxRetained
    && Sized(lim)
  }

  // ----- steps on the file

  /** A step of the fabric, at some tick, or a crash that leaves the first n bytes. */
  datatype Event = Take(action: Action, tick: nat) | Cut(n: nat)

  predicate Compacts(w: World, a: Action) {
    a.CompactLog? && a.accepted && w.process.Some? && w.process.value.stage == Idle
  }

  function Appended(h: Hashing, m: Medium, e: Entry, tick: nat, sync: bool): Medium {
    var r := NextRecord(h, TipOf(m.records, START), e.kind, tick, e.epoch, e.payload);
    var file := m.file + Encode(h, r);
    Medium(file, if sync then |file| else m.synced, m.records + [r])
  }

  function Rewritten(h: Hashing, live: Durable): Medium {
    var records := Renumbered(h, Drafts(Compacted(live)));
    Medium(FileOf(h, records), |FileOf(h, records)|, records)
  }

  /** What is left once the torn tail has been cut off. */
  function Survives(m: Medium, n: nat): (r: Medium)
    requires HEADER_BYTES <= n
  {
    var kept := m.records[..Whole(m.records, n - HEADER_BYTES)];
    var size := HEADER_BYTES + Span(kept);
    if size > |m.file| then m else Medium(m.file[..size], if m.synced <= size then m.synced else size, kept)
  }

  datatype System = System(medium: Medium, world: World, history: History)

  /** The step of the protocol that an event amounts to. */
  function ActionOf(s: System, e: Event): Action {
    match e
    case Take(a, _) => a
    case Cut(n) => Crash(if n >= HEADER_BYTES then Whole(s.medium.records, n - HEADER_BYTES) else 0)
  }

  function StepMedium(cfg: Config, h: Hashing, s: System, e: Event): Medium {
    match e
    case Cut(n) => if n >= HEADER_BYTES then Survives(s.medium, n) else s.medium
    case Take(a, tick) =>
      var next := StepWorld(cfg, s.world, a);
      if Compacts(s.world, a) then Rewritten(h, s.world.process.value.live)
      else if |next.log| > |s.world.log| then
        Appended(h, s.medium, next.log[|next.log| - 1], tick, next.synced == |next.log|)
      else s.medium
  }

  function StepSystem(cfg: Config, h: Hashing, s: System, e: Event): System {
    var a := ActionOf(s, e);
    System(StepMedium(cfg, h, s, e), StepWorld(cfg, s.world, a), StepHistory(cfg, s.world, s.history, a))
  }

  /** The journal accepts what the step writes, and a crash keeps the header and what is synced. */
  predicate LawfulEvent(cfg: Config, lim: Limits, s: System, e: Event) {
    match e
    case Cut(n) => s.medium.synced <= n <= |s.medium.file| && HEADER_BYTES <= n
    case Take(a, tick) =>
      var next := StepWorld(cfg, s.world, a);
      && !a.Crash? && Lawful(cfg, s.world, a) && tick < U64
      && (Compacts(s.world, a) ==> CompactionCheck(lim, s.world.process.value.live) == Success)
      && (!Compacts(s.world, a) && |next.log| > |s.world.log| ==>
            |s.medium.records| < lim.maxRecords && |next.log[|next.log| - 1].payload| <= lim.maxRecordBytes)
  }

  function EndSystem(cfg: Config, h: Hashing, s: System, run: seq<Event>): System
    decreases |run|
  {
    if run == [] then s else EndSystem(cfg, h, StepSystem(cfg, h, s, run[0]), run[1..])
  }

  predicate LawfulEvents(cfg: Config, h: Hashing, lim: Limits, s: System, run: seq<Event>)
    decreases |run|
  {
    run == []
    || (LawfulEvent(cfg, lim, s, run[0]) && LawfulEvents(cfg, h, lim, StepSystem(cfg, h, s, run[0]), run[1..]))
  }

  /** A journal just created: a header, none of it synced. */
  function Created(h: Hashing): System { System(Medium(Header(h), 0, []), BLANK, NOTHING) }

  // ----- every step keeps file and log in step

  ghost predicate Good(cfg: Config, h: Hashing, lim: Limits, s: System) {
    Agreed(cfg, lim) && Inv(cfg, s.world, s.history) && Backs(h, lim, s.medium, s.world)
  }

  lemma IntactSize(h: Hashing, lim: Limits, file: seq<Byte>, records: seq<Record>)
    requires Intact(h, lim, file, records)
    ensures |file| == HEADER_BYTES + Span(records)
  {
    ScanSpan(ParserOf(h, lim), lim.maxRetained, file[HEADER_BYTES..], START);
  }

  lemma {:induction false} SpanGrows(records: seq<Record>, j: nat, k: nat)
    requires j <= k <= |records|
    ensures Span(records[..j]) <= Span(records[..k])
    decreases j
  {
    if j > 0 {
      SpanGrows(records[1..], j - 1, k - 1);
      assert records[..j][1..] == records[1..][..j - 1] && records[..k][1..] == records[1..][..k - 1];
    }
  }

  lemma {:induction false} TipRetains(records: seq<Record>)
    ensures TipOf(records, START).retained == Retained(Entries(records))
  {
    if records != [] {
      var n := |records| - 1;
      TipRetains(records[..n]);
      TipSnoc(records[..n], records[n], START);
      assert records == records[..n] + [records[n]];
      assert Entries(records)[..n] == Entries(records[..n]);
    }
  }

  lemma AppendBacks(h: Hashing, lim: Limits, m: Medium, w: World, e: Entry, tick: nat, next: World)
    requires Sized(lim) && lim.maxRecordBytes < U32 && Backs(h, lim, m, w) && EntryWritable(e) && tick < U64
    requires |m.records| < lim.maxRecords && |e.payload| <= lim.maxRecordBytes
    requires Retained(w.log) + |e.payload| <= lim.maxRetained
    requires next.log == w.log + [e] && (next.synced == |next.log| || next.synced == w.synced)
    ensures Backs(h, lim, Appended(h, m, e, tick, next.synced == |next.log|), next)
  {
    var tip := TipOf(m.records, START);
    var r := NextRecord(h, tip, e.kind, tick, e.epoch, e.payload);
    TipRetains(m.records);
    AppendIntact(h, lim, m.file, m.records, r);
    EntriesSnoc(m.records, r);
    IntactSize(h, lim, m.file + Encode(h, r), m.records + [r]);
    AppendSynced(h, m, w, r, next);
  }

  lemma AppendSynced(h: Hashing, m: Medium, w: World, r: Record, next: World)
    requires w.synced <= |m.records| && m.synced == SyncedBytes(m.records, w.synced) <= |m.file|
    requires |m.file + Encode(h, r)| == HEADER_BYTES + Span(m.records + [r])
    requires |next.log| == |m.records| + 1 && (next.synced == |next.log| || next.synced == w.synced)
    ensures var synced := if next.synced == |next.log| then |m.file + Encode(h, r)| else m.synced;
            synced == SyncedBytes(m.records + [r], next.synced) <= |m.file + Encode(h, r)|
  {
    if next.synced == |next.log| {
      assert (m.records + [r])[..next.synced] == m.records + [r];
    } else {
      assert (m.records + [r])[..next.synced] == m.records[..next.synced];
    }
  }

  /** A crash on the file is a crash on the log, with the record that the cut runs through left out. */
  lemma CutBacks(cfg: Config, h: Hashing, lim: Limits, s: System, n: nat)
    requires Backs(h, lim, s.medium, s.world) && s.medium.synced <= n <= |s.medium.file| && HEADER_BYTES <= n
    ensures Backs(h, lim, Survives(s.medium, n),
                  StepWorld(cfg, s.world, Crash(Whole(s.medium.records, n - HEADER_BYTES))))
  {
    var m, w := s.medium, s.world;
    var k := Whole(m.records, n - HEADER_BYTES);
    CutIntact(h, lim, m, n);
    CutSynced(m, w.synced, n);
    assert StepWorld(cfg, w, Crash(k)) == World(w.log[..k], w.synced, None);
    KeptBacks(h, lim, m, w, n);
  }

  lemma KeptBacks(h: Hashing, lim: Limits, m: Medium, w: World, n: nat)
    requires HEADER_BYTES <= n && w.synced <= |m.records| && m.synced == SyncedBytes(m.records, w.synced)
    requires Entries(m.records) == w.log
    requires var kept := m.records[..Whole(m.records, n - HEADER_BYTES)];
             var size := HEADER_BYTES + Span(kept);
             && size <= |m.file| && Intact(h, lim, m.file[..size], kept) && Counted(kept)
             && w.synced <= |kept| && (w.synced > 0 ==> kept[..w.synced] == m.records[..w.synced])
             && (w.synced > 0 ==> Span(m.records[..w.synced]) <= Span(kept))
    ensures Backs(h, lim, Survives(m, n), World(w.log[..Whole(m.records, n - HEADER_BYTES)], w.synced, None))
  {
    var k := Whole(m.records, n - HEADER_BYTES);
    var kept := m.records[..k];
    assert Survives(m, n) == Medium(m.file[..HEADER_BYTES + Span(kept)], m.synced, kept);
    assert Entries(kept) == w.log[..k];
  }

  lemma CutIntact(h: Hashing, lim: Limits, m: Medium, n: nat)
    requires Intact(h, lim, m.file, m.records) && HEADER_BYTES <= n <= |m.file|
    ensures var kept := m.records[..Whole(m.records, n - HEADER_BYTES)];
            && HEADER_BYTES + Span(kept) <= n && Intact(h, lim, m.file[..HEADER_BYTES + Span(kept)], kept)
            && Counted(kept)
  {
    var kept := m.records[..Whole(m.records, n - HEADER_BYTES)];
    CutKeeps(h, lim, m.file, m.records, n);
    IntactCounted(h, lim, m.file[..HEADER_BYTES + Span(kept)], kept);
  }

  lemma IntactCounted(h: Hashing, lim: Limits, file: seq<Byte>, records: seq<Record>)
    requires Intact(h, lim, file, records)
    ensures Counted(records)
  {
    RecoveredSequence(h, lim, lim.maxRetained, file[HEADER_BYTES..], START);
    TipGrows(records, START);
  }

  lemma CutSynced(m: Medium, synced: nat, n: nat)
    requires HEADER_BYTES <= n && m.synced <= n && synced <= |m.records|
    requires m.synced == SyncedBytes(m.records, synced)
    ensures var k := Whole(m.records, n - HEADER_BYTES);
            && synced <= k
            && (synced > 0 ==> m.records[..k][..synced] == m.records[..synced]
                               && Span(m.records[..synced]) <= Span(m.records[..k]))
  {
    var k := Whole(m.records, n - HEADER_BYTES);
    if synced > 0 {
      WholeKeeps(m.records, synced, n - HEADER_BYTES);
      SpanGrows(m.records, synced, k);
      assert m.records[..k][..synced] == m.records[..synced];
    }
  }

  lemma CompactBacks(cfg: Config, h: Hashing, lim: Limits, s: System)
    requires Good(cfg, h, lim, s) && s.world.process.Some?
    requires CompactionCheck(lim, s.world.process.value.live) == Success
    requires Retained(Compacted(s.world.process.value.live)) <= cfg.maxRetained
    ensures var live := s.world.process.value.live;
            Backs(h, lim, Rewritten(h, live), World(Compacted(live), |Compacted(live)|, s.world.process))
  {
    var live := s.world.process.value.live;
    var records := Renumbered(h, Drafts(Compacted(live)));
    RewrittenIntact(h, lim, live);
    CompactedTracks(cfg, h, live);
    assert RebuildsFrom(cfg, h, Compacted(live), live);
    SyncedBacks(h, lim, FileOf(h, records), records, World(Compacted(live), |Compacted(live)|, s.world.process));
  }

  lemma SyncedBacks(h: Hashing, lim: Limits, file: seq<Byte>, records: seq<Record>, w: World)
    requires Intact(h, lim, file, records) && Entries(records) == w.log && w.synced == |w.log| > 0
    ensures Backs(h, lim, Medium(file, |file|, records), w)
  {
    IntactCounted(h, lim, file, records);
    IntactSize(h, lim, file, records);
    assert records[..|records|] == records;
  }

  lemma RewrittenIntact(h: Hashing, lim: Limits, live: Durable)
    requires Sized(lim) && lim.maxRecordBytes < U32 && live.epoch < U64 && CompactionCheck(lim, live) == Success
    requires Retained(Compacted(live)) <= lim.maxRetained
    ensures var records := Renumbered(h, Drafts(Compacted(live))); Intact(h, lim, FileOf(h, records), records)
  {
    var contents := Drafts(Compacted(live));
    CompactedWritable(live);
    DraftSizes(lim, Compacted(live));
    forall i | 0 <= i < |contents| ensures Writable(contents[i]) && Narrow(contents[i].payload) {
      assert contents[i] in contents;
    }
    RewrittenLaidOut(h, lim, contents);
    LaidOutIntact(h, lim, Payloads(contents), FileOf(h, Renumbered(h, contents)), Renumbered(h, contents));
  }

  lemma LaidOutIntact(h: Hashing, lim: Limits, cap: nat, file: seq<Byte>, records: seq<Record>)
    requires LaidOut(h, lim, cap, file, records) && TipOf(records, START).retained <= lim.maxRetained
    ensures Intact(h, lim, file, records)
  {
    UnderCap(h, lim, cap, file, records);
  }

  // ----- what a step of the protocol writes

  /** One writable record at the end of the log, within the retention limit, synced with everything before it or not. */
  predicate Extends(cfg: Config, w: World, next: World) {
    && |next.log| == |w.log| + 1 && next.log[..|w.log|] == w.log && EntryWritable(next.log[|w.log|])
    && Retained(w.log) + |next.log[|w.log|].payload| <= cfg.maxRetained
    && (next.synced == |next.log| || next.synced == w.synced)
  }

  lemma WriteExtends(cfg: Config, w: World, op: Op, accepted: bool)
    requires w.process.Some? && w.process.value.live.epoch <= MAX_U64
    ensures var r := Write(cfg, w, op, accepted); r.Some? ==> Extends(cfg, w, r.value.0)
  {
    var done := Perform(cfg, w.process.value.live, op);
    if done.Written? {
      WrittenEpoch(cfg, w.process.value.live, op);
      assert (w.log + [done.entry])[..|w.log|] == w.log;
    }
  }

  lemma StepExtends(cfg: Config, w: World, a: Action)
    requires !a.Crash? && !Compacts(w, a) && (w.process.Some? ==> w.process.value.live.epoch <= MAX_U64)
    ensures var next := StepWorld(cfg, w, a); (next.log == w.log && next.synced == w.synced) || Extends(cfg, w, next)
  {
    if w.process.Some? {
      var p := w.process.value;
      match a {
        case Establish(ok) => WriteExtends(cfg, w, EstablishEpoch, ok);
        case Boot(i, ok) => WriteExtends(cfg, w, RecordBoot(i), ok);
        case Maintain(op, ok) => WriteExtends(cfg, w, op, ok);
        case Begin(id, ok) => WriteExtends(cfg, w, BeginAttempt(id), ok);
        case Record(d, ok) => WriteExtends(cfg, w, RecordLineage(d), ok);
        case Commit(ok) => if p.stage.Publishing? { WriteExtends(cfg, w, CommitAttempt(p.stage.attempt), ok); }
        case Abort(ok) => if p.stage.Publishing? { WriteExtends(cfg, w, AbortAttempt(p.stage.attempt), ok); }
        case _ =>
      }
    }
  }

  // ----- whole runs

  /** A longer run goes on from where the shorter one ends. */
  lemma {:induction false} EndSystemSnoc(cfg: Config, h: Hashing, s: System, run: seq<Event>, e: Event)
    ensures EndSystem(cfg, h, s, run + [e]) == StepSystem(cfg, h, EndSystem(cfg, h, s, run), e)
    ensures EndSystem(cfg, h, s, []) == s
    decreases |run|
  {
    if run != [] {
      assert (run + [e])[1..] == run[1..] + [e];
      EndSystemSnoc(cfg, h, StepSystem(cfg, h, s, run[0]), run[1..], e);
    } else {
      assert [e][1..] == [] && [] + [e] == [e];
      assert EndSystem(cfg, h, StepSystem(cfg, h, s, e), []) == StepSystem(cfg, h, s, e);
    }
  }

  lemma TakeGood(cfg: Config, h: Hashing, lim: Limits, s: System, a: Action, tick: nat)
    requires Good(cfg, h, lim, s) && LawfulEvent(cfg, lim, s, Take(a, tick))
    ensures Backs(h, lim, StepMedium(cfg, h, s, Take(a, tick)), StepWorld(cfg, s.world, a))
  {
    if Compacts(s.world, a) {
      CompactGood(cfg, h, lim, s, a, tick);
    } else {
      StepExtends(cfg, s.world, a);
      if StepWorld(cfg, s.world, a).log != s.world.log {
        ExtendGood(cfg, h, lim, s, a, tick);
      } else {
        StillGood(cfg, h, lim, s, a, tick);
      }
    }
  }

  lemma CompactGood(cfg: Config, h: Hashing, lim: Limits, s: System, a: Action, tick: nat)
    requires Good(cfg, h, lim, s) && LawfulEvent(cfg, lim, s, Take(a, tick)) && Compacts(s.world, a)
    ensures Backs(h, lim, StepMedium(cfg, h, s, Take(a, tick)), StepWorld(cfg, s.world, a))
  {
    CompactBacks(cfg, h, lim, s);
  }

  lemma StillGood(cfg: Config, h: Hashing, lim: Limits, s: System, a: Action, tick: nat)
    requires Good(cfg, h, lim, s) && !Compacts(s.world, a)
    requires var next := StepWorld(cfg, s.world, a); next.log == s.world.log && next.synced == s.world.synced
    ensures Backs(h, lim, StepMedium(cfg, h, s, Take(a, tick)), StepWorld(cfg, s.world, a))
  {
  }

  lemma ExtendGood(cfg: Config, h: Hashing, lim: Limits, s: System, a: Action, tick: nat)
    requires Good(cfg, h, lim, s) && LawfulEvent(cfg, lim, s, Take(a, tick)) && !Compacts(s.world, a)
    requires Extends(cfg, s.world, StepWorld(cfg, s.world, a))
    ensures Backs(h, lim, StepMedium(cfg, h, s, Take(a, tick)), StepWorld(cfg, s.world, a))
  {
    var w, next := s.world, StepWorld(cfg, s.world, a);
    assert next.log == w.log + [next.log[|w.log|]];
    AppendBacks(h, lim, s.medium, w, next.log[|w.log|], tick, next);
  }

  lemma StepGood(cfg: Config, h: Hashing, lim: Limits, s: System, e: Event)
    requires Good(cfg, h, lim, s) && LawfulEvent(cfg, lim, s, e)
    ensures Good(cfg, h, lim, StepSystem(cfg, h, s, e))
  {
    StepKeeps(cfg, s.world, s.history, ActionOf(s, e));
    StepBacks(cfg, h, lim, s, e);
  }

  lemma StepBacks(cfg: Config, h: Hashing, lim: Limits, s: System, e: Event)
    requires Good(cfg, h, lim, s) && LawfulEvent(cfg, lim, s, e)
    ensures Backs(h, lim, StepMedium(cfg, h, s, e), StepWorld(cfg, s.world, ActionOf(s, e)))
  {
    if e.Take? { TakeGood(cfg, h, lim, s, e.action, e.tick); } else { CutGood(cfg, h, lim, s, e); }
  }

  lemma CutGood(cfg: Config, h: Hashing, lim: Limits, s: System, e: Event)
    requires Backs(h, lim, s.medium, s.world) && LawfulEvent(cfg, lim, s, e) && e.Cut?
    ensures Backs(h, lim, StepMedium(cfg, h, s, e), StepWorld(cfg, s.world, ActionOf(s, e)))
  {
    CutStep(cfg, h, s, e.n);
    CutBacks(cfg, h, lim, s, e.n);
  }

  lemma CutStep(cfg: Config, h: Hashing, s: System, n: nat)
    requires HEADER_BYTES <= n
    ensures StepMedium(cfg, h, s, Cut(n)) == Survives(s.medium, n)
    ensures ActionOf(s, Cut(n)) == Crash(Whole(s.medium.records, n - HEADER_BYTES))
  {
  }

  lemma {:induction false} RunGood(cfg: Config, h: Hashing, lim: Limits, s: System, run: seq<Event>)
    requires Good(cfg, h, lim, s) && LawfulEvents(cfg, h, lim, s, run)
    ensures Good(cfg, h, lim, EndSystem(cfg, h, s, run))
    decreases |run|
  {
    if run != [] {
      StepGood(cfg, h, lim, s, run[0]);
      RunGood(cfg, h, lim, StepSystem(cfg, h, s, run[0]), run[1..]);
    }
  }

  lemma CreatedGood(cfg: Config, h: Hashing, lim: Limits)
    requires Agreed(cfg, lim)
    ensures Good(cfg, h, lim, Created(h))
  {
    StartLaidOut(h, lim, lim.maxRetained);
    BlankInv(cfg);
  }

  /** Crash safety on bytes. After every run of opens, publishes, maintenance, compactions and crashes that start from a
      journal just created and keep its header, a further crash that leaves n bytes leaves a fabric that opens exactly
      when the header is among them; it then opens to a state that keeps every promise. Once an epoch has come into
      force the header is synced, so from then on the fabric always opens again. */
  lemma CrashSafetyOnBytes(cfg: Config, h: Hashing, lim: Limits, run: seq<Event>, n: nat)
    requires Agreed(cfg, lim) && LawfulEvents(cfg, h, lim, Created(h), run)
    requires var m := EndSystem(cfg, h, Created(h), run).medium; m.synced <= n <= |m.file|
    ensures var s := EndSystem(cfg, h, Created(h), run);
            var found := Recover(h, lim, s.medium.file[..n]);
            && Increasing(s.history.epochs)
            && (found.Ok? <==> n >= HEADER_BYTES) && (n < HEADER_BYTES ==> found == Err(TruncatedInput))
            && (found.Ok? ==> Openable(cfg, Entries(found.value.records))
                              && Promised(Replay(cfg, FRESH, Entries(found.value.records)).value, s.history))
            && (s.history.epochs != [] ==> n >= HEADER_BYTES)
  {
    CreatedGood(cfg, h, lim);
    RunGood(cfg, h, lim, Created(h), run);
    CrashedSystem(cfg, h, lim, EndSystem(cfg, h, Created(h), run), n);
  }

  lemma CrashedSystem(cfg: Config, h: Hashing, lim: Limits, s: System, n: nat)
    requires Good(cfg, h, lim, s) && s.medium.synced <= n <= |s.medium.file|
    ensures var found := Recover(h, lim, s.medium.file[..n]);
            && (found.Ok? <==> n >= HEADER_BYTES) && (n < HEADER_BYTES ==> found == Err(TruncatedInput))
            && (found.Ok? ==> Openable(cfg, Entries(found.value.records))
                              && Promised(Replay(cfg, FRESH, Entries(found.value.records)).value, s.history))
            && (s.history.epochs != [] ==> n >= HEADER_BYTES)
  {
    var m, w := s.medium, s.world;
    if n >= HEADER_BYTES {
      var k := Whole(m.records, n - HEADER_BYTES);
      CrashRecovers(h, lim, m.file, m.records, n);
      CutSynced(m, w.synced, n);
      PrefixPromised(cfg, w, s.history, k);
      assert Entries(m.records[..k]) == w.log[..k];
    }
  }
}
