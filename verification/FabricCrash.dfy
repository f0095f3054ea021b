/** The fabric's durable protocol across restarts: opens, publishes, compactions and crashes that keep the
    synced part of the log. */
module FabricCrash {
  import opened Wrappers
  import opened StoreCodec
  import opened JournalFormat
  import opened StoreState
  import opened StoreRefinement
  import opened Compaction

  /** How far a running fabric has come: opening, idle, or inside a publish with an attempt on disk. */
  datatype Stage = Recovered | Established | Idle | Publishing(attempt: nat, lineages: seq<Digest>)

  datatype Process = Process(live: Durable, stage: Stage, counter: nat)

  /** The journal on disk, how many of its records are synced, and the process, if one is running. */
  datatype World = World(log: seq<Entry>, synced: nat, process: Option<Process>)

  /** What has happened so far: the epochs that came into force; the lineages of successful publishes, until a newer
      lineage evicts them; the attempts of successful publishes, until the same identity is begun again; the attempts
      some open found unfinished. */
  datatype History = History(epochs: seq<nat>, committed: set<Digest>, closed: set<nat>, stranded: set<nat>)

  /** An accepted flag of false stands for a journal that refused the record. */
  datatype Action =
    | Reopen
    | Establish(accepted: bool)
    | Boot(incarnation: Incarnation, accepted: bool)
    | Maintain(op: Op, accepted: bool)
    | Begin(id: nat, accepted: bool)
    | Record(lineage: Digest, accepted: bool)
    | Commit(accepted: bool)
    | Abort(accepted: bool)
    | CompactLog(accepted: bool)
    | Crash(kept: nat)

  const BLANK := World([], 0, None)
  const NOTHING := History([], {}, {}, {})

  /** Operations that a fabric issues outside of opening and publishing. */
  predicate Maintenance(op: Op) {
    op.PersistPolicy? || op.BindTopology? || op.PutFence? || op.RemoveFence?
    || op.RequestRevalidation? || op.ClearRevalidation? || op.RecordFootprint?
  }

  // ----- steps

  /** One more operation of the running process, written and synced or not at all. */
  function Write(cfg: Config, w: World, op: Op, accepted: bool): Option<(World, Durable)>
    requires w.process.Some?
  {
    var done := Perform(cfg, w.process.value.live, op);
    if accepted && done.Written? && Retained(w.log) + |done.entry.payload| <= cfg.maxRetained then
      var log := w.log + [done.entry];
      Some((World(log, if Synced(op) then |log| else w.synced, w.process), done.after))
    else None
  }

  function Enter(w: World, p: Process): World { w.(process := Some(p)) }

  function StepWorld(cfg: Config, w: World, a: Action): World {
    if a.Crash? then
      World(if w.synced <= a.kept <= |w.log| then w.log[..a.kept] else w.log, w.synced, None)
    else if w.process.None? then
      if a.Reopen? && Openable(cfg, w.log) then Enter(w, Process(Replay(cfg, FRESH, w.log).value, Recovered, 1)) else w
    else
      var p := w.process.value;
      match a
      case Establish(ok) => if p.stage != Recovered then w else Opening(cfg, w, EstablishEpoch, ok, Established)
      case Boot(i, ok) => if p.stage != Established then w else Opening(cfg, w, RecordBoot(i), ok, Idle)
      case Maintain(op, ok) =>
        if p.stage != Idle || !Maintenance(op) then w
        else Working(cfg, w, op, ok, p.counter, Idle)
      case Begin(id, ok) =>
        if p.stage != Idle || id < p.counter then w
        else Working(cfg, w, BeginAttempt(id), ok, id + 1, Publishing(id, []))
      case Record(d, ok) =>
        if !p.stage.Publishing? then w
        else
          var r := Write(cfg, w, RecordLineage(d), ok);
          if r.None? then w
          else Enter(r.value.0, Process(r.value.1, p.stage.(lineages := p.stage.lineages + [d]), p.counter))
      case Commit(ok) =>
        if !p.stage.Publishing? then w
        else Working(cfg, w, CommitAttempt(p.stage.attempt), ok, p.counter, Idle)
      case Abort(ok) =>
        if !p.stage.Publishing? then w
        else Working(cfg, w, AbortAttempt(p.stage.attempt), ok, p.counter, Idle)
      case CompactLog(ok) =>
        // not refused by the limits that are checked first: the file is replaced whatever the retention limit says
        if p.stage != Idle || !ok then w else World(Compacted(p.live), |Compacted(p.live)|, w.process)
      case _ => w
  }

  /** A step of opening; when it fails the fabric does not come up. */
  function Opening(cfg: Config, w: World, op: Op, accepted: bool, next: Stage): World
    requires w.process.Some?
  {
    var r := Write(cfg, w, op, accepted);
    if r.None? then w.(process := None) else Enter(r.value.0, Process(r.value.1, next, w.process.value.counter))
  }

  /** A step of a fabric that is up; when it fails the fabric is idle again. */
  function Working(cfg: Config, w: World, op: Op, accepted: bool, counter: nat, next: Stage): World
    requires w.process.Some?
  {
    var r := Write(cfg, w, op, accepted);
    if r.None? then Enter(w, w.process.value.(stage := Idle, counter := counter))
    else Enter(r.value.0, Process(r.value.1, next, counter))
  }

  /** The lineages that the live list still holds. */
  function Remembered(committed: set<Digest>, live: Durable): set<Digest> {
    set d | d in committed && d in live.lineages
  }

  function Recorded(live: Durable, lineages: seq<Digest>): set<Digest> {
    set d | d in lineages && d in live.lineages
  }

  function SetOf(xs: seq<nat>): set<nat> { set i | 0 <= i < |xs| :: xs[i] }

  function StepHistory(cfg: Config, w: World, h: History, a: Action): History {
    var next := StepWorld(cfg, w, a);
    if w.process.None? then
      if next.process.Some? then h.(stranded := h.stranded + SetOf(next.process.value.live.attempts)) else h
    else
      var p := w.process.value;
      if a.Establish? && next.log != w.log then h.(epochs := h.epochs + [p.live.epoch + 1])
      else if a.Record? && next.log != w.log && next.process.Some? then
        h.(committed := Remembered(h.committed, next.process.value.live))
      else if a.Begin? && next.log != w.log then h.(closed := h.closed - {a.id})
      else if a.Commit? && next.log != w.log then
        h.(committed := h.committed + Recorded(p.live, p.stage.lineages), closed := h.closed + {p.stage.attempt})
      else h
  }

  // ----- invariant

  predicate Increasing(xs: seq<nat>) { forall i, j :: 0 <= i < j < |xs| ==> xs[i] < xs[j] }

  /** Everything promised so far holds of a recovered state. */
  predicate Keeps(cfg: Config, st: Durable, h: History) {
    && (forall i :: 0 <= i < |h.epochs| ==> h.epochs[i] <= st.epoch)
    && (forall d :: d in h.committed ==> d in st.lineages)
    && (forall id :: id in h.closed ==> id !in st.attempts)
    && (forall id :: id in h.stranded ==> id in st.attempts)
  }

  /** The first k records of the log open to a state that keeps every promise and differs from the state at the
      end of the log in its lineages only. */
  predicate PrefixOk(cfg: Config, log: seq<Entry>, k: nat, h: History) {
    && k <= |log| && Replay(cfg, FRESH, log).Ok? && Replay(cfg, FRESH, log[..k]).Ok?
    && var st, end := Replay(cfg, FRESH, log[..k]).value, Replay(cfg, FRESH, log).value;
       WellFormed(cfg, st) && Keeps(cfg, st, h) && st.attempts == end.attempts && st.epoch == end.epoch
  }

  predicate DiskOk(cfg: Config, log: seq<Entry>, synced: nat, h: History) {
    && synced <= |log| && Retained(log) <= cfg.maxRetained && (h.epochs != [] ==> synced > 0)
    && forall k :: synced <= k <= |log| ==> PrefixOk(cfg, log, k, h)
  }

  predicate ProcessOk(cfg: Config, log: seq<Entry>, p: Process, h: History) {
    && Tracks(cfg, log, p.live) && WellFormed(cfg, p.live) && Keeps(cfg, p.live, h)
    && (p.stage != Recovered ==> |h.epochs| > 0 && h.epochs[|h.epochs| - 1] == p.live.epoch)
    && (p.stage.Publishing? ==> p.stage.attempt !in h.stranded)
  }

  predicate Inv(cfg: Config, w: World, h: History) {
    && cfg.maxLineages >= 1 && cfg.maxRecordBytes < U32 && Increasing(h.epochs)
    && DiskOk(cfg, w.log, w.synced, h)
    && (w.process.Some? ==> ProcessOk(cfg, w.log, w.process.value, h))
  }

  /** The words an action carries fit, and what it maintains can be replayed. */
  predicate Lawful(cfg: Config, w: World, a: Action) {
    match a
    case Boot(i, _) => IncarnationFits(i)
    case Maintain(op, _) => Representable(op) && (w.process.Some? ==> Sound(w.process.value.live, op))
    case Begin(id, _) => id <= MAX_U64
    case Record(d, _) => DigestFits(d)
    case CompactLog(ok) => ok && w.process.Some? ==> Retained(Compacted(w.process.value.live)) <= cfg.maxRetained
    case _ => true
  }

  // ----- preservation

  lemma SyncedDisk(cfg: Config, log: seq<Entry>, live: Durable, h: History)
    requires Tracks(cfg, log, live) && WellFormed(cfg, live) && Keeps(cfg, live, h)
    requires log != [] && Retained(log) <= cfg.maxRetained
    ensures DiskOk(cfg, log, |log|, h)
  {
    forall k | |log| <= k <= |log| ensures PrefixOk(cfg, log, k, h) { WholeLogOk(cfg, log, live, h); }
  }

  lemma WholeLogOk(cfg: Config, log: seq<Entry>, live: Durable, h: History)
    requires Tracks(cfg, log, live) && WellFormed(cfg, live) && Keeps(cfg, live, h)
    ensures PrefixOk(cfg, log, |log|, h)
  {
    assert log[..|log|] == log;
  }

  lemma PrefixWeakens(cfg: Config, log: seq<Entry>, k: nat, h: History, g: History)
    requires PrefixOk(cfg, log, k, h) && g.epochs == h.epochs && g.stranded == h.stranded && g.closed == h.closed
    requires g.committed <= h.committed
    ensures PrefixOk(cfg, log, k, g)
  {
  }

  /** An operation that leaves epoch, lineages and attempts alone. */
  lemma QuietOps(cfg: Config, st: Durable, op: Op)
    requires Perform(cfg, st, op).Written? && (Maintenance(op) || op.RecordBoot?)
    ensures var t := Perform(cfg, st, op).after;
            t.epoch == st.epoch && t.lineages == st.lineages && t.attempts == st.attempts
  {
  }

  /** A synced operation preserves the invariant when its effect keeps the promises. */
  lemma SyncedStep(cfg: Config, w: World, h: History, op: Op, next: Process, g: History)
    requires Inv(cfg, w, h) && w.process.Some? && Representable(op) && Sound(w.process.value.live, op)
    requires Perform(cfg, w.process.value.live, op).Written?
             && next.live == Perform(cfg, w.process.value.live, op).after
    requires Retained(w.log) + |Perform(cfg, w.process.value.live, op).entry.payload| <= cfg.maxRetained
    requires Increasing(g.epochs) && Keeps(cfg, next.live, g)
    requires next.stage != Recovered && |g.epochs| > 0 && g.epochs[|g.epochs| - 1] == next.live.epoch
    requires next.stage.Publishing? ==> next.stage.attempt !in g.stranded
    ensures var log := w.log + [Perform(cfg, w.process.value.live, op).entry];
            Inv(cfg, World(log, |log|, Some(next)), g)
  {
    var live := w.process.value.live;
    var log := w.log + [Perform(cfg, live, op).entry];
    PerformTracks(cfg, w.log, live, op);
    RetainedSnoc(w.log, Perform(cfg, live, op).entry);
    SyncedDisk(cfg, log, next.live, g);
  }

  lemma NextEpochKept(cfg: Config, live: Durable, h: History)
    requires Keeps(cfg, live, h) && Increasing(h.epochs)
    ensures var g := h.(epochs := h.epochs + [live.epoch + 1]);
            Increasing(g.epochs) && Keeps(cfg, live.(previousEpoch := live.epoch, epoch := live.epoch + 1), g)
  {
  }

  lemma EstablishKeeps(cfg: Config, w: World, h: History)
    requires Inv(cfg, w, h) && w.process.Some? && w.process.value.stage == Recovered
    ensures Inv(cfg, StepWorld(cfg, w, Establish(true)), StepHistory(cfg, w, h, Establish(true)))
  {
    if Write(cfg, w, EstablishEpoch, true).Some? {
      LogGrew(w.log, Perform(cfg, w.process.value.live, EstablishEpoch).entry);
      EpochWritten(cfg, w, h);
    }
  }

  lemma EpochWritten(cfg: Config, w: World, h: History)
    requires Inv(cfg, w, h) && w.process.Some? && Write(cfg, w, EstablishEpoch, true).Some?
    ensures Inv(cfg, Opening(cfg, w, EstablishEpoch, true, Established),
                h.(epochs := h.epochs + [w.process.value.live.epoch + 1]))
  {
    var p := w.process.value;
    NextEpochKept(cfg, p.live, h);
    SyncedStep(cfg, w, h, EstablishEpoch,
               Process(Perform(cfg, p.live, EstablishEpoch).after, Established, p.counter),
               h.(epochs := h.epochs + [p.live.epoch + 1]));
  }

  lemma WorkKeeps(cfg: Config, w: World, h: History, op: Op, counter: nat, stage: Stage)
    requires Inv(cfg, w, h) && w.process.Some? && w.process.value.stage != Recovered
    requires Representable(op) && Sound(w.process.value.live, op)
             && (Maintenance(op) || op.RecordBoot? || op.BeginAttempt?)
    requires stage == Idle || (op.BeginAttempt? && stage == Publishing(op.attempt, []))
    ensures Write(cfg, w, op, true).Some? ==>
              Inv(cfg, Working(cfg, w, op, true, counter, stage),
                  if op.BeginAttempt? then h.(closed := h.closed - {op.attempt}) else h)
  {
    var p := w.process.value;
    var done := Perform(cfg, p.live, op);
    if Write(cfg, w, op, true).Some? {
      if !op.BeginAttempt? { QuietOps(cfg, p.live, op); }
      var g := if op.BeginAttempt? then h.(closed := h.closed - {op.attempt}) else h;
      SyncedStep(cfg, w, h, op, Process(done.after, stage, counter), g);
    }
  }

  lemma CloseKeeps(cfg: Config, w: World, h: History, op: Op, g: History)
    requires Inv(cfg, w, h) && w.process.Some? && w.process.value.stage.Publishing?
    requires op == CommitAttempt(w.process.value.stage.attempt) || op == AbortAttempt(w.process.value.stage.attempt)
    requires Write(cfg, w, op, true).Some? && Representable(op)
    requires var p := w.process.value;
             || g == h
             || g == h.(committed := h.committed + Recorded(p.live, p.stage.lineages),
                        closed := h.closed + {p.stage.attempt})
    ensures Inv(cfg, Working(cfg, w, op, true, w.process.value.counter, Idle), g)
  {
    var p := w.process.value;
    var done := Perform(cfg, p.live, op);
    EraseKeeps(p.live.attempts, p.stage.attempt);
    SyncedStep(cfg, w, h, op, Process(done.after, Idle, p.counter), g);
  }

  /** Recording a lineage is not synced: every shorter prefix that may survive must keep the promises too. */
  lemma RecordKeeps(cfg: Config, w: World, h: History, d: Digest)
    requires Inv(cfg, w, h) && w.process.Some? && w.process.value.stage.Publishing? && DigestFits(d)
    ensures Inv(cfg, StepWorld(cfg, w, Action.Record(d, true)), StepHistory(cfg, w, h, Action.Record(d, true)))
  {
    var p := w.process.value;
    var op := RecordLineage(d);
    var done := Perform(cfg, p.live, op);
    if Write(cfg, w, op, true).Some? {
      var log := w.log + [done.entry];
      var g := h.(committed := Remembered(h.committed, done.after));
      assert log[|w.log|] == done.entry;
      assert StepHistory(cfg, w, h, Action.Record(d, true)) == g;
      RecordDisk(cfg, w, h, d, g);
    }
  }

  lemma RecordDisk(cfg: Config, w: World, h: History, d: Digest, g: History)
    requires Inv(cfg, w, h) && w.process.Some? && DigestFits(d) && Write(cfg, w, RecordLineage(d), true).Some?
    requires g == h.(committed := Remembered(h.committed, Perform(cfg, w.process.value.live, RecordLineage(d)).after))
    ensures var done := Perform(cfg, w.process.value.live, RecordLineage(d));
            && DiskOk(cfg, w.log + [done.entry], w.synced, g) && Tracks(cfg, w.log + [done.entry], done.after)
            && WellFormed(cfg, done.after) && Keeps(cfg, done.after, g)
  {
    var live := w.process.value.live;
    var done := Perform(cfg, live, RecordLineage(d));
    var log := w.log + [done.entry];
    PerformTracks(cfg, w.log, live, RecordLineage(d));
    RetainedSnoc(w.log, done.entry);
    forall k | w.synced <= k <= |log| ensures PrefixOk(cfg, log, k, g) {
      PrefixAfterRecord(cfg, w.log, done.entry, live, done.after, k, h, g);
    }
  }

  lemma PrefixAfterRecord(
    cfg: Config, log: seq<Entry>, e: Entry, live: Durable, after: Durable, k: nat, h: History, g: History)
    requires k <= |log| + 1 && (k <= |log| ==> PrefixOk(cfg, log, k, h))
    requires Tracks(cfg, log, live) && Tracks(cfg, log + [e], after) && WellFormed(cfg, after) && Keeps(cfg, after, g)
    requires after.attempts == live.attempts && after.epoch == live.epoch
    requires g.epochs == h.epochs && g.stranded == h.stranded && g.closed == h.closed
    requires g.committed <= h.committed
    ensures PrefixOk(cfg, log + [e], k, g)
  {
    var all := log + [e];
    if k <= |log| {
      PrefixWeakens(cfg, log, k, h, g);
      assert all[..k] == log[..k];
    } else {
      assert all[..k] == all;
    }
  }

  lemma RecoverKeeps(cfg: Config, w: World, h: History)
    requires Inv(cfg, w, h) && w.process.None?
    ensures Inv(cfg, StepWorld(cfg, w, Reopen), StepHistory(cfg, w, h, Reopen))
    ensures StepWorld(cfg, w, Reopen).process.Some?
  {
    var log := w.log;
    assert PrefixOk(cfg, log, |log|, h) && log[..|log|] == log;
    var st := Replay(cfg, FRESH, log).value;
    var g := h.(stranded := h.stranded + SetOf(st.attempts));
    forall k | w.synced <= k <= |log| ensures PrefixOk(cfg, log, k, g) {
      assert PrefixOk(cfg, log, k, h);
    }
  }

  lemma CrashKeeps(cfg: Config, w: World, h: History, kept: nat)
    requires Inv(cfg, w, h)
    ensures Inv(cfg, StepWorld(cfg, w, Crash(kept)), StepHistory(cfg, w, h, Crash(kept)))
  {
    if w.synced <= kept <= |w.log| {
      var cut := w.log[..kept];
      RetainedPrefix(w.log, kept);
      assert PrefixOk(cfg, w.log, kept, h);
      forall k | w.synced <= k <= |cut| ensures PrefixOk(cfg, cut, k, h) {
        assert PrefixOk(cfg, w.log, k, h);
        assert cut[..k] == w.log[..k] && cut == w.log[..kept];
      }
    }
  }

  lemma CompactKeeps(cfg: Config, w: World, h: History)
    requires Inv(cfg, w, h) && w.process.Some? && w.process.value.stage == Idle && Lawful(cfg, w, CompactLog(true))
    ensures Inv(cfg, StepWorld(cfg, w, CompactLog(true)), h)
  {
    var live := w.process.value.live;
    CompactedReplays(cfg, live);
    SyncedDisk(cfg, Compacted(live), live, h);
  }

  lemma PublishKeeps(cfg: Config, w: World, h: History, a: Action)
    requires Inv(cfg, w, h) && Lawful(cfg, w, a) && w.process.Some? && w.process.value.stage.Publishing?
    requires a.Commit? || a.Abort?
    ensures Inv(cfg, StepWorld(cfg, w, a), StepHistory(cfg, w, h, a))
  {
    var p := w.process.value;
    var op := if a.Commit? then CommitAttempt(p.stage.attempt) else AbortAttempt(p.stage.attempt);
    var done := Perform(cfg, p.live, op);
    if Write(cfg, w, op, a.accepted).Some? {
      assert (w.log + [done.entry])[|w.log|] == done.entry;
      CloseKeeps(cfg, w, h, op, StepHistory(cfg, w, h, a));
    }
  }

  lemma MaintainKeeps(cfg: Config, w: World, h: History, op: Op, ok: bool)
    requires Inv(cfg, w, h) && Lawful(cfg, w, Maintain(op, ok)) && w.process.Some?
    ensures Inv(cfg, StepWorld(cfg, w, Maintain(op, ok)), StepHistory(cfg, w, h, Maintain(op, ok)))
  {
    var p := w.process.value;
    if p.stage == Idle && Maintenance(op) { WorkKeeps(cfg, w, h, op, p.counter, Idle); }
  }

  lemma BootKeeps(cfg: Config, w: World, h: History, i: Incarnation, ok: bool)
    requires Inv(cfg, w, h) && IncarnationFits(i) && w.process.Some?
    ensures Inv(cfg, StepWorld(cfg, w, Boot(i, ok)), StepHistory(cfg, w, h, Boot(i, ok)))
  {
    var p := w.process.value;
    if p.stage == Established { WorkKeeps(cfg, w, h, RecordBoot(i), p.counter, Idle); }
  }

  lemma BeginKeeps(cfg: Config, w: World, h: History, id: nat, ok: bool)
    requires Inv(cfg, w, h) && id <= MAX_U64 && w.process.Some?
    ensures Inv(cfg, StepWorld(cfg, w, Begin(id, ok)), StepHistory(cfg, w, h, Begin(id, ok)))
  {
    var p := w.process.value;
    if p.stage == Idle && id >= p.counter && Write(cfg, w, BeginAttempt(id), ok).Some? {
      WorkKeeps(cfg, w, h, BeginAttempt(id), id + 1, Publishing(id, []));
      LogGrew(w.log, Perform(cfg, p.live, BeginAttempt(id)).entry);
    }
  }

  lemma LogGrew(log: seq<Entry>, e: Entry)
    ensures log + [e] != log
  {
    assert |log + [e]| == |log| + 1;
  }

  lemma StepKeeps(cfg: Config, w: World, h: History, a: Action)
    requires Inv(cfg, w, h) && Lawful(cfg, w, a)
    ensures Inv(cfg, StepWorld(cfg, w, a), StepHistory(cfg, w, h, a))
  {
    if a.Crash? {
      CrashKeeps(cfg, w, h, a.kept);
    } else if w.process.None? {
      if a.Reopen? { RecoverKeeps(cfg, w, h); }
    } else if a.Establish? && a.accepted && w.process.value.stage == Recovered {
      EstablishKeeps(cfg, w, h);
    } else if a.Record? && a.accepted && w.process.value.stage.Publishing? {
      RecordKeeps(cfg, w, h, a.lineage);
    } else if (a.Commit? || a.Abort?) && w.process.value.stage.Publishing? {
      PublishKeeps(cfg, w, h, a);
    } else if a.CompactLog? && a.accepted && w.process.value.stage == Idle {
      CompactKeeps(cfg, w, h);
    } else {
      match a {
        case Maintain(op, ok) => MaintainKeeps(cfg, w, h, op, ok);
        case Boot(i, ok) => BootKeeps(cfg, w, h, i, ok);
        case Begin(id, ok) => BeginKeeps(cfg, w, h, id, ok);
        case _ =>
      }
    }
  }

  function EndWorld(cfg: Config, w: World, run: seq<Action>): World
    decreases |run|
  {
    if run == [] then w else EndWorld(cfg, StepWorld(cfg, w, run[0]), run[1..])
  }

  function EndHistory(cfg: Config, w: World, h: History, run: seq<Action>): History
    decreases |run|
  {
    if run == [] then h else EndHistory(cfg, StepWorld(cfg, w, run[0]), StepHistory(cfg, w, h, run[0]), run[1..])
  }

  predicate LawfulRun(cfg: Config, w: World, run: seq<Action>)
    decreases |run|
  {
    run == [] || (Lawful(cfg, w, run[0]) && LawfulRun(cfg, StepWorld(cfg, w, run[0]), run[1..]))
  }

  lemma {:induction false} RunKeeps(cfg: Config, w: World, h: History, run: seq<Action>)
    requires Inv(cfg, w, h) && LawfulRun(cfg, w, run)
    ensures Inv(cfg, EndWorld(cfg, w, run), EndHistory(cfg, w, h, run))
    decreases |run|
  {
    if run != [] {
      StepKeeps(cfg, w, h, run[0]);
      RunKeeps(cfg, StepWorld(cfg, w, run[0]), StepHistory(cfg, w, h, run[0]), run[1..]);
    }
  }

  lemma BlankInv(cfg: Config)
    requires cfg.maxLineages >= 1 && cfg.maxRecordBytes < U32
    ensures Inv(cfg, BLANK, NOTHING)
  {
  }

  /** What every state recovered from a surviving part of the log has kept. */
  predicate Promised(st: Durable, h: History) {
    && (forall i :: 0 <= i < |h.epochs| ==> h.epochs[i] <= st.epoch)
    && (forall d :: d in h.committed ==> d in st.lineages)
    && (forall id :: id in h.closed ==> id !in st.attempts)
    && (forall id :: id in h.stranded ==> id in st.attempts)
  }

  /** Over every run of opens, publishes, maintenance, compactions and crashes from a blank disk: epochs come into
      force in strictly increasing order; whatever part of the log a crash now leaves, it opens again, with every
      lineage of a successful publish that no newer one has evicted, every successful publish still closed, and every
      attempt that some earlier open found unfinished still unfinished. */
  lemma CrashSafety(cfg: Config, run: seq<Action>, kept: nat)
    requires cfg.maxLineages >= 1 && cfg.maxRecordBytes < U32 && LawfulRun(cfg, BLANK, run)
    requires EndWorld(cfg, BLANK, run).synced <= kept <= |EndWorld(cfg, BLANK, run).log|
    ensures var w, h := EndWorld(cfg, BLANK, run), EndHistory(cfg, BLANK, NOTHING, run);
            && Increasing(h.epochs) && Openable(cfg, w.log[..kept])
            && Promised(Replay(cfg, FRESH, w.log[..kept]).value, h)
  {
    BlankInv(cfg);
    RunKeeps(cfg, BLANK, NOTHING, run);
    PrefixPromised(cfg, EndWorld(cfg, BLANK, run), EndHistory(cfg, BLANK, NOTHING, run), kept);
  }

  lemma PrefixPromised(cfg: Config, w: World, h: History, kept: nat)
    requires Inv(cfg, w, h) && w.synced <= kept <= |w.log|
    ensures Openable(cfg, w.log[..kept]) && Promised(Replay(cfg, FRESH, w.log[..kept]).value, h)
  {
    assert PrefixOk(cfg, w.log, kept, h);
    RetainedPrefix(w.log, kept);
  }

  // ----- when a committed lineage is forgotten

  /** Recording a new lineage in a full list whose oldest is d. */
  predicate Evicts(cfg: Config, w: World, a: Action, d: Digest) {
    && a.Record? && w.process.Some? && w.process.value.stage.Publishing?
    && var lineages := w.process.value.live.lineages;
       a.lineage !in lineages && |lineages| >= cfg.maxLineages && lineages != [] && lineages[0] == d
  }

  lemma RememberForgets(lineages: seq<Digest>, x: Digest, max: nat, d: Digest)
    requires d in lineages && d !in Remember(lineages, x, max)
    ensures x !in lineages && |lineages| >= max && lineages[0] == d
  {
    assert lineages == [lineages[0]] + lineages[1..];
  }

  lemma StepForgets(cfg: Config, w: World, h: History, a: Action, d: Digest)
    requires Inv(cfg, w, h) && d in h.committed && d !in StepHistory(cfg, w, h, a).committed
    ensures Evicts(cfg, w, a, d)
  {
    RememberForgets(w.process.value.live.lineages, a.lineage, cfg.maxLineages, d);
  }

  /** A committed lineage is forgotten only by eviction: when the promise of it is gone, some step of the run recorded
      a new lineage in a full list in which it was the oldest. Lineages that a crash has lost do not count. */
  lemma {:induction false} ForgottenOnlyByEviction(cfg: Config, w: World, h: History, run: seq<Action>, d: Digest)
    returns (i: nat)
    requires Inv(cfg, w, h) && LawfulRun(cfg, w, run)
    requires d in h.committed && d !in EndHistory(cfg, w, h, run).committed
    ensures i < |run| && Evicts(cfg, EndWorld(cfg, w, run[..i]), run[i], d)
    decreases |run|
  {
    var v, g := StepWorld(cfg, w, run[0]), StepHistory(cfg, w, h, run[0]);
    if d in g.committed {
      StepKeeps(cfg, w, h, run[0]);
      var j := ForgottenOnlyByEviction(cfg, v, g, run[1..], d);
      i := j + 1;
      assert run[..i][1..] == run[1..][..j];
    } else {
      StepForgets(cfg, w, h, run[0], d);
      i := 0;
    }
  }

  /** The n most recent lineages. */
  function Latest(lineages: seq<Digest>, n: nat): seq<Digest> {
    if n >= |lineages| then lineages else lineages[|lineages| - n..]
  }

  lemma LatestGrows(lineages: seq<Digest>, d: Digest, n: nat)
    requires d in Latest(lineages, n)
    ensures d in Latest(lineages, n + 1) && d in lineages
  {
    var at := PlaceOf(lineages, d, n);
    PlaceHolds(lineages, at, n + 1);
  }

  /** A new lineage moves the others back by one place; only the oldest of a full list is forgotten. */
  lemma RememberLatest(lineages: seq<Digest>, x: Digest, max: nat, d: Digest, n: nat)
    requires |lineages| <= max && n < max && d in Latest(lineages, n) && x !in lineages
    ensures d in Latest(Remember(lineages, x, max), n + 1)
  {
    var at := PlaceOf(lineages, d, n);
    var next := Remember(lineages, x, max);
    var all := lineages + [x];
    assert all[at] == d;
    if |lineages| >= max && lineages != [] {
      assert next == all[1..];
      PlaceHolds(next, at - 1, n + 1);
    } else {
      assert next == all;
      PlaceHolds(next, at, n + 1);
    }
  }

  lemma PlaceOf(lineages: seq<Digest>, d: Digest, n: nat) returns (at: nat)
    requires d in Latest(lineages, n)
    ensures at < |lineages| && lineages[at] == d && at + n >= |lineages|
  {
    var late := Latest(lineages, n);
    var i :| 0 <= i < |late| && late[i] == d;
    at := if n >= |lineages| then i else |lineages| - n + i;
  }

  lemma PlaceHolds(lineages: seq<Digest>, at: nat, n: nat)
    requires at < |lineages| && at + n >= |lineages|
    ensures lineages[at] in Latest(lineages, n)
  {
    var late := Latest(lineages, n);
    assert late[if n >= |lineages| then at else at - (|lineages| - n)] == lineages[at];
  }

  /** Lineages recorded during a run. */
  function Recordings(run: seq<Action>): nat {
    if run == [] then 0 else (if run[0].Record? then 1 else 0) + Recordings(run[1..])
  }

  /** In every part of the log that may survive, d is among the n most recent lineages. */
  predicate Recent(cfg: Config, log: seq<Entry>, synced: nat, d: Digest, n: nat) {
    forall k :: synced <= k <= |log| ==> RecentAt(cfg, log, k, d, n)
  }

  predicate RecentAt(cfg: Config, log: seq<Entry>, k: nat, d: Digest, n: nat) {
    k <= |log| && Replay(cfg, FRESH, log[..k]).Ok? && d in Latest(Replay(cfg, FRESH, log[..k]).value.lineages, n)
  }

  lemma RecentAtGrows(cfg: Config, log: seq<Entry>, k: nat, d: Digest, n: nat, m: nat)
    requires RecentAt(cfg, log, k, d, n) && m == n + 1
    ensures RecentAt(cfg, log, k, d, m)
  {
    LatestGrows(Replay(cfg, FRESH, log[..k]).value.lineages, d, n);
  }

  lemma RecentWhole(cfg: Config, log: seq<Entry>, live: Durable, d: Digest, n: nat)
    requires Tracks(cfg, log, live)
    ensures RecentAt(cfg, log, |log|, d, n) <==> d in Latest(live.lineages, n)
  {
    assert log[..|log|] == log;
  }

  lemma RecentPrefix(cfg: Config, log: seq<Entry>, more: seq<Entry>, k: nat, d: Digest, n: nat)
    requires RecentAt(cfg, log, k, d, n) && k <= |more| && more[..k] == log[..k]
    ensures RecentAt(cfg, more, k, d, n)
  {
  }

  lemma RememberedRecent(lineages: seq<Digest>, x: Digest, max: nat, d: Digest, n: nat)
    requires |lineages| <= max && n < max && d in Latest(lineages, n)
    ensures d in Latest(Remember(lineages, x, max), n + 1)
  {
    if x in lineages { LatestGrows(lineages, d, n); } else { RememberLatest(lineages, x, max, d, n); }
  }

  /** Recording a lineage moves d back by at most one place. */
  lemma LongerRecent(cfg: Config, log: seq<Entry>, synced: nat, more: seq<Entry>, d: Digest, n: nat, m: nat)
    requires Recent(cfg, log, synced, d, n) && m == n + 1
    requires |more| == |log| + 1 && more[..|log|] == log && RecentAt(cfg, more, |more|, d, m)
    ensures Recent(cfg, more, synced, d, m)
  {
    forall k | synced <= k <= |more| ensures RecentAt(cfg, more, k, d, m) {
      if k <= |log| {
        assert RecentAt(cfg, log, k, d, n);
        assert more[..k] == more[..|log|][..k];
        RecentPrefix(cfg, log, more, k, d, n);
        RecentAtGrows(cfg, more, k, d, n, m);
      }
    }
  }

  /** How many places a step may move a lineage back. */
  function Shift(a: Action): nat { if a.Record? then 1 else 0 }

  /** Only recording a lineage changes the list of lineages. */
  lemma OtherSteps(cfg: Config, w: World, a: Action)
    requires !a.Record? && !a.Crash?
    ensures SameLineages(w, StepWorld(cfg, w, a))
  {
  }

  /** The log is the same, or another one that is synced and ends with the same lineages. */
  predicate SameLineages(w: World, v: World) {
    || (v.log == w.log && v.synced == w.synced)
    || (v.synced == |v.log| && w.process.Some? && v.process.Some?
        && v.process.value.live.lineages == w.process.value.live.lineages)
  }

  lemma StepRecent(cfg: Config, w: World, h: History, a: Action, d: Digest, n: nat, m: nat)
    requires Inv(cfg, w, h) && Lawful(cfg, w, a) && Recent(cfg, w.log, w.synced, d, n)
    requires m == n + Shift(a) <= cfg.maxLineages
    ensures var v := StepWorld(cfg, w, a); Recent(cfg, v.log, v.synced, d, m)
  {
    if a.Crash? {
      CrashRecent(cfg, w, a.kept, d, n);
    } else {
      StepKeeps(cfg, w, h, a);
      var g := StepHistory(cfg, w, h, a);
      if a.Record? { StepRecordRecent(cfg, w, h, a, g, d, n, m); } else { StepOtherRecent(cfg, w, h, a, g, d, n); }
    }
  }

  lemma CrashRecent(cfg: Config, w: World, kept: nat, d: Digest, n: nat)
    requires Recent(cfg, w.log, w.synced, d, n)
    ensures var v := StepWorld(cfg, w, Crash(kept)); Recent(cfg, v.log, v.synced, d, n)
  {
    var v := StepWorld(cfg, w, Crash(kept));
    forall k | v.synced <= k <= |v.log| ensures RecentAt(cfg, v.log, k, d, n) {
      assert RecentAt(cfg, w.log, k, d, n);
      RecentPrefix(cfg, w.log, v.log, k, d, n);
    }
  }

  lemma LiveTracks(cfg: Config, w: World, h: History)
    requires Inv(cfg, w, h) && w.process.Some?
    ensures Tracks(cfg, w.log, w.process.value.live) && |w.process.value.live.lineages| <= cfg.maxLineages
    ensures w.synced <= |w.log|
  {
  }

  lemma LiveRecent(cfg: Config, w: World, h: History, d: Digest, n: nat)
    requires Inv(cfg, w, h) && w.process.Some?
    ensures Recent(cfg, w.log, w.synced, d, n) ==> d in Latest(w.process.value.live.lineages, n)
    ensures RecentAt(cfg, w.log, |w.log|, d, n) <==> d in Latest(w.process.value.live.lineages, n)
  {
    LiveTracks(cfg, w, h);
    RecentWhole(cfg, w.log, w.process.value.live, d, n);
  }

  lemma StepOtherRecent(cfg: Config, w: World, h: History, a: Action, g: History, d: Digest, n: nat)
    requires Inv(cfg, w, h) && Inv(cfg, StepWorld(cfg, w, a), g) && !a.Record? && !a.Crash?
    requires Recent(cfg, w.log, w.synced, d, n)
    ensures var v := StepWorld(cfg, w, a); Recent(cfg, v.log, v.synced, d, n)
  {
    var v := StepWorld(cfg, w, a);
    OtherSteps(cfg, w, a);
    if w.process.Some? { LiveRecent(cfg, w, h, d, n); }
    if v.process.Some? { LiveRecent(cfg, v, g, d, n); }
    SameLineagesRecent(cfg, w, v, d, n);
  }

  lemma SameLineagesRecent(cfg: Config, w: World, v: World, d: Digest, n: nat)
    requires SameLineages(w, v) && Recent(cfg, w.log, w.synced, d, n)
    requires w.process.Some? ==> d in Latest(w.process.value.live.lineages, n)
    requires v.process.Some? && d in Latest(v.process.value.live.lineages, n) ==> RecentAt(cfg, v.log, |v.log|, d, n)
    ensures Recent(cfg, v.log, v.synced, d, n)
  {
  }

  lemma RecordStep(cfg: Config, w: World, a: Action)
    requires w.process.Some? && a.Record?
    ensures var v := StepWorld(cfg, w, a);
            && v.synced == w.synced && v.process.Some?
            && (|| v.log == w.log
                || (|v.log| == |w.log| + 1 && v.log[..|w.log|] == w.log
                    && v.process.value.live.lineages
                       == Remember(w.process.value.live.lineages, a.lineage, cfg.maxLineages)))
  {
    var op := RecordLineage(a.lineage);
    if w.process.value.stage.Publishing? && Write(cfg, w, op, a.accepted).Some? {
      assert (w.log + [Perform(cfg, w.process.value.live, op).entry])[..|w.log|] == w.log;
    }
  }

  lemma StepRecordRecent(cfg: Config, w: World, h: History, a: Action, g: History, d: Digest, n: nat, m: nat)
    requires Inv(cfg, w, h) && Inv(cfg, StepWorld(cfg, w, a), g) && a.Record?
    requires Recent(cfg, w.log, w.synced, d, n) && m == n + 1 <= cfg.maxLineages
    ensures var v := StepWorld(cfg, w, a); Recent(cfg, v.log, v.synced, d, m)
  {
    var v := StepWorld(cfg, w, a);
    if w.process.Some? { RecordStep(cfg, w, a); }
    if v.log == w.log {
      SameRecent(cfg, w.log, w.synced, d, n, m);
    } else {
      LiveTracks(cfg, w, h);
      LiveRecent(cfg, w, h, d, n);
      RememberedRecent(w.process.value.live.lineages, a.lineage, cfg.maxLineages, d, n);
      LiveRecent(cfg, v, g, d, m);
      LongerRecent(cfg, w.log, w.synced, v.log, d, n, m);
    }
  }

  lemma SameRecent(cfg: Config, log: seq<Entry>, synced: nat, d: Digest, n: nat, m: nat)
    requires Recent(cfg, log, synced, d, n) && m == n + 1
    ensures Recent(cfg, log, synced, d, m)
  {
    forall k | synced <= k <= |log| ensures RecentAt(cfg, log, k, d, m) {
      assert RecentAt(cfg, log, k, d, n);
      RecentAtGrows(cfg, log, k, d, n, m);
    }
  }

  /** A committed lineage that is among the n most recent of whatever may survive stays promised, and among the most
      recent, while no more lineages are recorded than there is room for behind it, whatever else happens. */
  lemma {:induction false} KeptWhileRecent(cfg: Config, w: World, h: History, run: seq<Action>, d: Digest, n: nat)
    requires Inv(cfg, w, h) && LawfulRun(cfg, w, run) && d in h.committed
    requires Recent(cfg, w.log, w.synced, d, n) && n + Recordings(run) <= cfg.maxLineages
    ensures d in EndHistory(cfg, w, h, run).committed
    decreases |run|
  {
    if run != [] {
      var v, g := StepWorld(cfg, w, run[0]), StepHistory(cfg, w, h, run[0]);
      StepKeeps(cfg, w, h, run[0]);
      StepRecent(cfg, w, h, run[0], d, n, n + Shift(run[0]));
      StillCommitted(cfg, w, h, run[0], d, n + Shift(run[0]));
      KeptWhileRecent(cfg, v, g, run[1..], d, n + Shift(run[0]));
    }
  }

  lemma StillCommitted(cfg: Config, w: World, h: History, a: Action, d: Digest, m: nat)
    requires Inv(cfg, StepWorld(cfg, w, a), StepHistory(cfg, w, h, a)) && d in h.committed
    requires var v := StepWorld(cfg, w, a); Recent(cfg, v.log, v.synced, d, m)
    ensures d in StepHistory(cfg, w, h, a).committed
  {
    var v := StepWorld(cfg, w, a);
    if a.Record? && v.process.Some? {
      LiveTracks(cfg, v, StepHistory(cfg, w, h, a));
      LiveRecent(cfg, v, StepHistory(cfg, w, h, a), d, m);
      LatestGrows(v.process.value.live.lineages, d, m);
    }
  }
}
