/** What the fabric's protocol achieves: an open that nothing stands in the way of comes up in the next epoch, a publish
    goes through or is undone, and a step the journal refuses has exactly its consequence. */
module FabricRuns {
  import opened Wrappers
  import opened Bytes
  import opened JournalFormat
  import opened StoreState
  import opened StoreLaws
  import opened Compaction
  import opened FabricCrash

  lemma {:induction false} EndSnoc(cfg: Config, w: World, h: History, run: seq<Action>, a: Action)
    ensures EndWorld(cfg, w, run + [a]) == StepWorld(cfg, EndWorld(cfg, w, run), a)
    ensures EndHistory(cfg, w, h, run + [a])
         == StepHistory(cfg, EndWorld(cfg, w, run), EndHistory(cfg, w, h, run), a)
    decreases |run|
  {
    if run != [] {
      assert (run + [a])[1..] == run[1..] + [a];
      EndSnoc(cfg, StepWorld(cfg, w, run[0]), StepHistory(cfg, w, h, run[0]), run[1..], a);
    } else {
      assert [] + [a] == [a] && [a][1..] == [];
      assert EndWorld(cfg, StepWorld(cfg, w, a), []) == StepWorld(cfg, w, a);
      assert EndHistory(cfg, StepWorld(cfg, w, a), StepHistory(cfg, w, h, a), []) == StepHistory(cfg, w, h, a);
    }
  }

  lemma EndThree(cfg: Config, w: World, h: History, a: Action, b: Action, c: Action)
    ensures var v := StepWorld(cfg, StepWorld(cfg, w, a), b);
            var g := StepHistory(cfg, StepWorld(cfg, w, a), StepHistory(cfg, w, h, a), b);
            && EndWorld(cfg, w, [a, b]) == v && EndHistory(cfg, w, h, [a, b]) == g
            && EndWorld(cfg, w, [a, b, c]) == StepWorld(cfg, v, c)
            && EndHistory(cfg, w, h, [a, b, c]) == StepHistory(cfg, v, g, c)
  {
    EndSnoc(cfg, w, h, [], a);
    EndSnoc(cfg, w, h, [a], b);
    EndSnoc(cfg, w, h, [a, b], c);
    assert [] + [a] == [a] && [a] + [b] == [a, b] && [a, b] + [c] == [a, b, c];
  }

  lemma PayloadSizes(epoch: nat, i: Incarnation, id: nat, d: Digest)
    ensures |EpochPayload(epoch)| == 8 && |BootPayload(i)| == 32 && |IdPayload(id)| == 8 && |DigestPayload(d)| == 16
  {
    SmallRows();
    DigestRowSize();
    TotalFrom(ID_ROW, 0);
    assert ID_ROW[0..] == ID_ROW && ID_ROW[1..] == [];
  }

  /** A record of the operation that the running process writes, and what follows from it. */
  predicate Wrote(cfg: Config, w: World, op: Op, v: World, after: Durable) {
    && w.process.Some? && Perform(cfg, w.process.value.live, op).Written?
    && v.log == w.log + [Perform(cfg, w.process.value.live, op).entry]
    && after == Perform(cfg, w.process.value.live, op).after
    && v.synced == if op.RecordLineage? then w.synced else |v.log|
  }

  lemma Writes(cfg: Config, w: World, op: Op)
    requires w.process.Some? && Perform(cfg, w.process.value.live, op).Written?
    requires Retained(w.log) + |Perform(cfg, w.process.value.live, op).entry.payload| <= cfg.maxRetained
    ensures Write(cfg, w, op, true).Some?
    ensures Wrote(cfg, w, op, Write(cfg, w, op, true).value.0, Write(cfg, w, op, true).value.1)
    ensures var v := Write(cfg, w, op, true).value.0;
            Retained(v.log) == Retained(w.log) + |Perform(cfg, w.process.value.live, op).entry.payload|
    ensures Write(cfg, w, op, false).None?
  {
    RetainedSnoc(w.log, Perform(cfg, w.process.value.live, op).entry);
  }

  /** Opening: whatever state the log replays to, the fabric comes up idle in the next epoch, with its incarnation
      recorded and both records synced; the attempts found unfinished are noted. */
  lemma OpenSucceeds(cfg: Config, w: World, h: History, i: Incarnation)
    requires w.process.None? && Openable(cfg, w.log) && (i.hi != 0 || i.lo != 0) && i.seq_ != 0
    requires Replay(cfg, FRESH, w.log).value.epoch < 0xFFFF_FFFF_FFFF_FFFF
    requires Retained(w.log) + 40 <= cfg.maxRetained
    ensures var st := Replay(cfg, FRESH, w.log).value;
            var run := [Reopen, Establish(true), Boot(i, true)];
            var v, g := EndWorld(cfg, w, run), EndHistory(cfg, w, h, run);
            && v.process
               == Some(Process(st.(previousEpoch := st.epoch, epoch := st.epoch + 1, boot := Some(i)), Idle, 1))
            && |v.log| == |w.log| + 2 && v.log[..|w.log|] == w.log && v.synced == |v.log|
            && g == h.(epochs := h.epochs + [st.epoch + 1], stranded := h.stranded + (set x | x in st.attempts))
  {
    var st := Replay(cfg, FRESH, w.log).value;
    EndThree(cfg, w, h, Reopen, Establish(true), Boot(i, true));
    EstablishedEpoch(cfg, w, i);
    var first := StepWorld(cfg, StepWorld(cfg, w, Reopen), Establish(true));
    PayloadSizes(0, i, 0, Digest(0, 0));
    BootWritten(cfg, first, i);
    assert SetOf(st.attempts) == (set x | x in st.attempts);
    var v := StepWorld(cfg, first, Boot(i, true));
    assert v.log[..|w.log|] == v.log[..|first.log|][..|w.log|];
  }

  lemma BootWritten(cfg: Config, w: World, i: Incarnation)
    requires w.process.Some? && w.process.value.stage == Established && w.process.value.live.epoch > 0
    requires (i.hi != 0 || i.lo != 0) && i.seq_ != 0 && Retained(w.log) + 32 <= cfg.maxRetained
    ensures var v, p := StepWorld(cfg, w, Boot(i, true)), w.process.value;
            && v.process == Some(Process(p.live.(boot := Some(i)), Idle, p.counter))
            && |v.log| == |w.log| + 1 && v.log[..|w.log|] == w.log && v.synced == |v.log|
  {
    PayloadSizes(0, i, 0, Digest(0, 0));
    Writes(cfg, w, RecordBoot(i));
    assert StepWorld(cfg, w, Boot(i, true)).log[..|w.log|] == w.log;
  }

  /** The first two steps of an open. */
  lemma EstablishedEpoch(cfg: Config, w: World, i: Incarnation)
    requires w.process.None? && Openable(cfg, w.log) && Retained(w.log) + 40 <= cfg.maxRetained
    requires Replay(cfg, FRESH, w.log).value.epoch < 0xFFFF_FFFF_FFFF_FFFF
    ensures var st := Replay(cfg, FRESH, w.log).value;
            var up := StepWorld(cfg, w, Reopen);
            var v := StepWorld(cfg, up, Establish(true));
            && up == World(w.log, w.synced, Some(Process(st, Recovered, 1)))
            && v.process == Some(Process(st.(previousEpoch := st.epoch, epoch := st.epoch + 1), Established, 1))
            && |v.log| == |w.log| + 1 && v.log[..|w.log|] == w.log && Retained(v.log) == Retained(w.log) + 8
  {
    var st := Replay(cfg, FRESH, w.log).value;
    PayloadSizes(st.epoch + 1, i, 0, Digest(0, 0));
    var up := StepWorld(cfg, w, Reopen);
    Writes(cfg, up, EstablishEpoch);
    assert StepWorld(cfg, up, Establish(true)).log[..|w.log|] == w.log;
  }

  /** A fabric that is up, idle and in an epoch, with room in the journal for one publish. */
  predicate MayPublish(cfg: Config, w: World, id: nat, d: Digest) {
    && w.process.Some? && w.process.value.stage == Idle && w.process.value.live.epoch > 0
    && id >= w.process.value.counter && id != 0xFFFF_FFFF_FFFF_FFFF && id !in w.process.value.live.attempts
    && (d.hi != 0 || d.lo != 0) && Retained(w.log) + 32 <= cfg.maxRetained
  }

  lemma {:induction false} EraseLast(xs: seq<nat>, x: nat)
    requires x !in xs
    ensures Erase(xs + [x], x) == xs
  {
    if xs != [] {
      EraseLast(xs[1..], x);
      assert (xs + [x])[1..] == xs[1..] + [x];
    }
  }

  /** The first two steps of a publish. */
  lemma RecordedAttempt(cfg: Config, w: World, id: nat, d: Digest)
    requires MayPublish(cfg, w, id, d) && cfg.maxLineages >= 1
    ensures var live := w.process.value.live;
            var begun := StepWorld(cfg, w, Begin(id, true));
            var v := StepWorld(cfg, begun, Action.Record(d, true));
            && begun.process == Some(Process(live.(attempts := live.attempts + [id]), Publishing(id, []), id + 1))
            && |begun.log| == |w.log| + 1 && begun.log[..|w.log|] == w.log
            && v.process.Some? && v.process.value.stage == Publishing(id, [d]) && v.process.value.counter == id + 1
            && NewLineages(live.lineages, d, cfg.maxLineages, v.process.value.live.lineages)
            && v.process.value.live
               == live.(attempts := live.attempts + [id], lineages := v.process.value.live.lineages)
            && |v.log| == |w.log| + 2 && v.log[..|w.log|] == w.log && Retained(v.log) == Retained(w.log) + 24
  {
    BegunAttempt(cfg, w, id, d);
    var begun := StepWorld(cfg, w, Begin(id, true));
    RecordedLineage(cfg, begun, id, d);
    var v := StepWorld(cfg, begun, Action.Record(d, true));
    assert v.log[..|w.log|] == v.log[..|begun.log|][..|w.log|];
  }

  lemma BegunAttempt(cfg: Config, w: World, id: nat, d: Digest)
    requires MayPublish(cfg, w, id, d)
    ensures var live := w.process.value.live;
            var v := StepWorld(cfg, w, Begin(id, true));
            && v.process == Some(Process(live.(attempts := live.attempts + [id]), Publishing(id, []), id + 1))
            && |v.log| == |w.log| + 1 && v.log[..|w.log|] == w.log && Retained(v.log) == Retained(w.log) + 8
  {
    PayloadSizes(0, Incarnation(0, 0, 0, 0, 0), id, d);
    Writes(cfg, w, BeginAttempt(id));
    assert StepWorld(cfg, w, Begin(id, true)).log[..|w.log|] == w.log;
  }

  lemma RecordedLineage(cfg: Config, w: World, id: nat, d: Digest)
    requires w.process.Some? && w.process.value.stage == Publishing(id, []) && w.process.value.live.epoch > 0
    requires (d.hi != 0 || d.lo != 0) && Retained(w.log) + 16 <= cfg.maxRetained
    ensures var live := w.process.value.live;
            var v := StepWorld(cfg, w, Action.Record(d, true));
            && v.process.Some? && v.process.value.stage == Publishing(id, [d])
            && v.process.value.counter == w.process.value.counter
            && NewLineages(live.lineages, d, cfg.maxLineages, v.process.value.live.lineages)
            && v.process.value.live == live.(lineages := v.process.value.live.lineages)
            && |v.log| == |w.log| + 1 && v.log[..|w.log|] == w.log && Retained(v.log) == Retained(w.log) + 16
  {
    PayloadSizes(0, Incarnation(0, 0, 0, 0, 0), id, d);
    Writes(cfg, w, RecordLineage(d));
    assert StepWorld(cfg, w, Action.Record(d, true)).log[..|w.log|] == w.log;
  }

  lemma CommittedAttempt(cfg: Config, w: World, id: nat, d: Digest)
    requires w.process.Some? && w.process.value.stage == Publishing(id, [d]) && id in w.process.value.live.attempts
    requires Retained(w.log) + 8 <= cfg.maxRetained
    ensures var live := w.process.value.live;
            var v := StepWorld(cfg, w, Commit(true));
            && v.process == Some(Process(live.(attempts := Erase(live.attempts, id)), Idle, w.process.value.counter))
            && |v.log| == |w.log| + 1 && v.log[..|w.log|] == w.log && v.synced == |v.log|
  {
    PayloadSizes(0, Incarnation(0, 0, 0, 0, 0), id, d);
    Writes(cfg, w, CommitAttempt(id));
  }

  /** Publishing: the attempt is begun and committed, the lineage recorded between the two, and all of it synced; the
      lineage is promised, and the attempt closed. */
  lemma PublishSucceeds(cfg: Config, w: World, h: History, id: nat, d: Digest)
    requires MayPublish(cfg, w, id, d) && cfg.maxLineages >= 1
    ensures var live := w.process.value.live;
            var run := [Begin(id, true), Action.Record(d, true), Commit(true)];
            var v, g := EndWorld(cfg, w, run), EndHistory(cfg, w, h, run);
            && v.process.Some? && v.process.value.stage == Idle && v.process.value.counter == id + 1
            && NewLineages(live.lineages, d, cfg.maxLineages, v.process.value.live.lineages)
            && v.process.value.live == live.(lineages := v.process.value.live.lineages)
            && |v.log| == |w.log| + 3 && v.log[..|w.log|] == w.log && v.synced == |v.log|
            && d in g.committed && id in g.closed && g.epochs == h.epochs && g.stranded == h.stranded
  {
    EndThree(cfg, w, h, Begin(id, true), Action.Record(d, true), Commit(true));
    RecordedAttempt(cfg, w, id, d);
    var begun := StepWorld(cfg, w, Begin(id, true));
    var recorded := StepWorld(cfg, begun, Action.Record(d, true));
    CommittedAttempt(cfg, recorded, id, d);
    EraseLast(w.process.value.live.attempts, id);
    PublishedHistory(cfg, w, h, id, d, begun, recorded);
    var log := StepWorld(cfg, recorded, Commit(true)).log;
    assert log[..|w.log|] == log[..|recorded.log|][..|w.log|];
  }

  lemma PublishedHistory(cfg: Config, w: World, h: History, id: nat, d: Digest, begun: World, recorded: World)
    requires w.process.Some? && begun == StepWorld(cfg, w, Begin(id, true)) && |begun.log| == |w.log| + 1
    requires begun.process.Some? && recorded == StepWorld(cfg, begun, Action.Record(d, true))
    requires recorded.process.Some? && recorded.process.value.stage == Publishing(id, [d])
    requires d in recorded.process.value.live.lineages
    requires |StepWorld(cfg, recorded, Commit(true)).log| == |recorded.log| + 1
    ensures var g := StepHistory(cfg, recorded, StepHistory(cfg, begun, StepHistory(cfg, w, h, Begin(id, true)),
                                                             Action.Record(d, true)), Commit(true));
            d in g.committed && id in g.closed && g.epochs == h.epochs && g.stranded == h.stranded
  {
  }

  /** An aborted publish leaves the state as it was, two records behind it, and promises nothing. */
  lemma PublishAborts(cfg: Config, w: World, h: History, id: nat, d: Digest)
    requires MayPublish(cfg, w, id, d)
    ensures var run := [Begin(id, true), Abort(true)];
            var v, g := EndWorld(cfg, w, run), EndHistory(cfg, w, h, run);
            && v.process == Some(w.process.value.(counter := id + 1))
            && |v.log| == |w.log| + 2 && v.log[..|w.log|] == w.log && v.synced == |v.log|
            && g == h.(closed := h.closed - {id})
  {
    EndThree(cfg, w, h, Begin(id, true), Abort(true), Abort(true));
    BegunAttempt(cfg, w, id, d);
    AbortedAttempt(cfg, StepWorld(cfg, w, Begin(id, true)), id, d);
    EraseLast(w.process.value.live.attempts, id);
    var v := StepWorld(cfg, StepWorld(cfg, w, Begin(id, true)), Abort(true));
    assert v.log[..|w.log|] == v.log[..|w.log| + 1][..|w.log|];
  }

  lemma AbortedAttempt(cfg: Config, w: World, id: nat, d: Digest)
    requires w.process.Some? && w.process.value.stage == Publishing(id, []) && id in w.process.value.live.attempts
    requires Retained(w.log) + 8 <= cfg.maxRetained
    ensures var live := w.process.value.live;
            var v := StepWorld(cfg, w, Abort(true));
            && v.process == Some(Process(live.(attempts := Erase(live.attempts, id)), Idle, w.process.value.counter))
            && |v.log| == |w.log| + 1 && v.log[..|w.log|] == w.log && v.synced == |v.log|
  {
    PayloadSizes(0, Incarnation(0, 0, 0, 0, 0), id, d);
    Writes(cfg, w, AbortAttempt(id));
    assert StepWorld(cfg, w, Abort(true)).log[..|w.log|] == w.log;
  }

  /** What a step comes to when the journal refuses its record: an open fails, anything else leaves the fabric idle, the
      identity of a refused attempt is used up, and the log is as it was. */
  lemma RefusedSteps(cfg: Config, w: World, i: Incarnation, id: nat, d: Digest, op: Op)
    requires w.process.Some?
    ensures w.process.value.stage == Recovered ==> StepWorld(cfg, w, Establish(false)) == w.(process := None)
    ensures w.process.value.stage == Established ==> StepWorld(cfg, w, Boot(i, false)) == w.(process := None)
    ensures w.process.value.stage == Idle && id >= w.process.value.counter ==>
              StepWorld(cfg, w, Begin(id, false)) == w.(process := Some(w.process.value.(counter := id + 1)))
    ensures w.process.value.stage == Idle ==> StepWorld(cfg, w, Maintain(op, false)) == w
    ensures w.process.value.stage.Publishing? ==>
              && StepWorld(cfg, w, Action.Record(d, false)) == w
              && StepWorld(cfg, w, Commit(false)) == w.(process := Some(w.process.value.(stage := Idle)))
              && StepWorld(cfg, w, Abort(false)) == w.(process := Some(w.process.value.(stage := Idle)))
    ensures StepWorld(cfg, w, CompactLog(false)) == w
  {
  }

  /** A crash ends the process and keeps any part of the log that is not shorter than the synced one; a compaction
      leaves the compacted log, synced. */
  lemma CrashAndCompact(cfg: Config, w: World, kept: nat)
    requires w.synced <= kept <= |w.log|
    ensures StepWorld(cfg, w, Crash(kept)) == World(w.log[..kept], w.synced, None)
    ensures w.process.Some? && w.process.value.stage == Idle ==>
              StepWorld(cfg, w, CompactLog(true))
              == World(Compacted(w.process.value.live), |Compacted(w.process.value.live)|, w.process)
  {
  }

  /** Maintenance that the store accepts is written, synced and takes effect. */
  lemma MaintenanceSucceeds(cfg: Config, w: World, op: Op)
    requires w.process.Some? && w.process.value.stage == Idle && Perform(cfg, w.process.value.live, op).Written?
    requires !op.EstablishEpoch? && !op.RecordBoot? && !op.RecordLineage? && !op.BeginAttempt? && !op.CommitAttempt?
             && !op.AbortAttempt?
    requires Retained(w.log) + |Perform(cfg, w.process.value.live, op).entry.payload| <= cfg.maxRetained
    ensures var v := StepWorld(cfg, w, Maintain(op, true));
            && v.process.Some? && v.process.value.stage == Idle && v.process.value.counter == w.process.value.counter
            && Wrote(cfg, w, op, v, v.process.value.live) && v.synced == |v.log|
  {
    Writes(cfg, w, op);
  }
}
