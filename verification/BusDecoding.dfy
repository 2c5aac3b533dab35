/** Which deliveries can be completed at all: those whose message the consumer's binary reads. */
module BusDecoding {
  import opened Prelude
  import opened BusContracts
  import opened Bus
  import opened BusInvariant
  import opened BusRuns
  import opened BusProgress

  /** The message is of a schema version this binary knows, and its payload decodes. */
  ghost predicate Readable(cfg: Config, log: map<MessageId, Logged>, id: MessageId) {
    id in log && log[id].schemaVersion <= cfg.schemaVersion && log[id].parses
  }

  /** Only readable deliveries are being handled, or done. */
  ghost predicate OnlyReadable(cfg: Config, s: State) {
    && (forall w :: WorkerOf(s, w).phase.Handling? || WorkerOf(s, w).phase.Acked? ==> Readable(cfg, s.log, WorkerOf(s, w).phase.d.slot.id))
    && (forall k :: k in s.rows && s.rows[k].state == Done ==> Readable(cfg, s.log, k.id))
  }

  lemma LogGrows(cfg: Config, s: State, step: Step, id: MessageId)
    requires Inv(cfg, s) && Enabled(cfg, s, step) && id in s.log
    ensures id in Apply(cfg, s, step).log && Apply(cfg, s, step).log[id] == s.log[id]
  {
    LogStep(cfg, s, step);
    if step.CommitProduce? || step.Commit? || step.CommitReplyLost? {
      assert Apart(s.log, InsertedBy(s, step.w));
    }
  }

  /** A delivery comes to be handled, or acknowledged, only out of a queue that was read. */
  lemma PhaseStep(cfg: Config, s: State, step: Step, w: WorkerId)
    requires Enabled(cfg, s, step)
    requires var p := WorkerOf(Apply(cfg, s, step), w).phase; p.Handling? || p.Acked?
    ensures var p, q := WorkerOf(s, w).phase, WorkerOf(Apply(cfg, s, step), w).phase;
            || ((p.Handling? || p.Acked?) && p.d == q.d)
            || (step == Begin(w) && q.d in WorkerOf(s, w).queue)
  {
    if step.Claim? {
      ClaimAllRows(s, step.w, cfg.lease, step.picks);
    }
  }

  lemma DoneStep(cfg: Config, s: State, step: Step, slot: Slot)
    requires Inv(cfg, s) && Enabled(cfg, s, step) && slot in Apply(cfg, s, step).rows && Apply(cfg, s, step).rows[slot].state == Done
    ensures || (slot in s.rows && s.rows[slot].state == Done)
            || ((step.Commit? || step.CommitReplyLost?) && WorkerOf(s, step.w).phase.d.slot == slot)
  {
    if slot in s.rows {
      RowStep(cfg, s, step, slot);
    } else {
      NewRowsAreFresh(cfg, s, step, slot);
    }
  }

  lemma HandledIsReadable(cfg: Config, s: State, step: Step, w: WorkerId)
    requires Inv(cfg, s) && Enabled(cfg, s, step) && OnlyReadable(cfg, s)
    requires WorkerOf(Apply(cfg, s, step), w).phase.Handling? || WorkerOf(Apply(cfg, s, step), w).phase.Acked?
    ensures Readable(cfg, s.log, WorkerOf(Apply(cfg, s, step), w).phase.d.slot.id)
  {
    PhaseStep(cfg, s, step, w);
  }

  lemma DoneIsReadable(cfg: Config, s: State, step: Step, slot: Slot)
    requires Inv(cfg, s) && Enabled(cfg, s, step) && OnlyReadable(cfg, s)
    requires slot in Apply(cfg, s, step).rows && Apply(cfg, s, step).rows[slot].state == Done
    ensures Readable(cfg, s.log, slot.id)
  {
    DoneStep(cfg, s, step, slot);
  }

  lemma ReadableStep(cfg: Config, s: State, step: Step, t: State)
    requires Inv(cfg, s) && Enabled(cfg, s, step) && OnlyReadable(cfg, s) && t == Apply(cfg, s, step)
    ensures OnlyReadable(cfg, t)
  {
    forall w | WorkerOf(t, w).phase.Handling? || WorkerOf(t, w).phase.Acked?
      ensures Readable(cfg, t.log, WorkerOf(t, w).phase.d.slot.id)
    {
      HandledIsReadable(cfg, s, step, w);
      LogGrows(cfg, s, step, WorkerOf(t, w).phase.d.slot.id);
    }
    forall k | k in t.rows && t.rows[k].state == Done
      ensures Readable(cfg, t.log, k.id)
    {
      DoneIsReadable(cfg, s, step, k);
      LogGrows(cfg, s, step, k.id);
    }
  }

  lemma {:induction false} RunReadable(cfg: Config, run: seq<Step>)
    requires IsRun(cfg, run)
    ensures OnlyReadable(cfg, After(cfg, run))
    decreases |run|
  {
    if run != [] {
      RunReadable(cfg, run[..|run| - 1]);
      RunInv(cfg, run[..|run| - 1]);
      ReadableStep(cfg, After(cfg, run[..|run| - 1]), run[|run| - 1], After(cfg, run));
    }
  }

  lemma {:induction false} LogKept(cfg: Config, run: seq<Step>, more: seq<Step>, id: MessageId)
    requires IsRun(cfg, run) && IsRun(cfg, run + more) && id in After(cfg, run).log
    ensures id in After(cfg, run + more).log && After(cfg, run + more).log[id] == After(cfg, run).log[id]
    decreases |more|
  {
    if more == [] {
      assert run + more == run;
    } else {
      LastStep(cfg, run, more);
      LogKept(cfg, run, more[..|more| - 1], id);
      RunInv(cfg, run + more[..|more| - 1]);
      LogGrows(cfg, After(cfg, run + more[..|more| - 1]), more[|more| - 1], id);
    }
  }

  /**
   * From every reachable state a delivery can still be completed if and only if its message is of
   * a known schema version and decodes: an unreadable one is never handled to its end.
   */
  lemma CompletableExactly(cfg: Config, run: seq<Step>, slot: Slot)
    requires IsRun(cfg, run) && cfg.batchSize >= 1
    requires slot in After(cfg, run).rows && slot.id in After(cfg, run).log
    ensures (exists more :: IsRun(cfg, run + more) && slot in After(cfg, run + more).rows && After(cfg, run + more).rows[slot].state == Done)
       <==> (After(cfg, run).log[slot.id].schemaVersion <= cfg.schemaVersion && After(cfg, run).log[slot.id].parses)
  {
    if Readable(cfg, After(cfg, run).log, slot.id) {
      var more := AlwaysCompletable(cfg, run, slot);
    }
    forall more | IsRun(cfg, run + more) && slot in After(cfg, run + more).rows && After(cfg, run + more).rows[slot].state == Done
      ensures Readable(cfg, After(cfg, run).log, slot.id)
    {
      RunReadable(cfg, run + more);
      LogKept(cfg, run, more, slot.id);
    }
  }
}
