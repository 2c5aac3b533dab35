/** What the attempt limit of crates/gum-bus/src/consumer.rs does and does not bound. */
module BusAttempts {
  import opened Prelude
  import opened BusContracts
  import opened Bus
  import opened BusInvariant
  import opened BusRuns

  /** A claim that took the row from a worker whose lease had expired unreported. */
  ghost predicate TakesOver(s: State, step: Step, slot: Slot) {
    step.Claim? && TokenFor(step.picks, slot).Some? && slot in s.rows && s.rows[slot].leaseToken.Some?
  }

  /** Takeovers of `slot` since it was published or last revived, counted off the run. */
  ghost function TakeoversSince(cfg: Config, run: seq<Step>, slot: Slot): nat
    requires IsRun(cfg, run)
    decreases |run|
  {
    if run == [] then 0
    else
      var before, step := run[..|run| - 1], run[|run| - 1];
      if Revives(After(cfg, before), step, slot) then 0
      else TakeoversSince(cfg, before, slot) + (if TakesOver(After(cfg, before), step, slot) then 1 else 0)
  }

  /** The attempt the limit allows last: the first one is never refused. */
  function LastAllowed(cfg: Config): nat {
    Max(cfg.maxAttempts, 1)
  }

  /** Since publication or the last revival, a takeover of a row that had used up its attempts. */
  ghost predicate Overtaken(cfg: Config, run: seq<Step>, slot: Slot)
    requires IsRun(cfg, run)
    decreases |run|
  {
    run != []
    && var before, step := run[..|run| - 1], run[|run| - 1];
    && !Revives(After(cfg, before), step, slot)
    && (|| Overtaken(cfg, before, slot)
        || (TakesOver(After(cfg, before), step, slot) && After(cfg, before).rows[slot].attemptCount >= LastAllowed(cfg)))
  }

  /** A row whose last attempt ended in a report waits with attempts left. */
  ghost predicate LeftOver(cfg: Config, row: Row) {
    row.state == Pending && row.leaseToken.None? ==> row.attemptCount == 0 || row.attemptCount < cfg.maxAttempts
  }

  /** The one attempt not ended by a reschedule or a takeover: running, or ended by an ack or a parking. */
  function OpenAttempt(row: Row): nat {
    if row.state == Pending && row.leaseToken.None? then 0 else 1
  }

  /** The books of one row: every claim is accounted for, and the limit is passed only by overtaking. */
  ghost predicate Accounted(cfg: Config, row: Row, reschedules: nat, takeovers: nat, overtaken: bool) {
    && LeftOver(cfg, row)
    && row.attemptCount == reschedules + takeovers + OpenAttempt(row)
    && (row.attemptCount > LastAllowed(cfg) <==> overtaken)
  }

  ghost predicate AccountedIn(cfg: Config, s: State, slot: Slot, reschedules: nat, takeovers: nat, overtaken: bool) {
    if slot in s.rows then Accounted(cfg, s.rows[slot], reschedules, takeovers, overtaken)
    else reschedules == 0 && takeovers == 0 && !overtaken
  }

  /** A claim finds the row pending, and adds one attempt. */
  lemma ClaimAccounted(cfg: Config, s: State, step: Step, slot: Slot, r: nat, t: nat, o: bool)
    requires Inv(cfg, s) && Enabled(cfg, s, step) && slot in s.rows && Accounted(cfg, s.rows[slot], r, t, o)
    requires step.Claim? && TokenFor(step.picks, slot).Some?
    ensures var over := TakesOver(s, step, slot);
            Accounted(cfg, RowAfter(cfg, s, step, slot), r, t + (if over then 1 else 0),
                      o || (over && s.rows[slot].attemptCount >= LastAllowed(cfg)))
  {
    TokenForAbsent(step.picks, slot);
    assert PicksOk(cfg, s, step.consumer, step.topic, step.picks);
  }

  /** A failure report ends the running attempt, by a reschedule while attempts are left and by parking after. */
  lemma ReportAccounted(cfg: Config, s: State, step: Step, slot: Slot, r: nat, t: nat, o: bool)
    requires Inv(cfg, s) && Enabled(cfg, s, step) && slot in s.rows && Accounted(cfg, s.rows[slot], r, t, o) && step.RecordFailure?
    ensures Accounted(cfg, RowAfter(cfg, s, step, slot), r + (if Reschedules(cfg, s, step, slot) then 1 else 0), t, o)
  {
    if Reschedules(cfg, s, step, slot) {
      RescheduledAttempt(cfg, s, step, slot);
    }
  }

  /** A commit ends it by the ack, which the row's own lease made. */
  lemma CommitAccounted(cfg: Config, s: State, step: Step, slot: Slot, r: nat, t: nat, o: bool)
    requires Inv(cfg, s) && Enabled(cfg, s, step) && slot in s.rows && Accounted(cfg, s.rows[slot], r, t, o)
    requires step.Commit? || step.CommitReplyLost?
    ensures Accounted(cfg, RowAfter(cfg, s, step, slot), r, t, o)
  {
    assert Matches(s.rows[WorkerOf(s, step.w).phase.d.slot], WorkerOf(s, step.w).phase.d.token);
  }

  /** Every other step parks the row, revives it, or leaves it alone. */
  lemma OtherAccounted(cfg: Config, s: State, step: Step, slot: Slot, r: nat, t: nat, o: bool)
    requires Inv(cfg, s) && Enabled(cfg, s, step) && slot in s.rows && Accounted(cfg, s.rows[slot], r, t, o)
    requires !(step.Claim? && TokenFor(step.picks, slot).Some?) && !step.RecordFailure? && !step.Commit? && !step.CommitReplyLost?
    ensures if Revives(s, step, slot) then Accounted(cfg, RowAfter(cfg, s, step, slot), 0, 0, false)
            else Accounted(cfg, RowAfter(cfg, s, step, slot), r, t, o)
  {
  }

  lemma {:induction false} BooksKept(cfg: Config, run: seq<Step>, slot: Slot)
    requires IsRun(cfg, run)
    ensures AccountedIn(cfg, After(cfg, run), slot, ReschedulesSince(cfg, run, slot), TakeoversSince(cfg, run, slot), Overtaken(cfg, run, slot))
    decreases |run|
  {
    if run != [] {
      var before, step := run[..|run| - 1], run[|run| - 1];
      var s := After(cfg, before);
      var r, t, o := ReschedulesSince(cfg, before, slot), TakeoversSince(cfg, before, slot), Overtaken(cfg, before, slot);
      BooksKept(cfg, before, slot);
      RunInv(cfg, before);
      if slot in s.rows {
        RowStep(cfg, s, step, slot);
        if step.Claim? && TokenFor(step.picks, slot).Some? {
          ClaimAccounted(cfg, s, step, slot, r, t, o);
        } else if step.RecordFailure? {
          ReportAccounted(cfg, s, step, slot, r, t, o);
        } else if step.Commit? || step.CommitReplyLost? {
          CommitAccounted(cfg, s, step, slot, r, t, o);
        } else {
          OtherAccounted(cfg, s, step, slot, r, t, o);
        }
      } else if slot in Apply(cfg, s, step).rows {
        NewRowsAreFresh(cfg, s, step, slot);
      }
    }
  }

  /**
   * Where every attempt went: since publication or the last revival each claim was ended by a
   * reschedule or by a takeover, except one that still runs or was ended by an ack or a parking.
   */
  lemma ClaimsAccountedFor(cfg: Config, run: seq<Step>, slot: Slot)
    requires IsRun(cfg, run) && slot in After(cfg, run).rows
    ensures ClaimsSince(cfg, run, slot)
         == ReschedulesSince(cfg, run, slot) + TakeoversSince(cfg, run, slot) + OpenAttempt(After(cfg, run).rows[slot])
  {
    BooksKept(cfg, run, slot);
    AttemptBudget(cfg, run, slot);
  }

  /** A row waiting without a lease has attempts left: no report reschedules the last one. */
  lemma WaitingHasAttemptsLeft(cfg: Config, run: seq<Step>, slot: Slot)
    requires IsRun(cfg, run) && slot in After(cfg, run).rows
    requires After(cfg, run).rows[slot].state == Pending && After(cfg, run).rows[slot].leaseToken.None?
    ensures After(cfg, run).rows[slot].attemptCount == 0 || After(cfg, run).rows[slot].attemptCount < cfg.maxAttempts
  {
    BooksKept(cfg, run, slot);
  }

  /**
   * Exactly when the limit is passed: some worker took the row over, from one that never
   * reported, after the attempts were used up. Claims of waiting rows never pass it.
   */
  lemma LimitPassedExactlyWhenOvertaken(cfg: Config, run: seq<Step>, slot: Slot)
    requires IsRun(cfg, run) && slot in After(cfg, run).rows
    ensures After(cfg, run).rows[slot].attemptCount > LastAllowed(cfg) <==> Overtaken(cfg, run, slot)
  {
    BooksKept(cfg, run, slot);
  }
}
