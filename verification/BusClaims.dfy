/** When the claim statement of crates/gum-bus/src/consumer.rs may take a row, read off the steps of a run. */
module BusClaims {
  import opened Prelude
  import opened BusContracts
  import opened Bus
  import opened BusInvariant
  import opened BusRuns

  // ------------------------------------------------------------ steps about one row, by their fields

  /** The claim statement took this row. */
  ghost predicate Claims(step: Step, slot: Slot) {
    step.Claim? && exists i :: 0 <= i < |step.picks| && step.picks[i].slot == slot
  }

  /** A failure report under the row's own lease that has attempts left. */
  ghost predicate Reported(cfg: Config, s: State, step: Step, slot: Slot) {
    && step.RecordFailure? && slot in s.rows && s.rows[slot].state == Pending
    && match WorkerOf(s, step.w).phase
       case Failing(d, permanent) =>
         d.slot == slot && s.rows[slot].leaseToken == Some(d.token) && !permanent && d.attempt < cfg.maxAttempts
       case _ => false
  }

  /** The operator's revival of a dead row. */
  ghost predicate Revived(s: State, step: Step, slot: Slot) {
    step == Revive(slot) && slot in s.rows && s.rows[slot].state == Dead
  }

  lemma ClaimsIsTokenFor(step: Step, slot: Slot)
    requires step.Claim?
    ensures Claims(step, slot) <==> TokenFor(step.picks, slot).Some?
  {
    TokenForAbsent(step.picks, slot);
  }

  /** The columns and the clock that let one row be claimed. */
  lemma ClaimedExactly(cfg: Config, s: State, w: WorkerId, slot: Slot, token: Token)
    requires WorkerOf(s, w) == Worker([], Idle) && cfg.batchSize >= 1 && slot in s.rows && slot.id in s.log
    ensures Enabled(cfg, s, Claim(w, slot.consumer, s.log[slot.id].topic, [Pick(slot, token)])) <==>
            && s.rows[slot].state == Pending && s.rows[slot].availableAt <= s.now
            && (s.rows[slot].leasedUntil == None || s.rows[slot].leasedUntil.value < s.now)
            && (forall v :: WorkerOf(s, v).phase.Acked? ==> WorkerOf(s, v).phase.d.slot != slot)
            && token !in s.issued
  {
    var topic := s.log[slot.id].topic;
    var pick := Pick(slot, token);
    assert PicksOk(cfg, s, slot.consumer, topic, [pick]) <==> PickOk(cfg, s, slot.consumer, topic, [pick][0]);
    assert Unlocked(s, slot) <==> forall v :: !LockedBy(s, v, slot);
    assert forall v :: LockedBy(s, v, slot) <==> WorkerOf(s, v).phase.Acked? && WorkerOf(s, v).phase.d.slot == slot;
  }

  /** A claim of any batch takes due rows only, which no other worker has leased or locked. */
  lemma ClaimedIsDue(cfg: Config, s: State, step: Step, slot: Slot)
    requires Enabled(cfg, s, step) && Claims(step, slot)
    ensures slot in s.rows && s.rows[slot].state == Pending && s.rows[slot].availableAt <= s.now
    ensures s.rows[slot].leasedUntil == None || s.rows[slot].leasedUntil.value < s.now
    ensures forall v :: WorkerOf(s, v).phase.Acked? ==> WorkerOf(s, v).phase.d.slot != slot
    ensures slot.consumer == step.consumer && slot.id in s.log && s.log[slot.id].topic == step.topic
  {
    var i :| 0 <= i < |step.picks| && step.picks[i].slot == slot;
    assert PickOk(cfg, s, step.consumer, step.topic, step.picks[i]);
    forall v | WorkerOf(s, v).phase.Acked?
      ensures WorkerOf(s, v).phase.d.slot != slot
    {
      assert !LockedBy(s, v, slot);
    }
  }

  lemma ClaimedRow(cfg: Config, s: State, step: Step, slot: Slot)
    requires Inv(cfg, s) && Enabled(cfg, s, step) && Claims(step, slot) && slot in s.rows
    ensures var t := Apply(cfg, s, step);
            && t.now == s.now && slot in t.rows
            && t.rows[slot].leasedUntil == Some(s.now + cfg.lease) && t.rows[slot].availableAt == s.rows[slot].availableAt
  {
    ClaimsIsTokenFor(step, slot);
    ClaimAllRows(s, step.w, cfg.lease, step.picks);
  }

  // ------------------------------------------------------------ times read off the run

  /** When the row was last claimed, unless a report or a revival ended that claim. */
  ghost function HeldSince(cfg: Config, run: seq<Step>, slot: Slot): Option<Time>
    requires IsRun(cfg, run)
    decreases |run|
  {
    if run == [] then None
    else
      var before, step := run[..|run| - 1], run[|run| - 1];
      var s := After(cfg, before);
      if Claims(step, slot) then Some(s.now)
      else if Reported(cfg, s, step, slot) || Revived(s, step, slot) then None
      else HeldSince(cfg, before, slot)
  }

  /** The latest time any report has asked the next attempt to wait for. */
  ghost function WaitUntil(cfg: Config, run: seq<Step>, slot: Slot): Time
    requires IsRun(cfg, run)
    decreases |run|
  {
    if run == [] then 0
    else
      var before, step := run[..|run| - 1], run[|run| - 1];
      var s := After(cfg, before);
      if Reported(cfg, s, step, slot) then Max(WaitUntil(cfg, before, slot), s.now + step.delay)
      else WaitUntil(cfg, before, slot)
  }

  /** What the run says about a row: its lease runs from the last claim, and it is not due before its report's time. */
  ghost predicate Timed(cfg: Config, s: State, slot: Slot, held: Option<Time>, until: Time) {
    && (slot !in s.rows ==> held == None && until == 0)
    && (slot in s.rows ==>
          var row := s.rows[slot];
          && (row.state == Pending ==> row.leasedUntil == (if held == None then None else Some(held.value + cfg.lease)))
          && (until <= s.now || (row.state == Pending && row.leaseToken == None && row.availableAt == until)))
  }

  lemma ClockForward(cfg: Config, s: State, step: Step)
    requires Enabled(cfg, s, step)
    ensures s.now <= Apply(cfg, s, step).now
  {
    if step.Claim? {
      ClaimAllRows(s, step.w, cfg.lease, step.picks);
    }
  }

  lemma ClaimTimed(cfg: Config, s: State, step: Step, slot: Slot, held: Option<Time>, until: Time)
    requires Inv(cfg, s) && Enabled(cfg, s, step) && Timed(cfg, s, slot, held, until) && Claims(step, slot) && slot in s.rows
    ensures Timed(cfg, Apply(cfg, s, step), slot, Some(s.now), until)
  {
    ClaimedRow(cfg, s, step, slot);
    ClaimedIsDue(cfg, s, step, slot);
  }

  lemma ReportTimed(cfg: Config, s: State, step: Step, slot: Slot, held: Option<Time>, until: Time)
    requires Inv(cfg, s) && Enabled(cfg, s, step) && Timed(cfg, s, slot, held, until) && Reported(cfg, s, step, slot)
    ensures Timed(cfg, Apply(cfg, s, step), slot, None, Max(until, s.now + step.delay))
  {
    RowStep(cfg, s, step, slot);
  }

  /** Every other step leaves the lease and the due time, or ends the row's being pending. */
  lemma QuietRow(cfg: Config, s: State, step: Step, slot: Slot)
    requires Inv(cfg, s) && Enabled(cfg, s, step) && slot in s.rows
    requires !(step.Claim? && TokenFor(step.picks, slot).Some?) && !Reported(cfg, s, step, slot) && !Revived(s, step, slot)
    ensures var row := RowAfter(cfg, s, step, slot);
            row == s.rows[slot] || (row.state != Pending && s.rows[slot].leaseToken.Some?)
  {
    if step.Commit? || step.CommitReplyLost? {
      assert Matches(s.rows[WorkerOf(s, step.w).phase.d.slot], WorkerOf(s, step.w).phase.d.token);
    }
  }

  lemma QuietTimed(cfg: Config, s: State, step: Step, slot: Slot, held: Option<Time>, until: Time)
    requires Inv(cfg, s) && Enabled(cfg, s, step) && Timed(cfg, s, slot, held, until) && slot in s.rows
    requires !Claims(step, slot) && !Reported(cfg, s, step, slot)
    ensures Timed(cfg, Apply(cfg, s, step), slot, if Revived(s, step, slot) then None else held, until)
  {
    if step.Claim? {
      ClaimsIsTokenFor(step, slot);
    }
    RowStep(cfg, s, step, slot);
    ClockForward(cfg, s, step);
    assert RowShape(s.rows[slot]);
    if !Revived(s, step, slot) {
      QuietRow(cfg, s, step, slot);
    }
  }

  lemma NewTimed(cfg: Config, s: State, step: Step, slot: Slot)
    requires Inv(cfg, s) && Enabled(cfg, s, step) && slot !in s.rows
    ensures !Claims(step, slot) && !Reported(cfg, s, step, slot) && !Revived(s, step, slot)
    ensures Timed(cfg, Apply(cfg, s, step), slot, None, 0)
  {
    if step.Claim? {
      NotPicked(cfg, s, step, slot);
      ClaimsIsTokenFor(step, slot);
    }
    if slot in Apply(cfg, s, step).rows {
      NewRowsAreFresh(cfg, s, step, slot);
    }
  }

  lemma {:induction false} RunTimed(cfg: Config, run: seq<Step>, slot: Slot)
    requires IsRun(cfg, run)
    ensures Timed(cfg, After(cfg, run), slot, HeldSince(cfg, run, slot), WaitUntil(cfg, run, slot))
    decreases |run|
  {
    if run != [] {
      var before, step := run[..|run| - 1], run[|run| - 1];
      var s := After(cfg, before);
      var held, until := HeldSince(cfg, before, slot), WaitUntil(cfg, before, slot);
      RunTimed(cfg, before, slot);
      RunInv(cfg, before);
      if slot !in s.rows {
        NewTimed(cfg, s, step, slot);
      } else if Claims(step, slot) {
        ClaimTimed(cfg, s, step, slot, held, until);
      } else if Reported(cfg, s, step, slot) {
        ReportTimed(cfg, s, step, slot, held, until);
      } else {
        QuietTimed(cfg, s, step, slot, held, until);
      }
    }
  }

  /**
   * Leases exclude: a row claimed at some time, with no effective failure report and no revival
   * since, is not claimed again until the clock has passed that time by more than the lease.
   */
  lemma LeaseRunsOutFirst(cfg: Config, run: seq<Step>, again: Step, slot: Slot)
    requires IsRun(cfg, run) && Enabled(cfg, After(cfg, run), again) && Claims(again, slot)
    requires HeldSince(cfg, run, slot).Some?
    ensures After(cfg, run).now > HeldSince(cfg, run, slot).value + cfg.lease
  {
    RunTimed(cfg, run, slot);
    ClaimedIsDue(cfg, After(cfg, run), again, slot);
  }

  /** Backoff holds: no claim comes before the time that any earlier report of the row asked for. */
  lemma BackoffIsWaitedOut(cfg: Config, run: seq<Step>, again: Step, slot: Slot)
    requires IsRun(cfg, run) && Enabled(cfg, After(cfg, run), again) && Claims(again, slot)
    ensures After(cfg, run).now >= WaitUntil(cfg, run, slot)
  {
    RunTimed(cfg, run, slot);
    ClaimedIsDue(cfg, After(cfg, run), again, slot);
  }

  /** When the row is due: as its transaction began, as the last report asked, or as it was last revived. */
  ghost function DueAt(cfg: Config, run: seq<Step>, slot: Slot): Time
    requires IsRun(cfg, run)
    decreases |run|
  {
    if run == [] then 0
    else
      var before, step := run[..|run| - 1], run[|run| - 1];
      var s := After(cfg, before);
      if slot !in s.rows then
        match step
        case CommitProduce(w) => WorkerOf(s, w).phase.tx.startedAt
        case Commit(w) => WorkerOf(s, w).phase.tx.startedAt
        case CommitReplyLost(w) => WorkerOf(s, w).phase.tx.startedAt
        case _ => 0
      else if Reported(cfg, s, step, slot) then s.now + step.delay
      else if Revived(s, step, slot) then s.now
      else DueAt(cfg, before, slot)
  }

  lemma {:induction false} AvailableExactly(cfg: Config, run: seq<Step>, slot: Slot)
    requires IsRun(cfg, run) && slot in After(cfg, run).rows
    ensures After(cfg, run).rows[slot].availableAt == DueAt(cfg, run, slot)
    decreases |run|
  {
    var before, step := run[..|run| - 1], run[|run| - 1];
    var s := After(cfg, before);
    RunInv(cfg, before);
    if slot in s.rows {
      AvailableExactly(cfg, before, slot);
      RowStep(cfg, s, step, slot);
      DueStep(cfg, s, step, slot);
    } else {
      NewRowDue(cfg, s, step, slot);
    }
  }

  lemma DueStep(cfg: Config, s: State, step: Step, slot: Slot)
    requires Enabled(cfg, s, step) && slot in s.rows
    ensures RowAfter(cfg, s, step, slot).availableAt ==
            if Reported(cfg, s, step, slot) then s.now + step.delay
            else if Revived(s, step, slot) then s.now
            else s.rows[slot].availableAt
  {
  }

  /** A new row is due as the transaction that brought it began. */
  lemma NewRowDue(cfg: Config, s: State, step: Step, slot: Slot)
    requires Inv(cfg, s) && Enabled(cfg, s, step) && slot !in s.rows && slot in Apply(cfg, s, step).rows
    ensures step.CommitProduce? || step.Commit? || step.CommitReplyLost?
    ensures Apply(cfg, s, step).rows[slot].availableAt == WorkerOf(s, step.w).phase.tx.startedAt
  {
    if step.Claim? {
      ClaimAllRows(s, step.w, cfg.lease, step.picks);
    }
  }

  // ------------------------------------------------------------ the columns no guard reads

  /** A delivery that carries the lease the row still has. */
  ghost predicate HoldsLease(s: State, d: Delivery, slot: Slot) {
    d.slot == slot && slot in s.rows && s.rows[slot].state == Pending && s.rows[slot].leaseToken == Some(d.token)
  }

  /** A worker gives up on the row: it reports a failure, or parks a message it cannot read. */
  ghost predicate GivesUp(s: State, step: Step, slot: Slot) {
    match step
    case RecordFailure(w, _, _) => WorkerOf(s, w).phase.Failing? && HoldsLease(s, WorkerOf(s, w).phase.d, slot)
    case ParkUndecodable(w, i, _) => i < |WorkerOf(s, w).queue| && HoldsLease(s, WorkerOf(s, w).queue[i], slot)
    case _ => false
  }

  /** The commit of the delivery's acknowledgement. */
  ghost predicate Completes(s: State, step: Step, slot: Slot) {
    (step.Commit? || step.CommitReplyLost?) && WorkerOf(s, step.w).phase.Acked? && WorkerOf(s, step.w).phase.d.slot == slot
  }

  /** When the row was last claimed, what its last failure said, and when the transaction that completed it began. */
  datatype Notes = Notes(attemptAt: Option<Time>, error: Option<string>, doneAt: Option<Time>)

  ghost function NotesOf(cfg: Config, run: seq<Step>, slot: Slot): Notes
    requires IsRun(cfg, run)
    decreases |run|
  {
    if run == [] then Notes(None, None, None)
    else
      var before, step := run[..|run| - 1], run[|run| - 1];
      var s, notes := After(cfg, before), NotesOf(cfg, before, slot);
      if Claims(step, slot) then notes.(attemptAt := Some(s.now))
      else if GivesUp(s, step, slot) then notes.(error := Some(step.error))
      else if Completes(s, step, slot) then notes.(error := None, doneAt := Some(WorkerOf(s, step.w).phase.tx.startedAt))
      else if Revived(s, step, slot) then notes.(error := None)
      else notes
  }

  ghost function NotesIn(row: Row): Notes {
    Notes(row.lastAttemptAt, row.lastError, row.doneAt)
  }

  lemma NotesStep(cfg: Config, s: State, step: Step, slot: Slot)
    requires Inv(cfg, s) && Enabled(cfg, s, step) && slot in s.rows && !step.Claim?
    ensures NotesIn(RowAfter(cfg, s, step, slot)) ==
            var notes := NotesIn(s.rows[slot]);
            if GivesUp(s, step, slot) then notes.(error := Some(step.error))
            else if Completes(s, step, slot) then notes.(error := None, doneAt := Some(WorkerOf(s, step.w).phase.tx.startedAt))
            else if Revived(s, step, slot) then notes.(error := None)
            else notes
  {
  }

  lemma ClaimNotes(cfg: Config, s: State, step: Step, slot: Slot)
    requires Inv(cfg, s) && Enabled(cfg, s, step) && slot in s.rows && step.Claim?
    ensures NotesIn(RowAfter(cfg, s, step, slot)) ==
            if Claims(step, slot) then NotesIn(s.rows[slot]).(attemptAt := Some(s.now)) else NotesIn(s.rows[slot])
  {
    ClaimsIsTokenFor(step, slot);
  }

  /** In every run the three columns say exactly what happened last. */
  lemma {:induction false} NotesExactly(cfg: Config, run: seq<Step>, slot: Slot)
    requires IsRun(cfg, run)
    ensures slot in After(cfg, run).rows ==> NotesIn(After(cfg, run).rows[slot]) == NotesOf(cfg, run, slot)
    ensures slot !in After(cfg, run).rows ==> NotesOf(cfg, run, slot) == Notes(None, None, None)
    decreases |run|
  {
    if run != [] {
      var before, step := run[..|run| - 1], run[|run| - 1];
      var s := After(cfg, before);
      NotesExactly(cfg, before, slot);
      RunInv(cfg, before);
      if slot in s.rows {
        RowStep(cfg, s, step, slot);
        if step.Claim? {
          ClaimNotes(cfg, s, step, slot);
        } else {
          NotesStep(cfg, s, step, slot);
        }
      } else {
        NewTimed(cfg, s, step, slot);
        NewNotes(cfg, s, step, slot);
      }
    }
  }

  lemma NewNotes(cfg: Config, s: State, step: Step, slot: Slot)
    requires Inv(cfg, s) && Enabled(cfg, s, step) && slot !in s.rows
    ensures !GivesUp(s, step, slot) && !Completes(s, step, slot)
    ensures slot in Apply(cfg, s, step).rows ==> NotesIn(Apply(cfg, s, step).rows[slot]) == Notes(None, None, None)
  {
    if slot in Apply(cfg, s, step).rows {
      NewRowsAreFresh(cfg, s, step, slot);
    }
  }
}
