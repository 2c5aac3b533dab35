/** No reachable state of the bus strands a delivery. */
module BusProgress {
  import opened Prelude
  import opened BusContracts
  import opened Bus
  import opened BusInvariant
  import opened BusRuns

  lemma {:induction false} UnusedNumber(used: set<nat>) returns (n: nat)
    ensures forall x :: x in used ==> x < n
    ensures n !in used
  {
    if used == {} {
      n := 0;
    } else {
      var x :| x in used;
      var m := UnusedNumber(used - {x});
      n := Max(m, x + 1);
      assert forall y :: y in used ==> y == x || y in used - {x};
    }
  }

  lemma Extend(cfg: Config, run: seq<Step>, step: Step)
    requires IsRun(cfg, run) && Enabled(cfg, After(cfg, run), step)
    ensures IsRun(cfg, run + [step])
    ensures After(cfg, run + [step]) == Apply(cfg, After(cfg, run), step)
  {
    assert (run + [step])[..|run|] == run;
  }

  /** The first moment at which the row's availability and lease are both past. */
  function ClaimableFrom(row: Row): Time {
    if row.leasedUntil.Some? then Max(row.availableAt, row.leasedUntil.value + 1) else row.availableAt
  }

  ghost predicate ClaimedBy(cfg: Config, s: State, t: State, slot: Slot, w: WorkerId) {
    && slot in s.rows && slot in t.rows && t.rows[slot].attemptCount == s.rows[slot].attemptCount + 1
    && WorkerOf(t, w).phase.Idle? && |WorkerOf(t, w).queue| == 1
    && WorkerOf(t, w).queue[0].slot == slot
    && Matches(t.rows[slot], WorkerOf(t, w).queue[0].token)
    && t.log == s.log && Unlocked(t, slot) && w !in s.workers
  }

  /** Letting the clock run makes an unlocked pending row claimable. */
  lemma WaitUntilClaimable(cfg: Config, run: seq<Step>, slot: Slot) returns (wait: Step)
    requires IsRun(cfg, run) && slot in After(cfg, run).rows
    requires After(cfg, run).rows[slot].state == Pending && Unlocked(After(cfg, run), slot)
    ensures wait.Tick? && IsRun(cfg, run + [wait])
    ensures var s, t := After(cfg, run), After(cfg, run + [wait]);
            && t == s.(now := Max(s.now, ClaimableFrom(s.rows[slot]))) && Unlocked(t, slot) && Claimable(t.rows[slot], t.now)
  {
    var s := After(cfg, run);
    wait := Tick(Max(ClaimableFrom(s.rows[slot]) - s.now, 0));
    Extend(cfg, run, wait);
    var t := After(cfg, run + [wait]);
    forall v
      ensures !LockedBy(t, v, slot)
    {
      assert !LockedBy(s, v, slot);
    }
  }

  /** A claimable unlocked row can be taken by a worker nobody has used. */
  lemma ClaimIt(cfg: Config, run: seq<Step>, slot: Slot) returns (claim: Step, w: WorkerId)
    requires IsRun(cfg, run) && cfg.batchSize >= 1
    requires var s := After(cfg, run);
             && slot in s.rows && slot.id in s.log && Claimable(s.rows[slot], s.now) && Unlocked(s, slot)
    ensures IsRun(cfg, run + [claim])
    ensures claim.Claim? && ClaimedBy(cfg, After(cfg, run), After(cfg, run + [claim]), slot, w)
    ensures forall v :: v != w ==> WorkerOf(After(cfg, run + [claim]), v) == WorkerOf(After(cfg, run), v)
  {
    var s := After(cfg, run);
    w := UnusedNumber(s.workers.Keys);
    var token := UnusedNumber(s.issued.Keys);
    var pick := Pick(slot, token);
    claim := Claim(w, slot.consumer, s.log[slot.id].topic, [pick]);
    assert PickOk(cfg, s, slot.consumer, s.log[slot.id].topic, pick);
    Extend(cfg, run, claim);
    var t := After(cfg, run + [claim]);
    assert t == ClaimOne(s, w, cfg.lease, pick) by {
      assert [pick][1..] == [];
      assert ClaimAll(s, w, cfg.lease, [pick]) == ClaimAll(ClaimOne(s, w, cfg.lease, pick), w, cfg.lease, []);
    }
    forall v
      ensures !LockedBy(t, v, slot)
    {
      assert !LockedBy(s, v, slot);
    }
  }

  /**
   * Every unlocked pending row becomes claimable once the clock passes its
   * availability and lease times, and some idle worker can take it at that
   * first moment.
   */
  lemma PendingBecomesClaimable(cfg: Config, run: seq<Step>, slot: Slot) returns (more: seq<Step>, w: WorkerId)
    requires IsRun(cfg, run) && cfg.batchSize >= 1
    requires slot in After(cfg, run).rows && After(cfg, run).rows[slot].state == Pending && Unlocked(After(cfg, run), slot)
    ensures IsRun(cfg, run + more)
    ensures ClaimedBy(cfg, After(cfg, run), After(cfg, run + more), slot, w)
    ensures |more| == 2 && more[0].Tick? && more[1].Claim?
    ensures var s, now := After(cfg, run), After(cfg, run + [more[0]]).now;
            now == Max(s.now, Max(s.rows[slot].availableAt, if s.rows[slot].leasedUntil.Some? then s.rows[slot].leasedUntil.value + 1 else 0))
    ensures forall v :: v != w ==> WorkerOf(After(cfg, run + more), v) == WorkerOf(After(cfg, run), v)
  {
    assert slot.id in After(cfg, run).log by {
      RunInv(cfg, run);
    }
    var wait := WaitUntilClaimable(cfg, run, slot);
    var claim;
    claim, w := ClaimIt(cfg, run + [wait], slot);
    more := [wait] + [claim];
    assert run + more == run + [wait] + [claim];
    assert forall v :: WorkerOf(After(cfg, run + [wait]), v) == WorkerOf(After(cfg, run), v);
  }

  /** An open acknowledgement can commit. */
  lemma AckedCanCommit(cfg: Config, run: seq<Step>, slot: Slot, w: WorkerId)
    requires IsRun(cfg, run) && LockedBy(After(cfg, run), w, slot)
    ensures IsRun(cfg, run + [Commit(w)])
    ensures slot in After(cfg, run + [Commit(w)]).rows && After(cfg, run + [Commit(w)]).rows[slot].state == Done
  {
    var s := After(cfg, run);
    RunInv(cfg, run);
    assert slot in s.rows;
    Extend(cfg, run, Commit(w));
    RowStep(cfg, s, Commit(w), slot);
  }

  /** A worker handling a delivery under a live lease can acknowledge it. */
  lemma HandlingCanAck(cfg: Config, run: seq<Step>, slot: Slot, w: WorkerId)
    requires IsRun(cfg, run)
    requires var s := After(cfg, run);
             && slot in s.rows && Unlocked(s, slot)
             && WorkerOf(s, w).phase.Handling? && WorkerOf(s, w).phase.d.slot == slot
             && Matches(s.rows[slot], WorkerOf(s, w).phase.d.token)
    ensures IsRun(cfg, run + [Ack(w)]) && LockedBy(After(cfg, run + [Ack(w)]), w, slot)
  {
    Extend(cfg, run, Ack(w));
  }

  /** A worker with one delivery in its queue can begin to handle it. */
  lemma ClaimedCanBegin(cfg: Config, run: seq<Step>, slot: Slot, w: WorkerId)
    requires IsRun(cfg, run)
    requires var s := After(cfg, run);
             && slot in s.rows && slot.id in s.log && Decodes(cfg, s.log[slot.id]) && Unlocked(s, slot)
             && WorkerOf(s, w).phase.Idle? && |WorkerOf(s, w).queue| == 1
             && WorkerOf(s, w).queue[0].slot == slot && Matches(s.rows[slot], WorkerOf(s, w).queue[0].token)
    ensures IsRun(cfg, run + [Begin(w)])
    ensures var t := After(cfg, run + [Begin(w)]);
            && slot in t.rows && Unlocked(t, slot) && WorkerOf(t, w).phase.Handling?
            && WorkerOf(t, w).phase.d.slot == slot && Matches(t.rows[slot], WorkerOf(t, w).phase.d.token)
  {
    var s := After(cfg, run);
    assert forall d :: d in WorkerOf(s, w).queue ==> d == WorkerOf(s, w).queue[0];
    Extend(cfg, run, Begin(w));
    var t := After(cfg, run + [Begin(w)]);
    forall v
      ensures !LockedBy(t, v, slot)
    {
      assert !LockedBy(s, v, slot);
      assert v != w ==> WorkerOf(t, v) == WorkerOf(s, v);
    }
  }

  /** A delivery just claimed by an otherwise idle worker can be handled and committed. */
  lemma ClaimedCanFinish(cfg: Config, run: seq<Step>, slot: Slot, w: WorkerId) returns (more: seq<Step>)
    requires IsRun(cfg, run)
    requires var s := After(cfg, run);
             && slot in s.rows && slot.id in s.log && Decodes(cfg, s.log[slot.id]) && Unlocked(s, slot)
             && WorkerOf(s, w).phase.Idle? && |WorkerOf(s, w).queue| == 1
             && WorkerOf(s, w).queue[0].slot == slot && Matches(s.rows[slot], WorkerOf(s, w).queue[0].token)
    ensures IsRun(cfg, run + more)
    ensures slot in After(cfg, run + more).rows && After(cfg, run + more).rows[slot].state == Done
  {
    ClaimedCanBegin(cfg, run, slot, w);
    HandlingCanAck(cfg, run + [Begin(w)], slot, w);
    AckedCanCommit(cfg, run + [Begin(w)] + [Ack(w)], slot, w);
    more := [Begin(w)] + [Ack(w)] + [Commit(w)];
    assert run + more == run + [Begin(w)] + [Ack(w)] + [Commit(w)];
  }

  lemma PendingCanFinish(cfg: Config, run: seq<Step>, slot: Slot) returns (more: seq<Step>)
    requires IsRun(cfg, run) && cfg.batchSize >= 1
    requires var s := After(cfg, run);
             && slot in s.rows && s.rows[slot].state == Pending && Unlocked(s, slot)
             && slot.id in s.log && Decodes(cfg, s.log[slot.id])
    ensures IsRun(cfg, run + more)
    ensures slot in After(cfg, run + more).rows && After(cfg, run + more).rows[slot].state == Done
  {
    var first, w := PendingBecomesClaimable(cfg, run, slot);
    var rest := ClaimedCanFinish(cfg, run + first, slot, w);
    more := first + rest;
    assert run + more == run + first + rest;
  }

  /** A dead row is nobody's: revival makes it pending and unlocked. */
  lemma RevivedIsPending(cfg: Config, run: seq<Step>, slot: Slot)
    requires IsRun(cfg, run) && slot in After(cfg, run).rows && After(cfg, run).rows[slot].state == Dead
    ensures IsRun(cfg, run + [Revive(slot)])
    ensures var t := After(cfg, run + [Revive(slot)]);
            && slot in t.rows && t.rows[slot].state == Pending && t.rows[slot].attemptCount == 0
            && Unlocked(t, slot) && t.log == After(cfg, run).log
  {
    var s := After(cfg, run);
    RunInv(cfg, run);
    forall v
      ensures !LockedBy(s, v, slot)
    {
      var p := WorkerOf(s, v).phase;
      assert p.Acked? ==> p.d.slot in s.rows && Matches(s.rows[p.d.slot], p.d.token);
    }
    Extend(cfg, run, Revive(slot));
    var t := After(cfg, run + [Revive(slot)]);
    forall v
      ensures !LockedBy(t, v, slot)
    {
      assert WorkerOf(t, v) == WorkerOf(s, v);
    }
  }

  /**
   * From every reachable state, whatever has crashed, expired, failed or been
   * dead-lettered, every decodable delivery still has a continuation that
   * completes it.
   */
  lemma AlwaysCompletable(cfg: Config, run: seq<Step>, slot: Slot) returns (more: seq<Step>)
    requires IsRun(cfg, run) && cfg.batchSize >= 1
    requires slot in After(cfg, run).rows && slot.id in After(cfg, run).log
    requires Decodes(cfg, After(cfg, run).log[slot.id])
    ensures IsRun(cfg, run + more)
    ensures slot in After(cfg, run + more).rows && After(cfg, run + more).rows[slot].state == Done
  {
    var s := After(cfg, run);
    if s.rows[slot].state == Done {
      more := [];
      assert run + more == run;
    } else if s.rows[slot].state == Dead {
      RevivedIsPending(cfg, run, slot);
      var rest := PendingCanFinish(cfg, run + [Revive(slot)], slot);
      more := [Revive(slot)] + rest;
      assert run + more == run + [Revive(slot)] + rest;
    } else if Unlocked(s, slot) {
      more := PendingCanFinish(cfg, run, slot);
    } else {
      var v :| LockedBy(s, v, slot);
      AckedCanCommit(cfg, run, slot, v);
      more := [Commit(v)];
    }
  }

  /** A worker that dies before acknowledging leaves its row as it is and unlocked. */
  lemma CrashLeavesRow(cfg: Config, run: seq<Step>, slot: Slot, w: WorkerId)
    requires IsRun(cfg, run) && slot in After(cfg, run).rows && Unlocked(After(cfg, run), slot)
    ensures IsRun(cfg, run + [Crash(w)])
    ensures var t := After(cfg, run + [Crash(w)]);
            slot in t.rows && t.rows[slot] == After(cfg, run).rows[slot] && Unlocked(t, slot)
  {
    var s := After(cfg, run);
    Extend(cfg, run, Crash(w));
    var t := After(cfg, run + [Crash(w)]);
    forall v
      ensures !LockedBy(t, v, slot)
    {
      assert !LockedBy(s, v, slot);
      assert v != w ==> WorkerOf(t, v) == WorkerOf(s, v);
    }
  }

  /**
   * The attempt limit bounds recorded failures, not claims: workers that die
   * before reporting can push a pending row past any count.
   */
  lemma {:induction false} UnreportedAttemptsUnbounded(cfg: Config, run: seq<Step>, slot: Slot, n: nat) returns (more: seq<Step>)
    requires IsRun(cfg, run) && cfg.batchSize >= 1
    requires slot in After(cfg, run).rows && After(cfg, run).rows[slot].state == Pending && Unlocked(After(cfg, run), slot)
    ensures IsRun(cfg, run + more)
    ensures var t := After(cfg, run + more);
            && slot in t.rows && t.rows[slot].state == Pending && Unlocked(t, slot)
            && t.rows[slot].attemptCount == After(cfg, run).rows[slot].attemptCount + n
    decreases n
  {
    if n == 0 {
      more := [];
      assert run + more == run;
    } else {
      var first, w := PendingBecomesClaimable(cfg, run, slot);
      var claimed := run + first;
      CrashLeavesRow(cfg, claimed, slot, w);
      var rest := UnreportedAttemptsUnbounded(cfg, claimed + [Crash(w)], slot, n - 1);
      more := first + [Crash(w)] + rest;
      Regroup(run, first, [Crash(w)], rest);
    }
  }
}
