/** Theorems about whole runs of the bus. */
module BusRuns {
  import opened Prelude
  import opened BusContracts
  import opened Bus
  import opened BusInvariant

  // ------------------------------------------------------------ one row, one step

  /** The token a claim gave to `slot`, if it picked it. */
  function TokenFor(picks: seq<Pick>, slot: Slot): Option<Token> {
    if picks == [] then None
    else if picks[0].slot == slot then Some(picks[0].token)
    else TokenFor(picks[1..], slot)
  }

  /** What one step does to one existing row, read without the rest of the state. */
  ghost function RowAfter(cfg: Config, s: State, step: Step, slot: Slot): Row
    requires Enabled(cfg, s, step) && slot in s.rows
  {
    var row := s.rows[slot];
    match step
    case Claim(_, _, _, picks) =>
      var token := TokenFor(picks, slot);
      if token.Some? then ClaimRow(row, token.value, s.now, cfg.lease) else row
    case ParkUndecodable(w, i, error) =>
      var d := WorkerOf(s, w).queue[i];
      if d.slot == slot then ParkRow(row, d.token, error) else row
    case Commit(w) =>
      if WorkerOf(s, w).phase.d.slot == slot then AckRow(row, WorkerOf(s, w).phase.tx.startedAt) else row
    case CommitReplyLost(w) =>
      if WorkerOf(s, w).phase.d.slot == slot then AckRow(row, WorkerOf(s, w).phase.tx.startedAt) else row
    case RecordFailure(w, delay, error) =>
      var p := WorkerOf(s, w).phase;
      if p.d.slot == slot then FailRow(cfg.maxAttempts, row, p.d, p.permanent, s.now + delay, error) else row
    case Revive(k) => if k == slot then ReviveRow(row, s.now) else row
    case _ => row
  }

  lemma {:induction false} ClaimAllRows(s: State, w: WorkerId, lease: nat, picks: seq<Pick>)
    requires forall i :: 0 <= i < |picks| ==> picks[i].slot in s.rows
    requires forall i, j :: 0 <= i < j < |picks| ==> picks[i].slot != picks[j].slot
    ensures var t := ClaimAll(s, w, lease, picks);
            && t.rows.Keys == s.rows.Keys && t.log == s.log && t.effects == s.effects && t.now == s.now
            && (forall v :: v != w ==> WorkerOf(t, v) == WorkerOf(s, v))
            && WorkerOf(t, w).phase == WorkerOf(s, w).phase
    ensures forall k :: k in s.rows ==>
                          ClaimAll(s, w, lease, picks).rows[k] ==
                          (if TokenFor(picks, k).Some? then ClaimRow(s.rows[k], TokenFor(picks, k).value, s.now, lease) else s.rows[k])
    decreases picks
  {
    if picks != [] {
      var m := ClaimOne(s, w, lease, picks[0]);
      ClaimAllRows(m, w, lease, picks[1..]);
      TokenForAbsent(picks[1..], picks[0].slot);
      forall k | k in s.rows
        ensures ClaimAll(s, w, lease, picks).rows[k] ==
                (if TokenFor(picks, k).Some? then ClaimRow(s.rows[k], TokenFor(picks, k).value, s.now, lease) else s.rows[k])
      {
        assert ClaimAll(s, w, lease, picks) == ClaimAll(m, w, lease, picks[1..]);
        assert k in m.rows;
      }
    }
  }

  lemma {:induction false} TokenForAbsent(picks: seq<Pick>, slot: Slot)
    ensures TokenFor(picks, slot).None? <==> forall i :: 0 <= i < |picks| ==> picks[i].slot != slot
    ensures TokenFor(picks, slot).Some? ==>
              exists i :: 0 <= i < |picks| && picks[i] == Pick(slot, TokenFor(picks, slot).value)
  {
    if picks != [] {
      TokenForAbsent(picks[1..], slot);
      assert forall i :: 0 <= i < |picks| - 1 ==> picks[1..][i] == picks[i + 1];
      if picks[0].slot == slot {
        assert picks[0] == Pick(slot, TokenFor(picks, slot).value);
      } else if TokenFor(picks, slot).Some? {
        var i :| 0 <= i < |picks[1..]| && picks[1..][i] == Pick(slot, TokenFor(picks, slot).value);
        assert picks[i + 1] == Pick(slot, TokenFor(picks, slot).value);
      }
    }
  }

  /** Publishing leaves existing rows alone. */
  lemma PublishingRow(cfg: Config, s: State, tx: Tx, slot: Slot)
    requires slot in s.rows && slot.id !in tx.inserted
    ensures slot in Publishing(cfg, s, tx).rows && Publishing(cfg, s, tx).rows[slot] == s.rows[slot]
  {
  }

  lemma CommittedRow(cfg: Config, s: State, d: Delivery, tx: Tx, slot: Slot)
    requires slot in s.rows && d.slot in s.rows && slot.id !in tx.inserted
    ensures slot in Committed(cfg, s, d, tx).rows
    ensures Committed(cfg, s, d, tx).rows[slot] == (if d.slot == slot then AckRow(s.rows[slot], tx.startedAt) else s.rows[slot])
  {
    var m := s.(rows := s.rows[d.slot := AckRow(s.rows[d.slot], tx.startedAt)],
                effects := s.effects + [Effect(d.slot, d.token, tx.writes)]);
    PublishingRow(cfg, m, tx, slot);
  }

  lemma RowStepFrom(cfg: Config, s: State, step: Step, slot: Slot)
    requires Enabled(cfg, s, step) && slot in s.rows
    requires forall w :: slot.id !in InsertedBy(s, w)
    ensures slot in Apply(cfg, s, step).rows
    ensures Apply(cfg, s, step).rows[slot] == RowAfter(cfg, s, step, slot)
  {
    match step {
      case Claim(w, _, _, picks) => ClaimAllRows(s, w, cfg.lease, picks);
      case CommitProduce(_) => CommitRow(cfg, s, step, slot);
      case Commit(_) => CommitRow(cfg, s, step, slot);
      case CommitReplyLost(_) => CommitRow(cfg, s, step, slot);
      case _ =>
    }
  }

  lemma CommitRow(cfg: Config, s: State, step: Step, slot: Slot)
    requires Enabled(cfg, s, step) && slot in s.rows && (step.CommitProduce? || step.Commit? || step.CommitReplyLost?)
    requires slot.id !in InsertedBy(s, step.w)
    ensures slot in Apply(cfg, s, step).rows
    ensures Apply(cfg, s, step).rows[slot] == RowAfter(cfg, s, step, slot)
  {
    var p := WorkerOf(s, step.w).phase;
    if step.CommitProduce? {
      PublishingRow(cfg, s, p.tx, slot);
    } else {
      CommittedRow(cfg, s, p.d, p.tx, slot);
    }
  }

  /** The step system changes rows exactly as `RowAfter` says, and never drops one. */
  lemma RowStep(cfg: Config, s: State, step: Step, slot: Slot)
    requires Inv(cfg, s) && Enabled(cfg, s, step) && slot in s.rows
    ensures slot in Apply(cfg, s, step).rows
    ensures Apply(cfg, s, step).rows[slot] == RowAfter(cfg, s, step, slot)
  {
    forall w
      ensures slot.id !in InsertedBy(s, w)
    {
      assert Apart(s.log, InsertedBy(s, w));
    }
    RowStepFrom(cfg, s, step, slot);
  }

  /** Steps add at most one effect, and only a commit of an open acknowledgement does. */
  lemma EffectStep(cfg: Config, s: State, step: Step)
    requires Inv(cfg, s) && Enabled(cfg, s, step)
    ensures var t := Apply(cfg, s, step);
            if step.Commit? || step.CommitReplyLost?
            then t.effects == s.effects + [Effect(WorkerOf(s, step.w).phase.d.slot, WorkerOf(s, step.w).phase.d.token,
                                                  WorkerOf(s, step.w).phase.tx.writes)]
            else t.effects == s.effects
  {
    if step.Claim? {
      ClaimAllRows(s, step.w, cfg.lease, step.picks);
    }
  }

  // ------------------------------------------------------------ induction over extensions

  /** The state before the last step of an extension, and that step. */
  lemma LastStep(cfg: Config, run: seq<Step>, more: seq<Step>)
    requires IsRun(cfg, run + more) && more != []
    ensures IsRun(cfg, run + more[..|more| - 1])
    ensures Enabled(cfg, After(cfg, run + more[..|more| - 1]), more[|more| - 1])
    ensures After(cfg, run + more) == Apply(cfg, After(cfg, run + more[..|more| - 1]), more[|more| - 1])
  {
    var all := run + more;
    assert all[..|all| - 1] == run + more[..|more| - 1];
    assert all[|all| - 1] == more[|more| - 1];
  }

  // ------------------------------------------------------------ at most once, exactly when done

  /** How often handler writes for `slot` have been committed. */
  function CommitsFor(effects: seq<Effect>, slot: Slot): nat {
    if effects == [] then 0
    else CommitsFor(effects[..|effects| - 1], slot) + (if effects[|effects| - 1].slot == slot then 1 else 0)
  }

  lemma {:induction false} CommitsCounted(effects: seq<Effect>, slot: Slot)
    requires forall i, j :: 0 <= i < j < |effects| ==> effects[i].slot != effects[j].slot
    ensures CommitsFor(effects, slot) == (if exists i :: 0 <= i < |effects| && effects[i].slot == slot then 1 else 0)
  {
    if effects != [] {
      var init := effects[..|effects| - 1];
      CommitsCounted(init, slot);
      assert forall i :: 0 <= i < |init| ==> init[i] == effects[i];
    }
  }

  /**
   * In every interleaving of claims, expiries, crashes, aborts, lost commit
   * replies, failures and revivals, a delivery's handler writes are committed
   * once when its row is done and never otherwise.
   */
  lemma CommittedExactlyWhenDone(cfg: Config, run: seq<Step>, slot: Slot)
    requires IsRun(cfg, run) && slot in After(cfg, run).rows
    ensures CommitsFor(After(cfg, run).effects, slot) == (if After(cfg, run).rows[slot].state == Done then 1 else 0)
  {
    RunInv(cfg, run);
    CommitsCounted(After(cfg, run).effects, slot);
    assert HasEffect(After(cfg, run), slot) <==> After(cfg, run).rows[slot].state == Done;
  }

  /** Handler writes never appear for a row the log does not know. */
  lemma NothingCommittedOffTheLog(cfg: Config, run: seq<Step>, slot: Slot)
    requires IsRun(cfg, run) && slot !in After(cfg, run).rows
    ensures CommitsFor(After(cfg, run).effects, slot) == 0
  {
    RunInv(cfg, run);
    CommitsCounted(After(cfg, run).effects, slot);
  }

  /** No step changes a done row: claims skip it, and no lease matches it. */
  lemma DoneStays(cfg: Config, s: State, step: Step, slot: Slot)
    requires Inv(cfg, s) && Enabled(cfg, s, step) && slot in s.rows && s.rows[slot].state == Done
    ensures RowAfter(cfg, s, step, slot) == s.rows[slot]
  {
    if step.Claim? {
      DoneNotPicked(cfg, s, step, slot);
    } else if step.Commit? || step.CommitReplyLost? {
      assert Matches(s.rows[WorkerOf(s, step.w).phase.d.slot], WorkerOf(s, step.w).phase.d.token);
    }
  }

  lemma DoneNotPicked(cfg: Config, s: State, step: Step, slot: Slot)
    requires step.Claim? && Enabled(cfg, s, step) && slot in s.rows && s.rows[slot].state == Done
    ensures TokenFor(step.picks, slot).None?
  {
    TokenForAbsent(step.picks, slot);
    forall i | 0 <= i < |step.picks|
      ensures step.picks[i].slot != slot
    {
      assert PickOk(cfg, s, step.consumer, step.topic, step.picks[i]);
    }
  }

  /** Done is final: no continuation changes the row, or commits for it again. */
  lemma {:induction false} DoneIsFinal(cfg: Config, run: seq<Step>, more: seq<Step>, slot: Slot)
    requires IsRun(cfg, run) && IsRun(cfg, run + more)
    requires slot in After(cfg, run).rows && After(cfg, run).rows[slot].state == Done
    ensures slot in After(cfg, run + more).rows
    ensures After(cfg, run + more).rows[slot] == After(cfg, run).rows[slot]
    ensures CommitsFor(After(cfg, run + more).effects, slot) == 1
    decreases |more|
  {
    if more == [] {
      assert run + more == run;
    } else {
      LastStep(cfg, run, more);
      var before := run + more[..|more| - 1];
      DoneIsFinal(cfg, run, more[..|more| - 1], slot);
      RunInv(cfg, before);
      var s, step := After(cfg, before), more[|more| - 1];
      RowStep(cfg, s, step, slot);
      DoneStays(cfg, s, step, slot);
    }
    CommittedExactlyWhenDone(cfg, run + more, slot);
  }

  // ------------------------------------------------------------ fencing

  /** In every reachable state at most one claim in the system holds a row's current token. */
  lemma OneHolder(cfg: Config, run: seq<Step>, slot: Slot, v: WorkerId, i: nat, w: WorkerId, j: nat)
    requires IsRun(cfg, run)
    requires var s := After(cfg, run);
             && slot in s.rows && s.rows[slot].leaseToken.Some?
             && i < |HeldBy(s, v)| && HeldBy(s, v)[i].token == s.rows[slot].leaseToken.value
             && j < |HeldBy(s, w)| && HeldBy(s, w)[j].token == s.rows[slot].leaseToken.value
    ensures v == w && i == j
    ensures HeldBy(After(cfg, run), v)[i] == Delivery(slot, After(cfg, run).rows[slot].leaseToken.value, After(cfg, run).rows[slot].attemptCount)
  {
    var s := After(cfg, run);
    RunInv(cfg, run);
    assert IssuedTo(s, v, HeldBy(s, v)[i]) && IssuedTo(s, w, HeldBy(s, w)[j]);
    assert LeaseIssued(s, slot);
  }

  /** The lease `t` once granted on its row is no longer the row's lease. */
  ghost predicate Superseded(s: State, t: Token) {
    && t in s.issued
    && s.issued[t].delivery.slot in s.rows
    && s.rows[s.issued[t].delivery.slot].leaseToken != Some(t)
  }

  function CommitsUnder(effects: seq<Effect>, t: Token): nat {
    if effects == [] then 0
    else CommitsUnder(effects[..|effects| - 1], t) + (if effects[|effects| - 1].token == t then 1 else 0)
  }

  lemma {:induction false} ClaimAllIssues(s: State, w: WorkerId, lease: nat, picks: seq<Pick>, t: Token)
    requires forall i :: 0 <= i < |picks| ==> picks[i].slot in s.rows && picks[i].token != t
    requires t in s.issued
    ensures t in ClaimAll(s, w, lease, picks).issued && ClaimAll(s, w, lease, picks).issued[t] == s.issued[t]
    decreases picks
  {
    if picks != [] {
      ClaimAllIssues(ClaimOne(s, w, lease, picks[0]), w, lease, picks[1..], t);
    }
  }

  /** No step but the claim that issues it can give a row a lease token. */
  lemma NoTokenBack(cfg: Config, s: State, step: Step, slot: Slot, t: Token)
    requires Enabled(cfg, s, step) && slot in s.rows && t in s.issued && s.rows[slot].leaseToken != Some(t)
    ensures RowAfter(cfg, s, step, slot).leaseToken != Some(t)
  {
    if step.Claim? {
      TokenForAbsent(step.picks, slot);
      assert forall i :: 0 <= i < |step.picks| ==> PickOk(cfg, s, step.consumer, step.topic, step.picks[i]);
    }
  }

  lemma IssuesKept(cfg: Config, s: State, step: Step, t: Token)
    requires Enabled(cfg, s, step) && t in s.issued
    ensures t in Apply(cfg, s, step).issued && Apply(cfg, s, step).issued[t] == s.issued[t]
  {
    if step.Claim? {
      assert forall i :: 0 <= i < |step.picks| ==> PickOk(cfg, s, step.consumer, step.topic, step.picks[i]);
      ClaimAllIssues(s, step.w, cfg.lease, step.picks, t);
    }
  }

  /** An open acknowledgement holds its row's lease, so it is not superseded. */
  lemma AckedIsCurrent(cfg: Config, s: State, w: WorkerId, t: Token)
    requires Inv(cfg, s) && WorkerOf(s, w).phase.Acked? && Superseded(s, t)
    ensures WorkerOf(s, w).phase.d.token != t
  {
    var d := WorkerOf(s, w).phase.d;
    assert HeldBy(s, w)[0] == d;
    assert IssuedTo(s, w, d) && Matches(s.rows[d.slot], d.token);
  }

  lemma SupersededStays(cfg: Config, s: State, step: Step, t: Token)
    requires Inv(cfg, s) && Enabled(cfg, s, step) && Superseded(s, t)
    ensures Superseded(Apply(cfg, s, step), t)
  {
    var slot := s.issued[t].delivery.slot;
    RowStep(cfg, s, step, slot);
    NoTokenBack(cfg, s, step, slot, t);
    IssuesKept(cfg, s, step, t);
  }

  lemma SupersededCommitsNothing(cfg: Config, s: State, step: Step, t: Token)
    requires Inv(cfg, s) && Enabled(cfg, s, step) && Superseded(s, t)
    ensures CommitsUnder(Apply(cfg, s, step).effects, t) == CommitsUnder(s.effects, t)
  {
    EffectStep(cfg, s, step);
    if step.Commit? || step.CommitReplyLost? {
      AckedIsCurrent(cfg, s, step.w, t);
      var grown := Apply(cfg, s, step).effects;
      assert grown[..|grown| - 1] == s.effects;
    }
  }

  /**
   * Fencing over whole runs: once a lease is superseded or cleared it is never
   * the row's lease again, and nothing is ever committed under it afterwards,
   * whatever its holder still tries.
   */
  lemma {:induction false} FencedForever(cfg: Config, run: seq<Step>, more: seq<Step>, t: Token)
    requires IsRun(cfg, run) && IsRun(cfg, run + more) && Superseded(After(cfg, run), t)
    ensures Superseded(After(cfg, run + more), t)
    ensures CommitsUnder(After(cfg, run + more).effects, t) == CommitsUnder(After(cfg, run).effects, t)
    decreases |more|
  {
    if more == [] {
      assert run + more == run;
    } else {
      LastStep(cfg, run, more);
      var before := run + more[..|more| - 1];
      FencedForever(cfg, run, more[..|more| - 1], t);
      RunInv(cfg, before);
      SupersededStays(cfg, After(cfg, before), more[|more| - 1], t);
      SupersededCommitsNothing(cfg, After(cfg, before), more[|more| - 1], t);
    }
  }

  /**
   * A stale worker's ack, failure report or parking leaves every row as it
   * was; a stale ack ends in the failing phase with its transaction gone.
   */
  lemma StaleWorkerChangesNothing(cfg: Config, s: State, step: Step, d: Delivery)
    requires Inv(cfg, s) && Enabled(cfg, s, step)
    requires || (step.Ack? && d == WorkerOf(s, step.w).phase.d)
             || (step.RecordFailure? && d == WorkerOf(s, step.w).phase.d)
             || (step.ParkUndecodable? && d == WorkerOf(s, step.w).queue[step.index])
    requires d.slot in s.rows && s.rows[d.slot].leaseToken != Some(d.token)
    ensures Apply(cfg, s, step).rows == s.rows
    ensures Apply(cfg, s, step).effects == s.effects
    ensures step.Ack? ==> WorkerOf(Apply(cfg, s, step), step.w).phase == Failing(d, false)
  {
    EffectStep(cfg, s, step);
    StaleStatement(cfg, s, step, d);
  }

  /** The guard of a statement under a lost lease matches no row. */
  lemma StaleStatement(cfg: Config, s: State, step: Step, d: Delivery)
    requires Enabled(cfg, s, step) && d.slot in s.rows && s.rows[d.slot].leaseToken != Some(d.token)
    requires || ((step.Ack? || step.RecordFailure?) && d == WorkerOf(s, step.w).phase.d)
             || (step.ParkUndecodable? && d == WorkerOf(s, step.w).queue[step.index])
    ensures Apply(cfg, s, step).rows == s.rows
  {
    assert s.rows[d.slot := s.rows[d.slot]] == s.rows;
  }

  // ------------------------------------------------------------ the log, end to end

  ghost predicate EntryOk(e: Logged) {
    e.topic == TopicOf(e.hash.payload) && e.key == DeduplicationKey(e.hash.payload)
  }

  ghost predicate EntriesOk(s: State) {
    && (forall id :: id in s.log ==> EntryOk(s.log[id]))
    && (forall w, id :: id in InsertedBy(s, w) ==> EntryOk(InsertedBy(s, w)[id]))
  }

  /** Open transactions change only by a publish; the log only by a commit. */
  lemma InsertedStep(cfg: Config, s: State, step: Step, w: WorkerId)
    requires Enabled(cfg, s, step)
    ensures var after := InsertedBy(Apply(cfg, s, step), w);
            || after == map[]
            || after == InsertedBy(s, w)
            || (step.Publish? && w == step.w && (WorkerOf(s, w).phase.Producing? || WorkerOf(s, w).phase.Handling?) &&
                after == InsertedBy(s, w)[step.id := Entry(step.message, step.schemaVersion, step.parses, WorkerOf(s, w).phase.tx.startedAt)])
  {
    if step.Claim? {
      ClaimAllRows(s, step.w, cfg.lease, step.picks);
    } else if step.Publish? {
      PublishedInserts(cfg, s, step, w);
    }
  }

  lemma PublishedInserts(cfg: Config, s: State, step: Step, w: WorkerId)
    requires step.Publish? && Enabled(cfg, s, step)
    ensures var after, p := InsertedBy(Apply(cfg, s, step), w), WorkerOf(s, step.w).phase;
            || after == InsertedBy(s, w)
            || (w == step.w && after == InsertedBy(s, w)[step.id := Entry(step.message, step.schemaVersion, step.parses, p.tx.startedAt)])
  {
  }

  lemma LogStep(cfg: Config, s: State, step: Step)
    requires Enabled(cfg, s, step)
    ensures var log := Apply(cfg, s, step).log;
            log == s.log || ((step.CommitProduce? || step.Commit? || step.CommitReplyLost?) && log == s.log + InsertedBy(s, step.w))
  {
    if step.Claim? {
      ClaimAllRows(s, step.w, cfg.lease, step.picks);
    }
  }

  lemma EntriesKept(cfg: Config, s: State, step: Step)
    requires Enabled(cfg, s, step) && EntriesOk(s)
    ensures EntriesOk(Apply(cfg, s, step))
  {
    var t := Apply(cfg, s, step);
    LogStep(cfg, s, step);
    forall w, id | id in InsertedBy(t, w)
      ensures EntryOk(InsertedBy(t, w)[id])
    {
      InsertedStep(cfg, s, step, w);
    }
  }

  lemma {:induction false} RunEntries(cfg: Config, run: seq<Step>)
    requires IsRun(cfg, run)
    ensures EntriesOk(After(cfg, run))
    decreases |run|
  {
    if run == [] {
      assert forall w :: InsertedBy(Initial(), w) == map[];
    } else {
      RunEntries(cfg, run[..|run| - 1]);
      EntriesKept(cfg, After(cfg, run[..|run| - 1]), run[|run| - 1]);
    }
  }

  /** However often intents are re-published, the log holds each intent once. */
  lemma OneMessagePerIntent(cfg: Config, run: seq<Step>, a: MessageId, b: MessageId)
    requires IsRun(cfg, run) && a in After(cfg, run).log && b in After(cfg, run).log
    requires var log := After(cfg, run).log;
             && TopicOf(log[a].hash.payload) == TopicOf(log[b].hash.payload)
             && IdentityOf(log[a].hash.payload) == IdentityOf(log[b].hash.payload)
    ensures a == b
  {
    var s := After(cfg, run);
    RunInv(cfg, run);
    RunEntries(cfg, run);
    assert EntryOk(s.log[a]) && EntryOk(s.log[b]);
    SameKeyExactlySameIntent(s.log[a].hash.payload, s.log[b].hash.payload);
  }

  /**
   * End to end: whatever is published, replayed, retried or revived, two
   * committed effects of one consumer for one intent are the same effect.
   */
  lemma OneEffectPerIntent(cfg: Config, run: seq<Step>, i: nat, j: nat)
    requires IsRun(cfg, run)
    requires var s := After(cfg, run);
             && i < |s.effects| && j < |s.effects|
             && s.effects[i].slot.consumer == s.effects[j].slot.consumer
             && s.effects[i].slot.id in s.log && s.effects[j].slot.id in s.log
             && TopicOf(s.log[s.effects[i].slot.id].hash.payload) == TopicOf(s.log[s.effects[j].slot.id].hash.payload)
             && IdentityOf(s.log[s.effects[i].slot.id].hash.payload) == IdentityOf(s.log[s.effects[j].slot.id].hash.payload)
    ensures i == j
  {
    var s := After(cfg, run);
    OneMessagePerIntent(cfg, run, s.effects[i].slot.id, s.effects[j].slot.id);
    RunInv(cfg, run);
    assert s.effects[i].slot == s.effects[j].slot;
  }

  /** Every effect is for a logged message of a topic its consumer subscribes to. */
  lemma EffectsAreForSubscribers(cfg: Config, run: seq<Step>, i: nat)
    requires IsRun(cfg, run) && i < |After(cfg, run).effects|
    ensures var s := After(cfg, run);
            && s.effects[i].slot.id in s.log
            && (s.effects[i].slot.consumer, s.log[s.effects[i].slot.id].topic) in cfg.subscriptions
  {
    RunInv(cfg, run);
    assert After(cfg, run).effects[i].slot in After(cfg, run).rows;
  }

  /**
   * A replay, equal or conflicting, of a key the publisher can see changes no
   * table, and its transaction inserts nothing for it.
   */
  lemma ReplayChangesNothing(cfg: Config, s: State, step: Step, id: MessageId)
    requires Inv(cfg, s) && step.Publish? && Enabled(cfg, s, step)
    requires id in s.log
    requires SameKey(s.log[id], Entry(step.message, step.schemaVersion, step.parses, 0))
    ensures Apply(cfg, s, step).log == s.log && Apply(cfg, s, step).rows == s.rows
    ensures InsertedBy(Apply(cfg, s, step), step.w) == InsertedBy(s, step.w)
    ensures forall other :: other in s.log && SameKey(s.log[other], s.log[id]) ==> other == id
  {
    var p := WorkerOf(s, step.w).phase;
    assert Apart(s.log, InsertedBy(s, step.w));
    assert id in s.log + p.tx.inserted && (s.log + p.tx.inserted)[id] == s.log[id];
    assert HasKey(s.log + p.tx.inserted, Entry(step.message, step.schemaVersion, step.parses, p.tx.startedAt));
  }

  // ------------------------------------------------------------ the attempt budget

  /** A revival that had an effect. */
  ghost predicate Revives(s: State, step: Step, slot: Slot) {
    step == Revive(slot) && slot in s.rows && s.rows[slot].state == Dead
  }

  /** A failure report that really rescheduled the row. */
  ghost predicate Reschedules(cfg: Config, s: State, step: Step, slot: Slot) {
    && step.RecordFailure?
    && WorkerOf(s, step.w).phase.Failing?
    && var p := WorkerOf(s, step.w).phase;
    p.d.slot == slot && slot in s.rows && Matches(s.rows[slot], p.d.token) && !Exhausted(cfg.maxAttempts, p.d, p.permanent)
  }

  /** Claims of `slot` since it was published or last revived, counted off the run. */
  ghost function ClaimsSince(cfg: Config, run: seq<Step>, slot: Slot): nat
    requires IsRun(cfg, run)
    decreases |run|
  {
    if run == [] then 0
    else
      var before, step := run[..|run| - 1], run[|run| - 1];
      if Revives(After(cfg, before), step, slot) then 0
      else ClaimsSince(cfg, before, slot) + (if step.Claim? && TokenFor(step.picks, slot).Some? then 1 else 0)
  }

  /** Effective reschedules of `slot` since it was published or last revived. */
  ghost function ReschedulesSince(cfg: Config, run: seq<Step>, slot: Slot): nat
    requires IsRun(cfg, run)
    decreases |run|
  {
    if run == [] then 0
    else
      var before, step := run[..|run| - 1], run[|run| - 1];
      if Revives(After(cfg, before), step, slot) then 0
      else ReschedulesSince(cfg, before, slot) + (if Reschedules(cfg, After(cfg, before), step, slot) then 1 else 0)
  }

  /** What ties the counts to the row: a live lease has not been rescheduled yet. */
  ghost predicate BudgetOk(cfg: Config, s: State, slot: Slot, claims: nat, reschedules: nat) {
    if slot !in s.rows then claims == 0 && reschedules == 0
    else
      var row := s.rows[slot];
      && row.attemptCount == claims
      && reschedules + (if row.leaseToken.Some? then 1 else 0) <= claims
      && (reschedules == 0 || reschedules < cfg.maxAttempts)
  }

  lemma NewRowsAreFresh(cfg: Config, s: State, step: Step, slot: Slot)
    requires Inv(cfg, s) && Enabled(cfg, s, step) && slot !in s.rows && slot in Apply(cfg, s, step).rows
    ensures exists at :: Apply(cfg, s, step).rows[slot] == FreshRow(at)
  {
    if step.Claim? {
      ClaimAllRows(s, step.w, cfg.lease, step.picks);
    } else if step.CommitProduce? || step.Commit? || step.CommitReplyLost? {
      assert Apply(cfg, s, step).rows[slot] == FreshRow(WorkerOf(s, step.w).phase.tx.startedAt);
    }
  }

  lemma RescheduledAttempt(cfg: Config, s: State, step: Step, slot: Slot)
    requires Inv(cfg, s) && Reschedules(cfg, s, step, slot)
    ensures s.rows[slot].attemptCount < cfg.maxAttempts
  {
    var d := WorkerOf(s, step.w).phase.d;
    assert HeldBy(s, step.w)[0] == d && IssuedTo(s, step.w, d);
    assert LeaseIssued(s, slot);
  }

  lemma NotPicked(cfg: Config, s: State, step: Step, slot: Slot)
    requires step.Claim? && Enabled(cfg, s, step) && slot !in s.rows
    ensures TokenFor(step.picks, slot).None?
  {
    TokenForAbsent(step.picks, slot);
    forall i | 0 <= i < |step.picks|
      ensures step.picks[i].slot != slot
    {
      assert PickOk(cfg, s, step.consumer, step.topic, step.picks[i]);
    }
  }

  /** What a step does to the counts of a row. */
  lemma BudgetStep(cfg: Config, s: State, step: Step, slot: Slot, claims: nat, reschedules: nat)
    requires Inv(cfg, s) && Enabled(cfg, s, step) && slot in s.rows && BudgetOk(cfg, s, slot, claims, reschedules)
    ensures var row := RowAfter(cfg, s, step, slot);
            if Revives(s, step, slot) then row.attemptCount == 0 && row.leaseToken.None?
            else
              var c := claims + (if step.Claim? && TokenFor(step.picks, slot).Some? then 1 else 0);
              var r := reschedules + (if Reschedules(cfg, s, step, slot) then 1 else 0);
              && row.attemptCount == c && r + (if row.leaseToken.Some? then 1 else 0) <= c && (r == 0 || r < cfg.maxAttempts)
  {
    assert RowShape(s.rows[slot]);
    if Reschedules(cfg, s, step, slot) {
      RescheduledAttempt(cfg, s, step, slot);
    } else if step.Claim? && TokenFor(step.picks, slot).Some? {
      PickedIsPending(cfg, s, step, slot);
    } else {
      QuietBudget(cfg, s, step, slot);
    }
  }

  lemma PickedIsPending(cfg: Config, s: State, step: Step, slot: Slot)
    requires Enabled(cfg, s, step) && slot in s.rows && step.Claim? && TokenFor(step.picks, slot).Some?
    ensures s.rows[slot].state == Pending
  {
    TokenForAbsent(step.picks, slot);
    assert PicksOk(cfg, s, step.consumer, step.topic, step.picks);
  }

  /** Any other step leaves the count, but for a revival, and grants no lease. */
  lemma QuietBudget(cfg: Config, s: State, step: Step, slot: Slot)
    requires Enabled(cfg, s, step) && slot in s.rows && RowShape(s.rows[slot])
    requires !(step.Claim? && TokenFor(step.picks, slot).Some?)
    ensures var row := RowAfter(cfg, s, step, slot);
            && row.attemptCount == (if Revives(s, step, slot) then 0 else s.rows[slot].attemptCount)
            && (row.leaseToken.None? || row.leaseToken == s.rows[slot].leaseToken)
  {
  }

  lemma {:induction false} BudgetKept(cfg: Config, run: seq<Step>, slot: Slot)
    requires IsRun(cfg, run)
    ensures BudgetOk(cfg, After(cfg, run), slot, ClaimsSince(cfg, run, slot), ReschedulesSince(cfg, run, slot))
    decreases |run|
  {
    if run != [] {
      var before, step := run[..|run| - 1], run[|run| - 1];
      var s := After(cfg, before);
      BudgetKept(cfg, before, slot);
      RunInv(cfg, before);
      if step.Claim? && slot !in s.rows {
        NotPicked(cfg, s, step, slot);
      }
      if slot in s.rows {
        RowStep(cfg, s, step, slot);
        BudgetStep(cfg, s, step, slot, ClaimsSince(cfg, before, slot), ReschedulesSince(cfg, before, slot));
      } else if slot in Apply(cfg, s, step).rows {
        NewRowsAreFresh(cfg, s, step, slot);
      }
    }
  }

  /**
   * The attempt budget: since publication or the last revival, the attempt
   * count is the number of claims and fewer than `maxAttempts` failures were
   * rescheduled.
   */
  lemma AttemptBudget(cfg: Config, run: seq<Step>, slot: Slot)
    requires IsRun(cfg, run) && slot in After(cfg, run).rows
    ensures After(cfg, run).rows[slot].attemptCount == ClaimsSince(cfg, run, slot)
    ensures ReschedulesSince(cfg, run, slot) <= Max(cfg.maxAttempts - 1, 0)
    ensures ReschedulesSince(cfg, run, slot) <= ClaimsSince(cfg, run, slot)
  {
    BudgetKept(cfg, run, slot);
  }

  /** Row shape in every reachable state: lease columns null together, and off pending. */
  lemma LeaseShape(cfg: Config, run: seq<Step>, slot: Slot)
    requires IsRun(cfg, run) && slot in After(cfg, run).rows
    ensures var row := After(cfg, run).rows[slot];
            && (row.leaseToken.None? <==> row.leasedUntil.None?)
            && (row.state != Pending ==> row.leaseToken.None? && row.leasedUntil.None?)
  {
    RunInv(cfg, run);
    assert RowShape(After(cfg, run).rows[slot]);
  }

  /** What the columns of a row that no guard reads record. */
  ghost predicate Bookkeeping(cfg: Config, row: Row) {
    && (row.state == Done <==> row.doneAt.Some?)
    && (row.state == Done ==> row.lastError.None?)
    && (row.state == Dead ==> row.lastError.Some?)
    && (row.attemptCount > 0 ==> row.lastAttemptAt.Some?)
    && (row.leasedUntil.Some? ==> row.lastAttemptAt.Some? && row.leasedUntil.value == row.lastAttemptAt.value + cfg.lease)
  }

  lemma BookkeepingStep(cfg: Config, s: State, step: Step, slot: Slot)
    requires Inv(cfg, s) && Enabled(cfg, s, step) && slot in s.rows && Bookkeeping(cfg, s.rows[slot])
    ensures Bookkeeping(cfg, RowAfter(cfg, s, step, slot))
  {
    if step.Claim? {
      TokenForAbsent(step.picks, slot);
      assert PicksOk(cfg, s, step.consumer, step.topic, step.picks);
    }
  }

  /**
   * In every reachable state: a completion time exactly on done rows, no error left there, an
   * error on every dead one, and leases of the configured length from the last attempt.
   */
  lemma {:induction false} RowsKeepBooks(cfg: Config, run: seq<Step>, slot: Slot)
    requires IsRun(cfg, run) && slot in After(cfg, run).rows
    ensures Bookkeeping(cfg, After(cfg, run).rows[slot])
    decreases |run|
  {
    if run != [] {
      var before, step := run[..|run| - 1], run[|run| - 1];
      var s := After(cfg, before);
      RunInv(cfg, before);
      if slot in s.rows {
        RowsKeepBooks(cfg, before, slot);
        RowStep(cfg, s, step, slot);
        BookkeepingStep(cfg, s, step, slot);
      } else {
        NewRowsAreFresh(cfg, s, step, slot);
      }
    }
  }
}
