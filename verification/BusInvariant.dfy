/** What every step of the bus keeps. */
module BusInvariant {
  import opened Prelude
  import opened BusContracts
  import opened Bus

  predicate RowShape(row: Row) {
    && (row.leaseToken.Some? <==> row.leasedUntil.Some?)
    && (row.state != Pending ==> row.leaseToken.None?)
  }

  /** A row's lease went to one claim of that row, at the row's current attempt. */
  predicate LeaseIssued(s: State, slot: Slot)
    requires slot in s.rows
  {
    s.rows[slot].leaseToken.Some? ==>
      var t := s.rows[slot].leaseToken.value;
      && t in s.issued
      && s.issued[t].delivery == Delivery(slot, t, s.rows[slot].attemptCount)
  }

  ghost predicate RowsOk(s: State) {
    forall k :: k in s.rows ==> RowShape(s.rows[k]) && LeaseIssued(s, k)
  }

  predicate IssuedTo(s: State, w: WorkerId, d: Delivery) {
    d.token in s.issued && s.issued[d.token] == Issue(w, d) && d.slot in s.rows
  }

  ghost predicate HoldingsOk(s: State) {
    && (forall w, i :: 0 <= i < |HeldBy(s, w)| ==> IssuedTo(s, w, HeldBy(s, w)[i]))
    && (forall w, i, j :: 0 <= i < j < |HeldBy(s, w)| ==> HeldBy(s, w)[i].token != HeldBy(s, w)[j].token)
  }

  /** An open acknowledgement still owns the row: the lock kept everyone else out. */
  ghost predicate LocksOk(s: State) {
    forall w :: WorkerOf(s, w).phase.Acked? ==>
                  var d := WorkerOf(s, w).phase.d;
                  d.slot in s.rows && Matches(s.rows[d.slot], d.token)
  }

  ghost predicate HasEffect(s: State, slot: Slot) {
    exists i :: 0 <= i < |s.effects| && s.effects[i].slot == slot
  }

  ghost predicate EffectsOk(s: State) {
    && (forall i, j :: 0 <= i < j < |s.effects| ==> s.effects[i].slot != s.effects[j].slot)
    && (forall i :: 0 <= i < |s.effects| ==> s.effects[i].slot in s.rows)
    && (forall k :: k in s.rows ==> (s.rows[k].state == Done <==> HasEffect(s, k)))
  }

  ghost predicate UniqueKeys(log: map<MessageId, Logged>) {
    forall a, b :: a in log && b in log && SameKey(log[a], log[b]) ==> a == b
  }

  ghost predicate Apart(a: map<MessageId, Logged>, b: map<MessageId, Logged>) {
    forall x, y :: x in a && y in b ==> x != y && !SameKey(a[x], b[y])
  }

  ghost predicate LogOk(cfg: Config, s: State) {
    && UniqueKeys(s.log)
    && (forall w :: UniqueKeys(InsertedBy(s, w)) && Apart(s.log, InsertedBy(s, w)))
    && (forall v, w :: v != w ==> Apart(InsertedBy(s, v), InsertedBy(s, w)))
    && (forall k :: k in s.rows <==>
                    k.id in s.log && (k.consumer, s.log[k.id].topic) in cfg.subscriptions)
  }

  ghost predicate Inv(cfg: Config, s: State) {
    RowsOk(s) && HoldingsOk(s) && LocksOk(s) && EffectsOk(s) && LogOk(cfg, s)
  }

  // ------------------------------------------------------------ framing

  /** Only worker `w` differs between the two states. */
  ghost predicate OthersSame(s: State, t: State, w: WorkerId) {
    forall v :: v != w ==> WorkerOf(t, v) == WorkerOf(s, v)
  }

  /** The row `w` alone may write: nobody else's acknowledgement is open on it. */
  lemma RowUpdateKeepsLocks(s: State, t: State, w: WorkerId, slot: Slot)
    requires LocksOk(s) && OthersSame(s, t, w)
    requires forall v :: v != w ==> !LockedBy(s, v, slot)
    requires forall k :: k in s.rows ==> k in t.rows && (k != slot ==> t.rows[k] == s.rows[k])
    requires !WorkerOf(t, w).phase.Acked?
    ensures LocksOk(t)
  {
    forall v | WorkerOf(t, v).phase.Acked?
      ensures var d := WorkerOf(t, v).phase.d; d.slot in t.rows && Matches(t.rows[d.slot], d.token)
    {
      assert WorkerOf(t, v) == WorkerOf(s, v);
      assert !LockedBy(s, v, slot);
    }
  }

  /** Dropping or reordering out what a worker holds keeps the holdings sound. */
  lemma FewerHoldings(s: State, t: State, w: WorkerId, from: seq<int>)
    requires HoldingsOk(s) && OthersSame(s, t, w)
    requires t.issued == s.issued && s.rows.Keys <= t.rows.Keys
    requires |from| == |HeldBy(t, w)|
    requires forall i :: 0 <= i < |from| ==> 0 <= from[i] < |HeldBy(s, w)| && HeldBy(t, w)[i] == HeldBy(s, w)[from[i]]
    requires forall i, j :: 0 <= i < j < |from| ==> from[i] < from[j]
    ensures HoldingsOk(t)
  {
    forall v, i | 0 <= i < |HeldBy(t, v)|
      ensures IssuedTo(t, v, HeldBy(t, v)[i])
    {
      if v == w {
        assert IssuedTo(s, w, HeldBy(s, w)[from[i]]);
      } else {
        assert HeldBy(t, v) == HeldBy(s, v);
        assert IssuedTo(s, v, HeldBy(s, v)[i]);
      }
    }
    forall v, i, j | 0 <= i < j < |HeldBy(t, v)|
      ensures HeldBy(t, v)[i].token != HeldBy(t, v)[j].token
    {
      if v == w {
        assert HeldBy(s, w)[from[i]].token != HeldBy(s, w)[from[j]].token;
      } else {
        assert HeldBy(t, v) == HeldBy(s, v);
      }
    }
  }

  /** The positions `0..n` in order. */
  function Upto(n: nat): (s: seq<int>)
    ensures |s| == n && forall i :: 0 <= i < n ==> s[i] == i
  {
    seq(n, i => i)
  }

  /** A change of phase that keeps the same delivery in hand. */
  lemma SameHoldings(s: State, t: State, w: WorkerId)
    requires HoldingsOk(s) && OthersSame(s, t, w)
    requires t.issued == s.issued && s.rows.Keys <= t.rows.Keys
    requires HeldBy(t, w) == HeldBy(s, w)
    ensures HoldingsOk(t)
  {
    FewerHoldings(s, t, w, Upto(|HeldBy(s, w)|));
  }

  /** Nothing in the tables moved and `w` inserts nothing (more): the log stays sound. */
  lemma LogUnchanged(cfg: Config, s: State, t: State, w: WorkerId)
    requires LogOk(cfg, s) && OthersSame(s, t, w)
    requires t.log == s.log && t.rows.Keys == s.rows.Keys
    requires InsertedBy(t, w) == InsertedBy(s, w) || InsertedBy(t, w) == map[]
    ensures LogOk(cfg, t)
  {
    forall v
      ensures UniqueKeys(InsertedBy(t, v)) && Apart(t.log, InsertedBy(t, v))
    {
      assert v != w ==> InsertedBy(t, v) == InsertedBy(s, v);
    }
    forall u, v | u != v
      ensures Apart(InsertedBy(t, u), InsertedBy(t, v))
    {
      assert u != w ==> InsertedBy(t, u) == InsertedBy(s, u);
      assert v != w ==> InsertedBy(t, v) == InsertedBy(s, v);
      assert Apart(InsertedBy(s, u), InsertedBy(s, v));
    }
  }

  /** A row rewritten in place, without touching which rows are done. */
  lemma EffectsUnchanged(s: State, t: State)
    requires EffectsOk(s) && t.effects == s.effects && t.rows.Keys == s.rows.Keys
    requires forall k :: k in s.rows ==> (t.rows[k].state == Done <==> s.rows[k].state == Done)
    ensures EffectsOk(t)
  {
    forall k | k in t.rows
      ensures t.rows[k].state == Done <==> HasEffect(t, k)
    {
      assert HasEffect(t, k) <==> HasEffect(s, k);
    }
  }

  /** A worker statement whose guard is the lease token rewrites one row soundly. */
  lemma GuardedRowUpdate(s: State, t: State, slot: Slot, row: Row)
    requires RowsOk(s) && slot in s.rows
    requires t.issued == s.issued && t.rows == s.rows[slot := row]
    requires RowShape(row)
    requires row.leaseToken.None? || (row.leaseToken == s.rows[slot].leaseToken && row.attemptCount == s.rows[slot].attemptCount)
    ensures RowsOk(t)
  {
    forall k | k in t.rows
      ensures RowShape(t.rows[k]) && LeaseIssued(t, k)
    {
      assert LeaseIssued(s, k);
    }
  }

  // ------------------------------------------------------------ the steps

  lemma InitialInv(cfg: Config)
    ensures Inv(cfg, Initial())
  {
    var s := Initial();
    assert forall w :: WorkerOf(s, w) == Worker([], Idle);
    assert forall w :: HeldBy(s, w) == [];
  }

  /** Steps that move one worker's phase and leave the tables alone. */
  lemma PhaseOnly(cfg: Config, s: State, w: WorkerId, phase: Phase)
    requires Inv(cfg, s)
    requires !phase.Acked?
    requires Current(phase) == Current(WorkerOf(s, w).phase) || Current(phase) == []
    requires InsertedBy(SetPhase(s, w, phase), w) == InsertedBy(s, w) || InsertedBy(SetPhase(s, w, phase), w) == map[]
    ensures Inv(cfg, SetPhase(s, w, phase))
  {
    var t := SetPhase(s, w, phase);
    assert OthersSame(s, t, w);
    if Current(phase) == Current(WorkerOf(s, w).phase) {
      SameHoldings(s, t, w);
    } else {
      var c := |Current(WorkerOf(s, w).phase)|;
      var n := |WorkerOf(s, w).queue|;
      FewerHoldings(s, t, w, seq(n, i => i + c));
    }
    LogUnchanged(cfg, s, t, w);
    EffectsUnchanged(s, t);
  }

  lemma AckKeeps(cfg: Config, s: State, w: WorkerId)
    requires Inv(cfg, s) && Enabled(cfg, s, Ack(w))
    ensures Inv(cfg, Apply(cfg, s, Ack(w)))
  {
    var p := WorkerOf(s, w).phase;
    if Matches(s.rows[p.d.slot], p.d.token) {
      var t := SetPhase(s, w, Acked(p.d, p.tx));
      assert OthersSame(s, t, w);
      SameHoldings(s, t, w);
      LogUnchanged(cfg, s, t, w);
      EffectsUnchanged(s, t);
    } else {
      PhaseOnly(cfg, s, w, Failing(p.d, false));
    }
  }

  lemma BeginKeeps(cfg: Config, s: State, w: WorkerId)
    requires Inv(cfg, s) && Enabled(cfg, s, Begin(w))
    ensures Inv(cfg, Apply(cfg, s, Begin(w)))
  {
    var t := Apply(cfg, s, Begin(w));
    assert OthersSame(s, t, w);
    assert HeldBy(t, w) == HeldBy(s, w);
    SameHoldings(s, t, w);
    LogUnchanged(cfg, s, t, w);
    EffectsUnchanged(s, t);
  }

  lemma CrashKeeps(cfg: Config, s: State, w: WorkerId)
    requires Inv(cfg, s)
    ensures Inv(cfg, Apply(cfg, s, Crash(w)))
  {
    var t := Apply(cfg, s, Crash(w));
    assert OthersSame(s, t, w);
    FewerHoldings(s, t, w, []);
    LogUnchanged(cfg, s, t, w);
    EffectsUnchanged(s, t);
  }

  /** A worker rewrites one row under its lease and holds on to some of its deliveries. */
  lemma RowRewriteKeeps(cfg: Config, s: State, t: State, w: WorkerId, slot: Slot, row: Row, from: seq<int>)
    requires Inv(cfg, s) && slot in s.rows && OthersSame(s, t, w) && !WorkerOf(t, w).phase.Acked?
    requires t.rows == s.rows[slot := row] && t.issued == s.issued && t.log == s.log && t.effects == s.effects
    requires RowShape(row) && (row.state == Done <==> s.rows[slot].state == Done)
    requires row.leaseToken.None? || (row.leaseToken == s.rows[slot].leaseToken && row.attemptCount == s.rows[slot].attemptCount)
    requires forall v :: v != w ==> !LockedBy(s, v, slot)
    requires InsertedBy(t, w) == InsertedBy(s, w) || InsertedBy(t, w) == map[]
    requires |from| == |HeldBy(t, w)| && forall i, j :: 0 <= i < j < |from| ==> from[i] < from[j]
    requires forall i :: 0 <= i < |from| ==> 0 <= from[i] < |HeldBy(s, w)| && HeldBy(t, w)[i] == HeldBy(s, w)[from[i]]
    ensures Inv(cfg, t)
  {
    FewerHoldings(s, t, w, from);
    GuardedRowUpdate(s, t, slot, row);
    RowUpdateKeepsLocks(s, t, w, slot);
    LogUnchanged(cfg, s, t, w);
    EffectsUnchanged(s, t);
  }

  lemma ParkKeeps(cfg: Config, s: State, w: WorkerId, i: nat, error: string)
    requires Inv(cfg, s) && Enabled(cfg, s, ParkUndecodable(w, i, error))
    ensures Inv(cfg, Apply(cfg, s, ParkUndecodable(w, i, error)))
  {
    var t := Apply(cfg, s, ParkUndecodable(w, i, error));
    var d := WorkerOf(s, w).queue[i];
    assert OthersSame(s, t, w);
    assert RowShape(s.rows[d.slot]);
    var n := |WorkerOf(s, w).queue|;
    RowRewriteKeeps(cfg, s, t, w, d.slot, ParkRow(s.rows[d.slot], d.token, error), seq(n - 1, j => if j < i then j else j + 1));
  }

  lemma RecordFailureKeeps(cfg: Config, s: State, w: WorkerId, delay: nat, error: string)
    requires Inv(cfg, s) && Enabled(cfg, s, RecordFailure(w, delay, error))
    ensures Inv(cfg, Apply(cfg, s, RecordFailure(w, delay, error)))
  {
    var t := Apply(cfg, s, RecordFailure(w, delay, error));
    var p := WorkerOf(s, w).phase;
    assert OthersSame(s, t, w);
    assert RowShape(s.rows[p.d.slot]);
    var n := |WorkerOf(s, w).queue|;
    var row := FailRow(cfg.maxAttempts, s.rows[p.d.slot], p.d, p.permanent, s.now + delay, error);
    RowRewriteKeeps(cfg, s, t, w, p.d.slot, row, seq(n, j => j + 1));
  }

  lemma ReviveKeeps(cfg: Config, s: State, slot: Slot)
    requires Inv(cfg, s) && Enabled(cfg, s, Revive(slot))
    ensures Inv(cfg, Apply(cfg, s, Revive(slot)))
  {
    var t := Apply(cfg, s, Revive(slot));
    forall v
      ensures WorkerOf(t, v) == WorkerOf(s, v) && HeldBy(t, v) == HeldBy(s, v) && !LockedBy(s, v, slot)
    {
    }
    SameHoldings(s, t, 0);
    GuardedRowUpdate(s, t, slot, ReviveRow(s.rows[slot], s.now));
    LogUnchanged(cfg, s, t, 0);
    EffectsUnchanged(s, t);
  }

  lemma TickKeeps(cfg: Config, s: State, elapsed: nat)
    requires Inv(cfg, s)
    ensures Inv(cfg, Apply(cfg, s, Tick(elapsed)))
  {
    var t := Apply(cfg, s, Tick(elapsed));
    assert OthersSame(s, t, 0) && WorkerOf(t, 0) == WorkerOf(s, 0);
    assert HeldBy(t, 0) == HeldBy(s, 0);
    SameHoldings(s, t, 0);
    LogUnchanged(cfg, s, t, 0);
    EffectsUnchanged(s, t);
    assert forall k :: k in t.rows ==> LeaseIssued(s, k);
    assert forall w :: WorkerOf(t, w) == WorkerOf(s, w);
  }

  // ------------------------------------------------------------ claiming

  /** A delivery under a token never issued before joins what its worker holds. */
  lemma OneMoreHolding(s: State, t: State, w: WorkerId, d: Delivery)
    requires HoldingsOk(s) && OthersSame(s, t, w) && s.rows.Keys <= t.rows.Keys && d.slot in t.rows
    requires d.token !in s.issued && t.issued == s.issued[d.token := Issue(w, d)]
    requires HeldBy(t, w) == HeldBy(s, w) + [d]
    ensures HoldingsOk(t)
  {
    forall v, i | 0 <= i < |HeldBy(s, v)|
      ensures i < |HeldBy(t, v)| && HeldBy(t, v)[i] == HeldBy(s, v)[i] && IssuedTo(t, v, HeldBy(s, v)[i])
      ensures HeldBy(s, v)[i].token != d.token
    {
      assert v != w ==> HeldBy(t, v) == HeldBy(s, v);
      assert IssuedTo(s, v, HeldBy(s, v)[i]);
    }
    forall v | v != w
      ensures HeldBy(t, v) == HeldBy(s, v)
    {
    }
    assert IssuedTo(t, w, d);
  }

  lemma ClaimedRows(s: State, t: State, p: Pick)
    requires RowsOk(s) && p.slot in s.rows && p.token !in s.issued && t.rows.Keys == s.rows.Keys
    requires forall k :: k in s.rows && k != p.slot ==> t.rows[k] == s.rows[k]
    requires t.rows[p.slot].leaseToken == Some(p.token) && RowShape(t.rows[p.slot])
    requires forall token :: token in s.issued ==> token in t.issued && t.issued[token] == s.issued[token]
    requires p.token in t.issued && t.issued[p.token].delivery == Delivery(p.slot, p.token, t.rows[p.slot].attemptCount)
    ensures RowsOk(t)
  {
    forall k | k in t.rows
      ensures RowShape(t.rows[k]) && LeaseIssued(t, k)
    {
      assert LeaseIssued(s, k);
    }
  }

  lemma ClaimOneKeeps(cfg: Config, s: State, w: WorkerId, consumer: string, topic: Topic, p: Pick)
    requires Inv(cfg, s)
    requires WorkerOf(s, w).phase.Idle?
    requires PickOk(cfg, s, consumer, topic, p)
    ensures Inv(cfg, ClaimOne(s, w, cfg.lease, p))
  {
    var t := ClaimOne(s, w, cfg.lease, p);
    var d := Delivery(p.slot, p.token, s.rows[p.slot].attemptCount + 1);
    assert OthersSame(s, t, w);
    assert HeldBy(t, w) == HeldBy(s, w) + [d];
    OneMoreHolding(s, t, w, d);
    ClaimedRows(s, t, p);
    assert forall v :: !LockedBy(s, v, p.slot);
    RowUpdateKeepsLocks(s, t, w, p.slot);
    LogUnchanged(cfg, s, t, w);
    EffectsUnchanged(s, t);
  }

  lemma {:induction false} ClaimAllKeeps(cfg: Config, s: State, w: WorkerId, consumer: string, topic: Topic, picks: seq<Pick>)
    requires Inv(cfg, s)
    requires WorkerOf(s, w).phase.Idle?
    requires PicksOk(cfg, s, consumer, topic, picks)
    ensures Inv(cfg, ClaimAll(s, w, cfg.lease, picks))
    decreases picks
  {
    if picks != [] {
      var t := ClaimOne(s, w, cfg.lease, picks[0]);
      ClaimOneKeeps(cfg, s, w, consumer, topic, picks[0]);
      forall i | 0 <= i < |picks[1..]|
        ensures PickOk(cfg, t, consumer, topic, picks[1..][i])
      {
        var next := picks[i + 1].slot;
        assert PickOk(cfg, s, consumer, topic, picks[i + 1]);
        forall v
          ensures !LockedBy(t, v, next)
        {
          assert !LockedBy(s, v, next);
          assert v != w ==> WorkerOf(t, v) == WorkerOf(s, v);
        }
      }
      ClaimAllKeeps(cfg, t, w, consumer, topic, picks[1..]);
    }
  }

  // ------------------------------------------------------------ publishing

  lemma PublishKeeps(cfg: Config, s: State, step: Step)
    requires step.Publish? && Inv(cfg, s) && Enabled(cfg, s, step)
    ensures Inv(cfg, Apply(cfg, s, step))
  {
    var t := Apply(cfg, s, step);
    var w := step.w;
    var p := WorkerOf(s, w).phase;
    var e := Entry(step.message, step.schemaVersion, step.parses, p.tx.startedAt);
    assert OthersSame(s, t, w);
    assert HeldBy(t, w) == HeldBy(s, w);
    SameHoldings(s, t, w);
    EffectsUnchanged(s, t);
    assert InsertedBy(s, w) == p.tx.inserted;
    if HasKey(s.log + p.tx.inserted, e) {
      LogUnchanged(cfg, s, t, w);
    } else {
      assert InsertedBy(t, w) == p.tx.inserted[step.id := e];
      InsertKeepsApart(cfg, s, t, w, step.id, e);
    }
  }

  /** A new key under a new id fits beside what the log and the transaction hold. */
  lemma InsertOwn(log: map<MessageId, Logged>, ins: map<MessageId, Logged>, id: MessageId, e: Logged)
    requires UniqueKeys(ins) && Apart(log, ins) && id !in log && id !in ins && !HasKey(log + ins, e)
    ensures UniqueKeys(ins[id := e]) && Apart(log, ins[id := e])
  {
    assert forall x :: x in log + ins ==> !SameKey((log + ins)[x], e);
    assert forall x :: x in ins ==> (log + ins)[x] == ins[x];
    assert forall x :: x in log ==> x !in ins && (log + ins)[x] == log[x];
  }

  lemma InsertKeepsApart(cfg: Config, s: State, t: State, w: WorkerId, id: MessageId, e: Logged)
    requires LogOk(cfg, s) && OthersSame(s, t, w) && t.log == s.log && t.rows == s.rows
    requires FreshId(s, id) && KeyFree(s, w, e) && !HasKey(s.log + InsertedBy(s, w), e)
    requires InsertedBy(t, w) == InsertedBy(s, w)[id := e]
    ensures LogOk(cfg, t)
  {
    var ins := InsertedBy(s, w);
    assert Apart(s.log, ins) && UniqueKeys(ins);
    InsertOwn(s.log, ins, id, e);
    forall v | v != w
      ensures InsertedBy(t, v) == InsertedBy(s, v)
      ensures Apart(InsertedBy(t, w), InsertedBy(t, v)) && Apart(InsertedBy(t, v), InsertedBy(t, w))
    {
      assert Apart(ins, InsertedBy(s, v));
      assert !HasKey(InsertedBy(s, v), e);
    }
    forall u, v | u != v
      ensures Apart(InsertedBy(t, u), InsertedBy(t, v))
    {
      if u != w && v != w {
        assert Apart(InsertedBy(s, u), InsertedBy(s, v));
      }
    }
  }

  /** Committing a transaction's inserts, with the worker leaving that transaction. */
  lemma CommitKeepsLog(cfg: Config, s: State, t: State, w: WorkerId)
    requires LogOk(cfg, s) && OthersSame(s, t, w)
    requires t.log == s.log + InsertedBy(s, w)
    requires InsertedBy(t, w) == map[]
    requires forall k :: k in t.rows <==> k in s.rows ||
                                          (k.id in InsertedBy(s, w) && (k.consumer, InsertedBy(s, w)[k.id].topic) in cfg.subscriptions)
    ensures LogOk(cfg, t)
  {
    var ins := InsertedBy(s, w);
    assert Apart(s.log, ins) && UniqueKeys(ins) && UniqueKeys(s.log);
    forall v
      ensures UniqueKeys(InsertedBy(t, v)) && Apart(t.log, InsertedBy(t, v))
    {
      if v != w {
        assert InsertedBy(t, v) == InsertedBy(s, v);
        assert Apart(ins, InsertedBy(s, v)) && Apart(s.log, InsertedBy(s, v));
      }
    }
    forall u, v | u != v
      ensures Apart(InsertedBy(t, u), InsertedBy(t, v))
    {
      assert u != w ==> InsertedBy(t, u) == InsertedBy(s, u);
      assert v != w ==> InsertedBy(t, v) == InsertedBy(s, v);
      assert Apart(InsertedBy(s, u), InsertedBy(s, v));
    }
  }

  /** New rows are pending, unleased, and nobody's: they disturb nothing. */
  lemma FanOutKeeps(cfg: Config, s: State, t: State, w: WorkerId, at: Time)
    requires RowsOk(s) && LocksOk(s) && EffectsOk(s) && LogOk(cfg, s) && OthersSame(s, t, w)
    requires !WorkerOf(t, w).phase.Acked?
    requires t.rows == s.rows + FanOut(cfg, InsertedBy(s, w), at)
    requires t.issued == s.issued && t.effects == s.effects
    ensures RowsOk(t) && LocksOk(t) && EffectsOk(t)
    ensures forall k :: k in s.rows ==> k in t.rows && t.rows[k] == s.rows[k]
  {
    var added := FanOut(cfg, InsertedBy(s, w), at);
    assert Apart(s.log, InsertedBy(s, w));
    forall k | k in s.rows
      ensures k !in added && t.rows[k] == s.rows[k]
    {
      assert k.id in s.log;
    }
    forall k | k in t.rows
      ensures RowShape(t.rows[k]) && LeaseIssued(t, k)
      ensures t.rows[k].state == Done <==> HasEffect(t, k)
    {
      if k in s.rows {
        assert LeaseIssued(s, k);
        assert HasEffect(t, k) <==> HasEffect(s, k);
      } else {
        assert t.rows[k] == FreshRow(at);
        assert !HasEffect(s, k) && !HasEffect(t, k);
      }
    }
    forall v | WorkerOf(t, v).phase.Acked?
      ensures var d := WorkerOf(t, v).phase.d; d.slot in t.rows && Matches(t.rows[d.slot], d.token)
    {
      assert WorkerOf(t, v) == WorkerOf(s, v);
    }
  }

  lemma CommitProduceKeeps(cfg: Config, s: State, w: WorkerId)
    requires Inv(cfg, s) && Enabled(cfg, s, CommitProduce(w))
    ensures Inv(cfg, Apply(cfg, s, CommitProduce(w)))
  {
    var t := Apply(cfg, s, CommitProduce(w));
    assert OthersSame(s, t, w);
    assert HeldBy(t, w) == HeldBy(s, w);
    FanOutKeeps(cfg, s, t, w, WorkerOf(s, w).phase.tx.startedAt);
    SameHoldings(s, t, w);
    CommitKeepsLog(cfg, s, t, w);
  }

  // ------------------------------------------------------------ acknowledging

  /** The ack row and its effect appear together. */
  lemma AckRowKeeps(cfg: Config, s: State, m: State, w: WorkerId, at: Time)
    requires Inv(cfg, s) && WorkerOf(s, w).phase.Acked?
    requires var d := WorkerOf(s, w).phase.d;
             && m.rows == s.rows[d.slot := AckRow(s.rows[d.slot], at)]
             && m.effects == s.effects + [Effect(d.slot, d.token, WorkerOf(s, w).phase.tx.writes)]
    requires m.issued == s.issued && m.log == s.log && OthersSame(s, m, w)
    requires WorkerOf(m, w).queue == WorkerOf(s, w).queue
    requires InsertedBy(m, w) == InsertedBy(s, w) && WorkerOf(m, w).phase.Handling?
    requires WorkerOf(m, w).phase.d == WorkerOf(s, w).phase.d
    ensures Inv(cfg, m)
  {
    var d := WorkerOf(s, w).phase.d;
    assert HeldBy(m, w) == HeldBy(s, w);
    SameHoldings(s, m, w);
    GuardedRowUpdate(s, m, d.slot, AckRow(s.rows[d.slot], at));
    LockExclusive(cfg, s, w, d.slot);
    RowUpdateKeepsLocks(s, m, w, d.slot);
    LogUnchanged(cfg, s, m, w);
    assert !HasEffect(s, d.slot);
    EffectAdded(s, m, Effect(d.slot, d.token, WorkerOf(s, w).phase.tx.writes), AckRow(s.rows[d.slot], at));
  }

  /** One more effect, together with its row becoming done. */
  lemma EffectAdded(s: State, m: State, effect: Effect, row: Row)
    requires EffectsOk(s) && effect.slot in s.rows && !HasEffect(s, effect.slot) && row.state == Done
    requires m.effects == s.effects + [effect] && m.rows == s.rows[effect.slot := row]
    ensures EffectsOk(m)
  {
    assert forall i :: 0 <= i < |s.effects| ==> m.effects[i] == s.effects[i] && s.effects[i].slot != effect.slot;
    forall k
      ensures HasEffect(m, k) <==> k == effect.slot || HasEffect(s, k)
    {
      if k == effect.slot {
        assert m.effects[|s.effects|].slot == k;
      } else if HasEffect(s, k) {
        var i :| 0 <= i < |s.effects| && s.effects[i].slot == k;
        assert m.effects[i].slot == k;
      }
    }
  }

  /** One open acknowledgement per row. */
  lemma LockExclusive(cfg: Config, s: State, w: WorkerId, slot: Slot)
    requires Inv(cfg, s) && LockedBy(s, w, slot)
    ensures forall v :: v != w ==> !LockedBy(s, v, slot)
  {
    forall v | LockedBy(s, v, slot)
      ensures v == w
    {
      assert WorkerOf(s, v).phase.d == HeldBy(s, v)[0] && WorkerOf(s, w).phase.d == HeldBy(s, w)[0];
      assert IssuedTo(s, v, HeldBy(s, v)[0]) && IssuedTo(s, w, HeldBy(s, w)[0]);
    }
  }

  /** The tables right after the acknowledged row turned done, before the inserts appear. */
  ghost function AckApplied(s: State, w: WorkerId): State
    requires WorkerOf(s, w).phase.Acked? && WorkerOf(s, w).phase.d.slot in s.rows
  {
    var p := WorkerOf(s, w).phase;
    SetPhase(s.(rows := s.rows[p.d.slot := AckRow(s.rows[p.d.slot], p.tx.startedAt)],
                effects := s.effects + [Effect(p.d.slot, p.d.token, p.tx.writes)]), w, Handling(p.d, p.tx))
  }

  lemma AckAppliedKeeps(cfg: Config, s: State, w: WorkerId)
    requires Inv(cfg, s) && WorkerOf(s, w).phase.Acked?
    ensures WorkerOf(s, w).phase.d.slot in s.rows
    ensures Inv(cfg, AckApplied(s, w))
  {
    assert OthersSame(s, AckApplied(s, w), w);
    AckRowKeeps(cfg, s, AckApplied(s, w), w, WorkerOf(s, w).phase.tx.startedAt);
  }

  /** A transaction's inserts become visible while its worker leaves it. */
  lemma PublishingKeeps(cfg: Config, m: State, t: State, w: WorkerId)
    requires Inv(cfg, m) && WorkerOf(m, w).phase.Handling? && OthersSame(m, t, w)
    requires t.log == m.log + WorkerOf(m, w).phase.tx.inserted
    requires t.rows == m.rows + FanOut(cfg, WorkerOf(m, w).phase.tx.inserted, WorkerOf(m, w).phase.tx.startedAt)
    requires t.issued == m.issued && t.effects == m.effects
    requires WorkerOf(t, w).queue == WorkerOf(m, w).queue
    requires WorkerOf(t, w).phase == Idle || WorkerOf(t, w).phase == Failing(WorkerOf(m, w).phase.d, false)
    ensures Inv(cfg, t)
  {
    assert InsertedBy(m, w) == WorkerOf(m, w).phase.tx.inserted;
    FanOutKeeps(cfg, m, t, w, WorkerOf(m, w).phase.tx.startedAt);
    CommitKeepsLog(cfg, m, t, w);
    HandledHoldings(m, t, w);
  }

  /** A worker done with its delivery holds its queue, or still that delivery as well. */
  lemma HandledHoldings(m: State, t: State, w: WorkerId)
    requires HoldingsOk(m) && WorkerOf(m, w).phase.Handling? && OthersSame(m, t, w)
    requires t.issued == m.issued && m.rows.Keys <= t.rows.Keys
    requires WorkerOf(t, w).queue == WorkerOf(m, w).queue
    requires WorkerOf(t, w).phase == Idle || WorkerOf(t, w).phase == Failing(WorkerOf(m, w).phase.d, false)
    ensures HoldingsOk(t)
  {
    if WorkerOf(t, w).phase == Idle {
      FewerHoldings(m, t, w, seq(|WorkerOf(m, w).queue|, i => i + 1));
    } else {
      SameHoldings(m, t, w);
    }
  }

  /**
   * A commit of an acknowledged delivery, whatever phase its worker then
   * believes it is in.
   */
  lemma CommitKeeps(cfg: Config, s: State, w: WorkerId, after: Phase)
    requires Inv(cfg, s) && WorkerOf(s, w).phase.Acked?
    requires after == Idle || after == Failing(WorkerOf(s, w).phase.d, false)
    ensures WorkerOf(s, w).phase.d.slot in s.rows
    ensures Inv(cfg, SetPhase(Committed(cfg, s, WorkerOf(s, w).phase.d, WorkerOf(s, w).phase.tx), w, after))
  {
    AckAppliedKeeps(cfg, s, w);
    var m := AckApplied(s, w);
    var t := SetPhase(Committed(cfg, s, WorkerOf(s, w).phase.d, WorkerOf(s, w).phase.tx), w, after);
    assert OthersSame(m, t, w);
    PublishingKeeps(cfg, m, t, w);
  }

  /** A handler at work, or one that gave up. */
  lemma HandlerKeeps(cfg: Config, s: State, step: Step)
    requires Inv(cfg, s) && Enabled(cfg, s, step) && (step.HandlerWrite? || step.HandlerFail? || step.Abort?)
    ensures Inv(cfg, Apply(cfg, s, step))
  {
    var p := WorkerOf(s, step.w).phase;
    if step.HandlerWrite? {
      PhaseOnly(cfg, s, step.w, Handling(p.d, p.tx.(writes := p.tx.writes + [step.write])));
    } else {
      PhaseOnly(cfg, s, step.w, Failing(p.d, step.HandlerFail? && step.permanent));
    }
  }

  /** Every enabled step keeps the invariant. */
  lemma StepKeeps(cfg: Config, s: State, step: Step)
    requires Inv(cfg, s) && Enabled(cfg, s, step)
    ensures Inv(cfg, Apply(cfg, s, step))
  {
    match step {
      case Tick(e) => TickKeeps(cfg, s, e);
      case BeginProduce(w) => PhaseOnly(cfg, s, w, Producing(Tx(s.now, [], map[])));
      case RollBackProduce(w) => PhaseOnly(cfg, s, w, Idle);
      case FailureUnrecorded(w) => PhaseOnly(cfg, s, w, Idle);
      case Publish(_, _, _, _, _) => PublishKeeps(cfg, s, step);
      case CommitProduce(w) => CommitProduceKeeps(cfg, s, w);
      case Claim(w, c, topic, picks) => ClaimAllKeeps(cfg, s, w, c, topic, picks);
      case ParkUndecodable(w, i, e) => ParkKeeps(cfg, s, w, i, e);
      case Begin(w) => BeginKeeps(cfg, s, w);
      case Ack(w) => AckKeeps(cfg, s, w);
      case Commit(w) => CommitKeeps(cfg, s, w, Idle);
      case CommitReplyLost(w) => CommitKeeps(cfg, s, w, Failing(WorkerOf(s, w).phase.d, false));
      case RecordFailure(w, delay, e) => RecordFailureKeeps(cfg, s, w, delay, e);
      case Crash(w) => CrashKeeps(cfg, s, w);
      case Revive(slot) => ReviveKeeps(cfg, s, slot);
      case HandlerWrite(_, _) => HandlerKeeps(cfg, s, step);
      case HandlerFail(_, _) => HandlerKeeps(cfg, s, step);
      case Abort(_) => HandlerKeeps(cfg, s, step);
    }
  }

  lemma {:induction false} RunInv(cfg: Config, steps: seq<Step>)
    requires IsRun(cfg, steps)
    ensures Inv(cfg, After(cfg, steps))
    decreases |steps|
  {
    if steps == [] {
      InitialInv(cfg);
    } else {
      RunInv(cfg, steps[..|steps| - 1]);
      StepKeeps(cfg, After(cfg, steps[..|steps| - 1]), steps[|steps| - 1]);
    }
  }
}
