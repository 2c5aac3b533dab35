/** What a handler's transaction makes durable, read off the steps of the run. */
module BusTransactions {
  import opened Prelude
  import opened BusContracts
  import opened Bus
  import opened BusInvariant
  import opened BusRuns
  import opened BusDecoding

  /** The worker opens a transaction with this step. */
  predicate Opens(step: Step, w: WorkerId) {
    step == Begin(w) || step == BeginProduce(w)
  }

  /** What the worker's handler wrote since it last opened a transaction. */
  function WritesSince(run: seq<Step>, w: WorkerId): seq<Write> {
    if run == [] then []
    else
      var before, step := WritesSince(run[..|run| - 1], w), run[|run| - 1];
      if Opens(step, w) then []
      else if step.HandlerWrite? && step.w == w then before + [step.write]
      else before
  }

  /** What it asked to publish since then. */
  function PublishedSince(run: seq<Step>, w: WorkerId): seq<Message> {
    if run == [] then []
    else
      var before, step := PublishedSince(run[..|run| - 1], w), run[|run| - 1];
      if Opens(step, w) then []
      else if step.Publish? && step.w == w then before + [step.message]
      else before
  }

  /** The clock when it did. */
  ghost function OpenedAt(cfg: Config, run: seq<Step>, w: WorkerId): Time
    requires IsRun(cfg, run)
    decreases |run|
  {
    if run == [] then 0
    else
      var before := run[..|run| - 1];
      if Opens(run[|run| - 1], w) then After(cfg, before).now else OpenedAt(cfg, before, w)
  }

  /** The log holds a message with this message's topic and key. */
  ghost predicate InLog(log: map<MessageId, Logged>, m: Message) {
    exists id :: id in log && log[id].topic == TopicOf(m) && log[id].key == DeduplicationKey(m)
  }

  ghost predicate AllInLog(log: map<MessageId, Logged>, messages: seq<Message>) {
    forall i :: 0 <= i < |messages| ==> InLog(log, messages[i])
  }

  predicate InTransaction(p: Phase) {
    p.Producing? || p.Handling? || p.Acked?
  }

  /** An open transaction holds these writes and these messages, but for those already in the log. */
  ghost predicate Holds(log: map<MessageId, Logged>, tx: Tx, writes: seq<Write>, messages: seq<Message>, at: Time) {
    && tx.startedAt == at && tx.writes == writes
    && AllInLog(log + tx.inserted, messages)
    && Brings(tx.inserted, messages, at)
  }

  /** Nothing is inserted that was not asked for. */
  ghost predicate Brings(inserted: map<MessageId, Logged>, messages: seq<Message>, at: Time) {
    forall id :: id in inserted ==> inserted[id].hash.payload in messages && inserted[id].publishedAt == at
  }

  ghost predicate TxOk(s: State, w: WorkerId, writes: seq<Write>, messages: seq<Message>, at: Time) {
    InTransaction(WorkerOf(s, w).phase) ==> Holds(s.log, WorkerOf(s, w).phase.tx, writes, messages, at)
  }

  lemma InLogGrows(log: map<MessageId, Logged>, longer: map<MessageId, Logged>, m: Message)
    requires InLog(log, m) && forall id :: id in log ==> id in longer && longer[id] == log[id]
    ensures InLog(longer, m)
  {
    var id :| id in log && log[id].topic == TopicOf(m) && log[id].key == DeduplicationKey(m);
    assert id in longer;
  }

  lemma AllInLogGrows(log: map<MessageId, Logged>, longer: map<MessageId, Logged>, messages: seq<Message>)
    requires AllInLog(log, messages) && forall id :: id in log ==> id in longer && longer[id] == log[id]
    ensures AllInLog(longer, messages)
  {
    forall i | 0 <= i < |messages|
      ensures InLog(longer, messages[i])
    {
      InLogGrows(log, longer, messages[i]);
    }
  }

  lemma AllInLogAppend(log: map<MessageId, Logged>, messages: seq<Message>, m: Message)
    requires AllInLog(log, messages) && InLog(log, m)
    ensures AllInLog(log, messages + [m])
  {
  }

  /** A transaction stays as it is while others extend the log. */
  lemma HoldsLonger(log: map<MessageId, Logged>, longer: map<MessageId, Logged>, tx: Tx, writes: seq<Write>, messages: seq<Message>, at: Time)
    requires Holds(log, tx, writes, messages, at)
    requires forall id :: id in log ==> id in longer && longer[id] == log[id]
    requires forall id :: id in log ==> id !in tx.inserted
    ensures Holds(longer, tx, writes, messages, at)
  {
    AllInLogGrows(log + tx.inserted, longer + tx.inserted, messages);
  }

  /** The insert leaves its key in what the transaction sees, by itself or by the message that was there. */
  lemma InsertShows(log: map<MessageId, Logged>, tx: Tx, id: MessageId, e: Logged, m: Message)
    requires e.topic == TopicOf(m) && e.key == DeduplicationKey(m)
    ensures InLog(log + InsertInto(log, tx, id, e).inserted, m)
  {
    var grown := log + InsertInto(log, tx, id, e).inserted;
    if HasKey(log + tx.inserted, e) {
      var other :| other in log + tx.inserted && SameKey((log + tx.inserted)[other], e);
      assert other in grown;
    } else {
      assert id in grown && grown[id] == e;
    }
  }

  lemma BringsMore(inserted: map<MessageId, Logged>, messages: seq<Message>, at: Time, id: MessageId, e: Logged)
    requires Brings(inserted, messages, at) && e.publishedAt == at
    ensures Brings(inserted, messages + [e.hash.payload], at)
    ensures Brings(inserted[id := e], messages + [e.hash.payload], at)
  {
    assert (messages + [e.hash.payload])[|messages|] == e.hash.payload;
  }

  lemma InsertGrows(log: map<MessageId, Logged>, tx: Tx, id: MessageId, e: Logged)
    requires id !in log && id !in tx.inserted
    ensures var all, grown := log + tx.inserted, log + InsertInto(log, tx, id, e).inserted;
            forall x :: x in all ==> x in grown && grown[x] == all[x]
  {
  }

  lemma InsertHolds(log: map<MessageId, Logged>, tx: Tx, id: MessageId, e: Logged, m: Message, writes: seq<Write>, messages: seq<Message>, at: Time)
    requires Holds(log, tx, writes, messages, at) && id !in log && id !in tx.inserted
    requires InLog(log + InsertInto(log, tx, id, e).inserted, m) && e.hash.payload == m && e.publishedAt == at
    ensures Holds(log, InsertInto(log, tx, id, e), writes, messages + [m], at)
  {
    var after := InsertInto(log, tx, id, e);
    InsertGrows(log, tx, id, e);
    AllInLogGrows(log + tx.inserted, log + after.inserted, messages);
    AllInLogAppend(log + after.inserted, messages, m);
    BringsMore(tx.inserted, messages, at, id, e);
  }

  /** Nobody else's steps touch a worker's transaction. */
  lemma OthersStay(cfg: Config, s: State, step: Step, w: WorkerId)
    requires Enabled(cfg, s, step) && (step.Tick? || step.Revive? || step.w != w)
    ensures WorkerOf(Apply(cfg, s, step), w) == WorkerOf(s, w)
  {
    if step.Claim? {
      ClaimAllRows(s, step.w, cfg.lease, step.picks);
    }
  }

  /** A worker's transaction moves by its own steps only. */
  lemma PhaseMoves(cfg: Config, s: State, step: Step, w: WorkerId)
    requires Enabled(cfg, s, step) && InTransaction(WorkerOf(Apply(cfg, s, step), w).phase)
    ensures var p, q := WorkerOf(s, w).phase, WorkerOf(Apply(cfg, s, step), w).phase;
            if Opens(step, w) then q.tx == Tx(s.now, [], map[])
            else
              && InTransaction(p)
              && q.tx == (if step.Publish? && step.w == w then
                            InsertInto(s.log, p.tx, step.id, Entry(step.message, step.schemaVersion, step.parses, p.tx.startedAt))
                          else if step.HandlerWrite? && step.w == w then p.tx.(writes := p.tx.writes + [step.write])
                          else p.tx)
  {
    if step.Tick? || step.Revive? || step.w != w {
      OthersStay(cfg, s, step, w);
    } else if step.Claim? {
      ClaimAllRows(s, step.w, cfg.lease, step.picks);
    }
  }

  lemma {:induction false} RunTx(cfg: Config, run: seq<Step>, w: WorkerId)
    requires IsRun(cfg, run)
    ensures TxOk(After(cfg, run), w, WritesSince(run, w), PublishedSince(run, w), OpenedAt(cfg, run, w))
    decreases |run|
  {
    if run != [] && InTransaction(WorkerOf(After(cfg, run), w).phase) {
      var before, step := run[..|run| - 1], run[|run| - 1];
      RunTx(cfg, before, w);
      RunInv(cfg, before);
      TxStep(cfg, After(cfg, before), step, w, WritesSince(before, w), PublishedSince(before, w), OpenedAt(cfg, before, w));
    }
  }

  lemma TxStep(cfg: Config, s: State, step: Step, w: WorkerId, writes: seq<Write>, messages: seq<Message>, at: Time)
    requires Inv(cfg, s) && Enabled(cfg, s, step) && TxOk(s, w, writes, messages, at)
    requires InTransaction(WorkerOf(Apply(cfg, s, step), w).phase)
    ensures TxOk(Apply(cfg, s, step), w,
                 if Opens(step, w) then [] else if step.HandlerWrite? && step.w == w then writes + [step.write] else writes,
                 if Opens(step, w) then [] else if step.Publish? && step.w == w then messages + [step.message] else messages,
                 if Opens(step, w) then s.now else at)
  {
    PhaseMoves(cfg, s, step, w);
    var t := Apply(cfg, s, step);
    if !Opens(step, w) {
      var tx := WorkerOf(s, w).phase.tx;
      if step.Publish? && step.w == w {
        assert InsertedBy(s, w) == tx.inserted;
        var e := Entry(step.message, step.schemaVersion, step.parses, tx.startedAt);
        InsertShows(s.log, tx, step.id, e, step.message);
        InsertHolds(s.log, tx, step.id, e, step.message, writes, messages, at);
      } else {
        forall id | id in s.log
          ensures id in t.log && t.log[id] == s.log[id] && id !in tx.inserted
        {
          LogGrows(cfg, s, step, id);
          assert InsertedBy(s, w) == tx.inserted && Apart(s.log, InsertedBy(s, w));
        }
        HoldsLonger(s.log, t.log, tx, writes, messages, at);
      }
    }
  }

  /**
   * A commit is the handler's transaction, whole: the one effect it adds carries every write the
   * handler made since it began, in order and nothing else, and with it every message the handler
   * asked to publish is in the log, which gains nothing else.
   */
  lemma CommitIsWhole(cfg: Config, run: seq<Step>, step: Step)
    requires IsRun(cfg, run) && Enabled(cfg, After(cfg, run), step) && (step.Commit? || step.CommitReplyLost?)
    ensures var s, t, d := After(cfg, run), Apply(cfg, After(cfg, run), step), WorkerOf(After(cfg, run), step.w).phase.d;
            && t.effects == s.effects + [Effect(d.slot, d.token, WritesSince(run, step.w))]
            && AllInLog(t.log, PublishedSince(run, step.w))
            && (forall id :: id in t.log && id !in s.log ==> t.log[id].hash.payload in PublishedSince(run, step.w))
            && (forall id :: id in s.log ==> id in t.log && t.log[id] == s.log[id])
  {
    var s := After(cfg, run);
    RunTx(cfg, run, step.w);
    RunInv(cfg, run);
    EffectStep(cfg, s, step);
    CommitLogs(cfg, s, step);
    forall id | id in s.log
      ensures id in Apply(cfg, s, step).log && Apply(cfg, s, step).log[id] == s.log[id]
    {
      LogGrows(cfg, s, step, id);
    }
  }

  lemma CommitLogs(cfg: Config, s: State, step: Step)
    requires Enabled(cfg, s, step) && (step.CommitProduce? || step.Commit? || step.CommitReplyLost?)
    ensures InTransaction(WorkerOf(s, step.w).phase) && Apply(cfg, s, step).log == s.log + WorkerOf(s, step.w).phase.tx.inserted
  {
  }

  /** The same for a producer that is no handler. */
  lemma ProducerCommitIsWhole(cfg: Config, run: seq<Step>, w: WorkerId)
    requires IsRun(cfg, run) && Enabled(cfg, After(cfg, run), CommitProduce(w))
    ensures var s, t := After(cfg, run), Apply(cfg, After(cfg, run), CommitProduce(w));
            && t.effects == s.effects
            && AllInLog(t.log, PublishedSince(run, w))
            && (forall id :: id in t.log && id !in s.log ==> t.log[id].hash.payload in PublishedSince(run, w))
  {
    RunTx(cfg, run, w);
    RunInv(cfg, run);
    EffectStep(cfg, After(cfg, run), CommitProduce(w));
    CommitLogs(cfg, After(cfg, run), CommitProduce(w));
  }

  /** Every other end of a transaction, and every step inside one, leaves log and effects alone. */
  lemma OnlyCommitsShow(cfg: Config, run: seq<Step>, step: Step)
    requires IsRun(cfg, run) && Enabled(cfg, After(cfg, run), step) && !step.Commit? && !step.CommitReplyLost? && !step.CommitProduce?
    ensures Apply(cfg, After(cfg, run), step).log == After(cfg, run).log
    ensures Apply(cfg, After(cfg, run), step).effects == After(cfg, run).effects
  {
    RunInv(cfg, run);
    EffectStep(cfg, After(cfg, run), step);
    LogStep(cfg, After(cfg, run), step);
  }

  // ------------------------------------------------------------ how transactions end

  /** The worker's transaction ends with this step: by a commit or a rollback, by failing, by a lost lease, or with the worker. */
  ghost predicate Closes(s: State, step: Step, w: WorkerId) {
    match step
    case CommitProduce(v) => v == w
    case RollBackProduce(v) => v == w
    case HandlerFail(v, _) => v == w
    case Ack(v) =>
      v == w && WorkerOf(s, w).phase.Handling?
      && var d := WorkerOf(s, w).phase.d;
      d.slot in s.rows && !(s.rows[d.slot].leaseToken == Some(d.token) && s.rows[d.slot].state == Pending)
    case Commit(v) => v == w
    case CommitReplyLost(v) => v == w
    case Abort(v) => v == w
    case Crash(v) => v == w
    case _ => false
  }

  /** A worker has a transaction open exactly when it opened one and none of these ended it. */
  ghost predicate OpenIn(cfg: Config, run: seq<Step>, w: WorkerId)
    requires IsRun(cfg, run)
    decreases |run|
  {
    run != []
    && var before, step := run[..|run| - 1], run[|run| - 1];
    Opens(step, w) || (OpenIn(cfg, before, w) && !Closes(After(cfg, before), step, w))
  }

  lemma OpenStep(cfg: Config, s: State, step: Step, w: WorkerId)
    requires Enabled(cfg, s, step)
    ensures InTransaction(WorkerOf(Apply(cfg, s, step), w).phase) <==>
            Opens(step, w) || (InTransaction(WorkerOf(s, w).phase) && !Closes(s, step, w))
  {
    if step.Tick? || step.Revive? || step.w != w {
      OthersStay(cfg, s, step, w);
    } else if step.Claim? {
      ClaimAllRows(s, step.w, cfg.lease, step.picks);
    }
  }

  lemma {:induction false} OpenExactly(cfg: Config, run: seq<Step>, w: WorkerId)
    requires IsRun(cfg, run)
    ensures InTransaction(WorkerOf(After(cfg, run), w).phase) <==> OpenIn(cfg, run, w)
    decreases |run|
  {
    if run != [] {
      OpenExactly(cfg, run[..|run| - 1], w);
      OpenStep(cfg, After(cfg, run[..|run| - 1]), run[|run| - 1], w);
    }
  }
}
