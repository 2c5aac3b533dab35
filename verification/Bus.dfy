/**
 * The durable message bus of crates/gum-bus as a step system: the SQL
 * statements as functions on one delivery row, and around them the producers,
 * the competing workers with their open transactions, the row locks, the
 * clock, crashes and the operator.
 */
module Bus {
  import opened Prelude
  import opened BusContracts

  type Time = nat
  type Token = nat
  type MessageId = nat
  type WorkerId = nat
  type Write = nat

  // ---------------------------------------------------------------- the tables

  /** SHA-256 of a payload, as a free constructor: equal only for equal payloads. */
  datatype PayloadHash = Sha256(payload: Message)

  /** A row of `bus.messages`. `parses`: the consumers' binary decodes the payload. */
  datatype Logged = Logged(topic: Topic, key: string, hash: PayloadHash, schemaVersion: nat, parses: bool,
                           publishedAt: Time)

  datatype RowState = Pending | Done | Dead

  /** A row of `bus.deliveries`, without its key. */
  datatype Row = Row(state: RowState, attemptCount: nat, availableAt: Time,
                     leaseToken: Option<Token>, leasedUntil: Option<Time>,
                     lastError: Option<string>, lastAttemptAt: Option<Time>, doneAt: Option<Time>)

  /** The primary key of `bus.deliveries`. */
  datatype Slot = Slot(id: MessageId, consumer: string)

  function FreshRow(now: Time): Row {
    Row(Pending, 0, now, None, None, None, None, None)
  }

  predicate Claimable(row: Row, now: Time) {
    && row.state == Pending
    && row.availableAt <= now
    && (row.leasedUntil.None? || row.leasedUntil.value < now)
  }

  function ClaimRow(row: Row, token: Token, now: Time, lease: nat): Row {
    row.(leaseToken := Some(token), leasedUntil := Some(now + lease),
         attemptCount := row.attemptCount + 1, lastAttemptAt := Some(now))
  }

  /** The guard every worker statement carries: this lease, still pending. */
  predicate Matches(row: Row, token: Token) {
    row.leaseToken == Some(token) && row.state == Pending
  }

  function AckRow(row: Row, at: Time): Row {
    row.(state := Done, doneAt := Some(at), leaseToken := None, leasedUntil := None, lastError := None)
  }

  function RescheduleRow(row: Row, token: Token, at: Time, error: string): Row {
    if Matches(row, token)
    then row.(availableAt := at, leaseToken := None, leasedUntil := None, lastError := Some(error))
    else row
  }

  function ParkRow(row: Row, token: Token, error: string): Row {
    if Matches(row, token)
    then row.(state := Dead, leaseToken := None, leasedUntil := None, lastError := Some(error))
    else row
  }

  function ReviveRow(row: Row, now: Time): Row {
    if row.state == Dead
    then row.(state := Pending, attemptCount := 0, availableAt := now, lastError := None)
    else row
  }

  /** `Consumer::fail`: permanent or exhausted failures park, the others reschedule. */
  predicate Exhausted(maxAttempts: nat, d: Delivery, permanent: bool) {
    permanent || d.attempt >= maxAttempts
  }

  function FailRow(maxAttempts: nat, row: Row, d: Delivery, permanent: bool, at: Time, error: string): Row {
    if Exhausted(maxAttempts, d, permanent)
    then ParkRow(row, d.token, error)
    else RescheduleRow(row, d.token, at, error)
  }

  // ---------------------------------------------------------------- the processes

  datatype Delivery = Delivery(slot: Slot, token: Token, attempt: nat)

  /** An open transaction: handler writes and outbox inserts nobody else sees. */
  datatype Tx = Tx(startedAt: Time, writes: seq<Write>, inserted: map<MessageId, Logged>)

  /** What a worker is doing; once the ack ran in its transaction, the row is locked. */
  datatype Phase =
    | Idle
    | Producing(tx: Tx)
    | Handling(d: Delivery, tx: Tx)
    | Acked(d: Delivery, tx: Tx)
    | Failing(d: Delivery, permanent: bool)

  datatype Worker = Worker(queue: seq<Delivery>, phase: Phase)

  /** Handler writes of one delivery that a commit made visible. */
  datatype Effect = Effect(slot: Slot, token: Token, writes: seq<Write>)

  /** Every token `gen_random_uuid` has produced, and the claim it went to. */
  datatype Issue = Issue(worker: WorkerId, delivery: Delivery)

  datatype State = State(now: Time, log: map<MessageId, Logged>, rows: map<Slot, Row>,
                         issued: map<Token, Issue>, workers: map<WorkerId, Worker>, effects: seq<Effect>)

  datatype Config = Config(subscriptions: set<(string, Topic)>, lease: nat, maxAttempts: nat, batchSize: nat,
                           schemaVersion: nat)

  function Initial(): State {
    State(0, map[], map[], map[], map[], [])
  }

  function WorkerOf(s: State, w: WorkerId): Worker {
    if w in s.workers then s.workers[w] else Worker([], Idle)
  }

  function SetWorker(s: State, w: WorkerId, worker: Worker): State {
    s.(workers := s.workers[w := worker])
  }

  function SetPhase(s: State, w: WorkerId, phase: Phase): State {
    SetWorker(s, w, WorkerOf(s, w).(phase := phase))
  }

  function Current(p: Phase): seq<Delivery> {
    match p
    case Idle => []
    case Producing(_) => []
    case Handling(d, _) => [d]
    case Acked(d, _) => [d]
    case Failing(d, _) => [d]
  }

  /** The deliveries whose lease a worker believes it holds. */
  function HeldBy(s: State, w: WorkerId): seq<Delivery> {
    Current(WorkerOf(s, w).phase) + WorkerOf(s, w).queue
  }

  function InsertedBy(s: State, w: WorkerId): map<MessageId, Logged> {
    match WorkerOf(s, w).phase
    case Producing(tx) => tx.inserted
    case Handling(_, tx) => tx.inserted
    case Acked(_, tx) => tx.inserted
    case _ => map[]
  }

  ghost predicate LockedBy(s: State, w: WorkerId, slot: Slot) {
    WorkerOf(s, w).phase.Acked? && WorkerOf(s, w).phase.d.slot == slot
  }

  ghost predicate Unlocked(s: State, slot: Slot) {
    forall w :: !LockedBy(s, w, slot)
  }

  // ---------------------------------------------------------------- publishing

  predicate SameKey(a: Logged, b: Logged) {
    a.topic == b.topic && a.key == b.key
  }

  function Entry(m: Message, schemaVersion: nat, parses: bool, at: Time): Logged {
    Logged(TopicOf(m), DeduplicationKey(m), Sha256(m), schemaVersion, parses, at)
  }

  /** The unique index on (topic, deduplication_key) finds a conflicting row. */
  ghost predicate HasKey(log: map<MessageId, Logged>, e: Logged) {
    exists id :: id in log && SameKey(log[id], e)
  }

  /** INSERT ... ON CONFLICT (topic, deduplication_key) DO NOTHING. */
  ghost function InsertInto(visible: map<MessageId, Logged>, tx: Tx, id: MessageId, e: Logged): Tx {
    if HasKey(visible + tx.inserted, e) then tx else tx.(inserted := tx.inserted[id := e])
  }

  /** Nobody has used this id: `Uuid::now_v7` is fresh. */
  ghost predicate FreshId(s: State, id: MessageId) {
    id !in s.log && forall w :: id !in InsertedBy(s, w)
  }

  /** No other open transaction holds the index entry the insert would wait for. */
  ghost predicate KeyFree(s: State, w: WorkerId, e: Logged) {
    forall v :: v != w ==> !HasKey(InsertedBy(s, v), e)
  }

  /** The fan-out trigger: one pending row per subscribed consumer. */
  ghost function FanOut(cfg: Config, inserted: map<MessageId, Logged>, now: Time): (rows: map<Slot, Row>)
    ensures forall k :: k in rows <==>
                        k.id in inserted && (k.consumer, inserted[k.id].topic) in cfg.subscriptions
    ensures forall k :: k in rows ==> rows[k] == FreshRow(now)
  {
    var slots := set id, sub | id in inserted && sub in cfg.subscriptions && sub.1 == inserted[id].topic
                   :: Slot(id, sub.0);
    map k | k in slots :: FreshRow(now)
  }

  ghost function Publishing(cfg: Config, s: State, tx: Tx): State {
    s.(log := s.log + tx.inserted, rows := s.rows + FanOut(cfg, tx.inserted, tx.startedAt))
  }

  // ---------------------------------------------------------------- steps

  datatype Pick = Pick(slot: Slot, token: Token)

  datatype Step =
    | Tick(elapsed: nat)
    | BeginProduce(w: WorkerId)
    | Publish(w: WorkerId, message: Message, id: MessageId, schemaVersion: nat, parses: bool)
    | CommitProduce(w: WorkerId)
    | RollBackProduce(w: WorkerId)
    | Claim(w: WorkerId, consumer: string, topic: Topic, picks: seq<Pick>)
    | ParkUndecodable(w: WorkerId, index: nat, error: string)
    | Begin(w: WorkerId)
    | HandlerWrite(w: WorkerId, write: Write)
    | HandlerFail(w: WorkerId, permanent: bool)
    | Ack(w: WorkerId)
    | Commit(w: WorkerId)
    | CommitReplyLost(w: WorkerId)
    | Abort(w: WorkerId)
    | RecordFailure(w: WorkerId, delay: nat, error: string)
    | FailureUnrecorded(w: WorkerId)
    | Crash(w: WorkerId)
    | Revive(slot: Slot)

  predicate Decodes(cfg: Config, e: Logged) {
    e.schemaVersion <= cfg.schemaVersion && e.parses
  }

  ghost predicate PickOk(cfg: Config, s: State, consumer: string, topic: Topic, p: Pick) {
    && p.slot in s.rows && p.slot.id in s.log
    && p.slot.consumer == consumer && s.log[p.slot.id].topic == topic
    && Claimable(s.rows[p.slot], s.now)
    && Unlocked(s, p.slot)
    && p.token !in s.issued
  }

  ghost predicate PicksOk(cfg: Config, s: State, consumer: string, topic: Topic, picks: seq<Pick>) {
    && (forall i :: 0 <= i < |picks| ==> PickOk(cfg, s, consumer, topic, picks[i]))
    && (forall i, j :: 0 <= i < j < |picks| ==>
          picks[i].slot != picks[j].slot && picks[i].token != picks[j].token)
  }

  ghost predicate Enabled(cfg: Config, s: State, step: Step) {
    match step
    case Tick(_) => true
    case BeginProduce(w) => WorkerOf(s, w) == Worker([], Idle)
    case Publish(w, m, id, v, parses) =>
      var p := WorkerOf(s, w).phase;
      (p.Producing? || p.Handling?) && FreshId(s, id) && KeyFree(s, w, Entry(m, v, parses, p.tx.startedAt))
    case CommitProduce(w) => WorkerOf(s, w).phase.Producing?
    case RollBackProduce(w) => WorkerOf(s, w).phase.Producing?
    case Claim(w, consumer, topic, picks) =>
      && WorkerOf(s, w) == Worker([], Idle)
      && |picks| <= cfg.batchSize
      && PicksOk(cfg, s, consumer, topic, picks)
    case ParkUndecodable(w, i, _) =>
      && WorkerOf(s, w).phase.Idle?
      && i < |WorkerOf(s, w).queue|
      && var d := WorkerOf(s, w).queue[i];
      d.slot in s.rows && d.slot.id in s.log && !Decodes(cfg, s.log[d.slot.id]) && Unlocked(s, d.slot)
    case Begin(w) =>
      && WorkerOf(s, w).phase.Idle?
      && WorkerOf(s, w).queue != []
      && (forall d :: d in WorkerOf(s, w).queue ==> d.slot.id in s.log && Decodes(cfg, s.log[d.slot.id]))
    case HandlerWrite(w, _) => WorkerOf(s, w).phase.Handling?
    case HandlerFail(w, _) => WorkerOf(s, w).phase.Handling?
    case Ack(w) =>
      var p := WorkerOf(s, w).phase;
      p.Handling? && p.d.slot in s.rows && Unlocked(s, p.d.slot)
    case Commit(w) => WorkerOf(s, w).phase.Acked? && WorkerOf(s, w).phase.d.slot in s.rows
    case CommitReplyLost(w) => WorkerOf(s, w).phase.Acked? && WorkerOf(s, w).phase.d.slot in s.rows
    case Abort(w) => WorkerOf(s, w).phase.Acked?
    case RecordFailure(w, _, _) =>
      var p := WorkerOf(s, w).phase;
      p.Failing? && p.d.slot in s.rows && Unlocked(s, p.d.slot)
    case FailureUnrecorded(w) => WorkerOf(s, w).phase.Failing?
    case Crash(w) => true
    case Revive(slot) => slot in s.rows && Unlocked(s, slot)
  }

  function ClaimOne(s: State, w: WorkerId, lease: nat, p: Pick): State
    requires p.slot in s.rows
  {
    var row := ClaimRow(s.rows[p.slot], p.token, s.now, lease);
    var d := Delivery(p.slot, p.token, row.attemptCount);
    var worker := WorkerOf(s, w);
    SetWorker(s.(rows := s.rows[p.slot := row], issued := s.issued[p.token := Issue(w, d)]),
              w, worker.(queue := worker.queue + [d]))
  }

  /** The claim statement: every picked row updated in one commit. */
  function ClaimAll(s: State, w: WorkerId, lease: nat, picks: seq<Pick>): State
    requires forall i :: 0 <= i < |picks| ==> picks[i].slot in s.rows
    decreases picks
  {
    if picks == [] then s else ClaimAll(ClaimOne(s, w, lease, picks[0]), w, lease, picks[1..])
  }

  /** What a commit of an acknowledged delivery makes durable, all at once. */
  ghost function Committed(cfg: Config, s: State, d: Delivery, tx: Tx): State
    requires d.slot in s.rows
  {
    var t := s.(rows := s.rows[d.slot := AckRow(s.rows[d.slot], tx.startedAt)],
                effects := s.effects + [Effect(d.slot, d.token, tx.writes)]);
    Publishing(cfg, t, tx)
  }

  function WithTx(p: Phase, tx: Tx): Phase
    requires p.Producing? || p.Handling?
  {
    if p.Producing? then Producing(tx) else Handling(p.d, tx)
  }

  ghost function Apply(cfg: Config, s: State, step: Step): State
    requires Enabled(cfg, s, step)
  {
    match step
    case Tick(elapsed) => s.(now := s.now + elapsed)
    case BeginProduce(w) => SetPhase(s, w, Producing(Tx(s.now, [], map[])))
    case Publish(w, m, id, v, parses) =>
      var p := WorkerOf(s, w).phase;
      SetPhase(s, w, WithTx(p, InsertInto(s.log, p.tx, id, Entry(m, v, parses, p.tx.startedAt))))
    case CommitProduce(w) => SetPhase(Publishing(cfg, s, WorkerOf(s, w).phase.tx), w, Idle)
    case RollBackProduce(w) => SetPhase(s, w, Idle)
    case Claim(w, _, _, picks) => ClaimAll(s, w, cfg.lease, picks)
    case ParkUndecodable(w, i, error) =>
      var worker := WorkerOf(s, w);
      var d := worker.queue[i];
      SetWorker(s.(rows := s.rows[d.slot := ParkRow(s.rows[d.slot], d.token, error)]),
                w, worker.(queue := worker.queue[..i] + worker.queue[i + 1..]))
    case Begin(w) =>
      var worker := WorkerOf(s, w);
      SetWorker(s, w, Worker(worker.queue[1..], Handling(worker.queue[0], Tx(s.now, [], map[]))))
    case HandlerWrite(w, x) =>
      var p := WorkerOf(s, w).phase;
      SetPhase(s, w, Handling(p.d, p.tx.(writes := p.tx.writes + [x])))
    case HandlerFail(w, permanent) => SetPhase(s, w, Failing(WorkerOf(s, w).phase.d, permanent))
    case Ack(w) =>
      var p := WorkerOf(s, w).phase;
      SetPhase(s, w, if Matches(s.rows[p.d.slot], p.d.token) then Acked(p.d, p.tx) else Failing(p.d, false))
    case Commit(w) =>
      var p := WorkerOf(s, w).phase;
      SetPhase(Committed(cfg, s, p.d, p.tx), w, Idle)
    case CommitReplyLost(w) =>
      var p := WorkerOf(s, w).phase;
      SetPhase(Committed(cfg, s, p.d, p.tx), w, Failing(p.d, false))
    case Abort(w) => SetPhase(s, w, Failing(WorkerOf(s, w).phase.d, false))
    case RecordFailure(w, delay, error) =>
      var p := WorkerOf(s, w).phase;
      SetPhase(s.(rows := s.rows[p.d.slot :=
                           FailRow(cfg.maxAttempts, s.rows[p.d.slot], p.d, p.permanent, s.now + delay, error)]),
               w, Idle)
    case FailureUnrecorded(w) => SetPhase(s, w, Idle)
    case Crash(w) => s.(workers := s.workers - {w})
    case Revive(slot) => s.(rows := s.rows[slot := ReviveRow(s.rows[slot], s.now)])
  }

  // ---------------------------------------------------------------- runs

  /** A run is any sequence of steps, each enabled where it happens. */
  ghost predicate IsRun(cfg: Config, steps: seq<Step>)
    decreases |steps|, 0
  {
    steps == [] ||
    (var before := steps[..|steps| - 1];
     IsRun(cfg, before) && Enabled(cfg, After(cfg, before), steps[|steps| - 1]))
  }

  ghost function After(cfg: Config, steps: seq<Step>): State
    requires IsRun(cfg, steps)
    decreases |steps|, 1
  {
    if steps == [] then Initial()
    else
      var before := steps[..|steps| - 1];
      Apply(cfg, After(cfg, before), steps[|steps| - 1])
  }
}
