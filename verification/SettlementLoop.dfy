/** The loop that searches a range in provider-sized chunks: `find_settlement` in crates/gum-signers/src/sweep.rs. */
module SettlementLoop {
  import opened Prelude
  import opened Settlement

  const U64_MAX: nat := U64_LIMIT - 1

  type U64 = n: nat | n <= U64_MAX

  /** The blocks to search and how many to ask for at once. */
  datatype Job = Job(fromBlock: U64, toBlock: U64, logRangeSize: U64)

  /** What the n-th request, for a range of blocks, comes back with. */
  type Asker = (nat, nat, nat) -> Outcome

  // ------------------------------------------------------------ one iteration

  /** Between iterations the loop holds where it is and how much it asks for. */
  datatype Loop = Running(start: U64, chunk: nat) | Ended(result: Result<SettlementEvent, ChainError>)

  /** The last block of the next request; the additions saturate. */
  function RangeEnd(start: U64, chunk: nat, toBlock: U64): U64
    requires chunk >= 1
  {
    Min(Min(start + (chunk - 1), U64_MAX), toBlock)
  }

  /** What an iteration makes of an answer to its request. */
  function Turn(found: Outcome, start: U64, chunk: nat, toBlock: U64): Loop
    requires start <= toBlock && chunk >= 1
  {
    if found.Ok? && found.value.Some? then Ended(Ok(found.value.value))
    else if found.Ok? then Running(Min(RangeEnd(start, chunk, toBlock) + 1, U64_MAX), chunk)
    else if found.error.LogRangeTooLarge? && chunk > 1 then Running(start, Max(chunk / 2, 1))
    else Ended(Err(found.error))
  }

  function Next(job: Job, ask: Asker, n: nat, s: Loop): (t: Loop)
    requires s.Running? ==> s.chunk >= 1
    ensures t.Running? ==> t.chunk >= 1
  {
    if s.Ended? then s
    else if s.start > job.toBlock then Ended(Err(Transient(NoSettlement)))
    else Turn(ask(n, s.start, RangeEnd(s.start, s.chunk, job.toBlock)), s.start, s.chunk, job.toBlock)
  }

  /** The loop after `n` iterations. */
  function At(job: Job, ask: Asker, n: nat): (s: Loop)
    ensures s.Running? ==> s.chunk >= 1
  {
    if n == 0 then Running(job.fromBlock, Max(job.logRangeSize, 1)) else Next(job, ask, n - 1, At(job, ask, n - 1))
  }

  ghost predicate Ends(job: Job, ask: Asker) {
    exists n :: At(job, ask, n).Ended?
  }

  /** An iteration leaves the loop where it was exactly at the last block there is, with nothing found in it. */
  lemma StateRepeatsExactly(found: Outcome, start: U64, chunk: nat, toBlock: U64)
    requires start <= toBlock && chunk >= 1
    ensures Turn(found, start, chunk, toBlock) == Running(start, chunk)
            <==> toBlock == U64_MAX && start == U64_MAX && found == Ok(None)
  {
  }

  // ------------------------------------------------------------ termination

  /** The loop never comes up empty at the last block number. */
  ghost predicate NeverStuck(job: Job, ask: Asker) {
    forall n :: At(job, ask, n).Running? && At(job, ask, n).start == U64_MAX <= job.toBlock ==> ask(n, U64_MAX, U64_MAX) != Ok(None)
  }

  /** Then every iteration moves on, asks for less, or ends. */
  lemma IterationProgresses(job: Job, ask: Asker, n: nat, start: U64, chunk: nat)
    requires NeverStuck(job, ask) && start <= job.toBlock && At(job, ask, n) == Running(start, chunk)
    ensures var t := Turn(ask(n, start, RangeEnd(start, chunk, job.toBlock)), start, chunk, job.toBlock);
            At(job, ask, n + 1) == t && (t.Running? ==> t.start > start || (t.start == start && t.chunk < chunk))
  {
  }

  lemma {:induction false} EndsFrom(job: Job, ask: Asker, n: nat) returns (m: nat)
    requires NeverStuck(job, ask)
    ensures At(job, ask, m).Ended?
    decreases match At(job, ask, n) case Ended(_) => 0 case Running(start, _) => 1 + U64_MAX - start,
              match At(job, ask, n) case Ended(_) => 0 case Running(_, chunk) => chunk
  {
    var s := At(job, ask, n);
    if s.Ended? {
      m := n;
    } else if s.start > job.toBlock {
      m := n + 1;
    } else {
      IterationProgresses(job, ask, n, s.start, s.chunk);
      m := EndsFrom(job, ask, n + 1);
    }
  }

  /** Short of the last block number, the loop ends whatever comes back. */
  lemma EndsBelowLastBlock(job: Job, ask: Asker)
    requires job.toBlock < U64_MAX
    ensures Ends(job, ask)
  {
    var m := EndsFrom(job, ask, 0);
  }

  /** Requests that find nothing. */
  function Silence(): Asker {
    (n, lo, hi) => Ok(None)
  }

  /** With the last block number as its end and nothing to find, the loop runs on. */
  lemma {:induction false} SilenceRunsOn(job: Job, n: nat)
    requires job.toBlock == U64_MAX
    ensures At(job, Silence(), n).Running?
  {
    if n > 0 {
      SilenceRunsOn(job, n - 1);
    }
  }

  /** The loop ends whatever comes back if and only if its end is below the last block number. */
  lemma AlwaysEndsExactly(job: Job)
    ensures (forall ask :: Ends(job, ask)) <==> job.toBlock < U64_MAX
  {
    if job.toBlock < U64_MAX {
      forall ask
        ensures Ends(job, ask)
      {
        EndsBelowLastBlock(job, ask);
      }
    } else if Ends(job, Silence()) {
      var n :| At(job, Silence(), n).Ended?;
      SilenceRunsOn(job, n);
    }
  }

  /** The loop, wherever it is never stuck, runs the iterations above to their end. */
  method RunLoop(job: Job, node: Node, payment: Address, token: Address) returns (r: Result<SettlementEvent, ChainError>, ghost last: nat)
    requires NeverStuck(job, Asking(node, payment, token))
    ensures At(job, Asking(node, payment, token), last) == Ended(r)
  {
    ghost var ask := Asking(node, payment, token);
    var chunk := Max(job.logRangeSize, 1);
    var start: U64 := job.fromBlock;
    var n := 0;
    while start <= job.toBlock
      invariant chunk >= 1 && At(job, ask, n) == Running(start, chunk)
      decreases U64_MAX + 1 - start, chunk
    {
      IterationProgresses(job, ask, n, start, chunk);
      var end := Min(Min(start + (chunk - 1), U64_MAX), job.toBlock);
      var found := Request(node, payment, token, n, start, end);
      n := n + 1;
      if found.Ok? && found.value.Some? {
        return Ok(found.value.value), n;
      } else if found.Ok? {
        start := Min(end + 1, U64_MAX);
      } else if found.error.LogRangeTooLarge? && chunk > 1 {
        chunk := Max(chunk / 2, 1);
      } else {
        return Err(found.error), n;
      }
    }
    return Err(Transient(NoSettlement)), n + 1;
  }

  method Request(node: Node, payment: Address, token: Address, n: nat, lo: nat, hi: nat) returns (found: Outcome)
    ensures found == Asking(node, payment, token)(n, lo, hi)
  {
    found := PaymentSettlementTx(node(n, lo, hi), payment, token);
  }

  // ------------------------------------------------------------ what it answers

  /** What one search of a range says, and where that is a sound thing to ask. */
  type Ranges = (nat, nat) -> Outcome
  type Soundness = (nat, nat) -> bool

  ghost predicate CutsAt(range: Ranges, sound: Soundness, lo: nat, mid: nat, hi: nat) {
    lo <= mid <= hi && sound(lo, hi) ==>
      sound(lo, mid) && sound(mid + 1, hi) && range(lo, hi) == OrElse(range(lo, mid), range(mid + 1, hi))
  }

  /** Sound ranges may be cut anywhere, and an empty one holds nothing. */
  ghost predicate Cuttable(range: Ranges, sound: Soundness) {
    && (forall lo, mid, hi :: CutsAt(range, sound, lo, mid, hi))
    && (forall lo, hi :: lo > hi ==> range(lo, hi) == Ok(None))
  }

  /** Answers are right where they are answers. */
  ghost predicate Right(ask: Asker, range: Ranges, sound: Soundness) {
    forall n, lo, hi :: sound(lo, hi) ==>
      ask(n, lo, hi) == range(lo, hi) || ask(n, lo, hi) == Err(LogRangeTooLarge) || ask(n, lo, hi) == Err(Transient(Transport))
  }

  /** And only ranges of more than one block are refused. */
  ghost predicate Willing(ask: Asker, range: Ranges, sound: Soundness) {
    forall n, lo, hi :: sound(lo, hi) && ask(n, lo, hi) != range(lo, hi) ==> lo < hi && ask(n, lo, hi) == Err(LogRangeTooLarge)
  }

  function Conclusion(r: Outcome): Result<SettlementEvent, ChainError> {
    if r.Err? then Err(r.error) else if r.value.None? then Err(Transient(NoSettlement)) else Ok(r.value.value)
  }

  /** What one search of the whole range would say, or why a request could not be made. */
  ghost predicate Answer(whole: Outcome, willing: bool, r: Result<SettlementEvent, ChainError>) {
    && (r == Conclusion(whole) || r == Err(LogRangeTooLarge) || r == Err(Transient(Transport)))
    && (willing ==> r == Conclusion(whole))
  }

  /** The rest of the range still holds the answer. */
  ghost predicate OnTrack(job: Job, range: Ranges, sound: Soundness, willing: bool, s: Loop) {
    match s
    case Running(start, _) =>
      && (start <= job.toBlock ==> sound(start, job.toBlock))
      && range(start, job.toBlock) == range(job.fromBlock, job.toBlock)
    case Ended(r) => Answer(range(job.fromBlock, job.toBlock), willing, r)
  }

  /** Where the loop goes after a part without a find. */
  lemma MovesOn(job: Job, range: Ranges, sound: Soundness, start: U64, end: U64)
    requires Cuttable(range, sound) && start <= end <= job.toBlock && sound(start, job.toBlock) && range(start, end) == Ok(None)
    ensures var next := Min(end + 1, U64_MAX);
            && (next <= job.toBlock ==> sound(next, job.toBlock))
            && range(next, job.toBlock) == range(start, job.toBlock)
  {
    assert CutsAt(range, sound, start, end, job.toBlock);
    if end == U64_MAX > start {
      assert CutsAt(range, sound, start, U64_MAX - 1, job.toBlock);
    }
  }

  /** What an iteration can come to. */
  lemma TurnCases(found: Outcome, part: Outcome, rest: Outcome, start: U64, chunk: nat, toBlock: U64, willing: bool)
    requires start <= toBlock && chunk >= 1
    requires found == part || found == Err(LogRangeTooLarge) || found == Err(Transient(Transport))
    requires willing && found != part ==> start < RangeEnd(start, chunk, toBlock) && found == Err(LogRangeTooLarge)
    ensures var t := Turn(found, start, chunk, toBlock);
            if t.Ended? then Answer(OrElse(part, rest), willing, t.result)
            else t.start == start || (part == Ok(None) && t.start == Min(RangeEnd(start, chunk, toBlock) + 1, U64_MAX))
  {
  }

  lemma NextOnTrack(job: Job, ask: Asker, range: Ranges, sound: Soundness, willing: bool, n: nat, s: Loop)
    requires Cuttable(range, sound) && Right(ask, range, sound) && (willing ==> Willing(ask, range, sound))
    requires OnTrack(job, range, sound, willing, s) && (s.Running? ==> s.chunk >= 1)
    ensures OnTrack(job, range, sound, willing, Next(job, ask, n, s))
  {
    if s.Running? && s.start <= job.toBlock {
      var end: nat := RangeEnd(s.start, s.chunk, job.toBlock);
      assert CutsAt(range, sound, s.start, end, job.toBlock);
      TurnCases(ask(n, s.start, end), range(s.start, end), range(end + 1, job.toBlock), s.start, s.chunk, job.toBlock, willing);
      if range(s.start, end) == Ok(None) {
        MovesOn(job, range, sound, s.start, end);
      }
    }
  }

  lemma {:induction false} AtOnTrack(job: Job, ask: Asker, range: Ranges, sound: Soundness, willing: bool, n: nat)
    requires Cuttable(range, sound) && Right(ask, range, sound) && (willing ==> Willing(ask, range, sound))
    requires sound(job.fromBlock, job.toBlock)
    ensures OnTrack(job, range, sound, willing, At(job, ask, n))
  {
    if n > 0 {
      AtOnTrack(job, ask, range, sound, willing, n - 1);
      NextOnTrack(job, ask, range, sound, willing, n - 1, At(job, ask, n - 1));
    }
  }

  /** With an end below the last block number, or something to be found, the loop is never stuck. */
  lemma FindsOrStops(job: Job, ask: Asker, range: Ranges, sound: Soundness)
    requires Cuttable(range, sound) && Right(ask, range, sound) && sound(job.fromBlock, job.toBlock)
    requires job.toBlock < U64_MAX || range(job.fromBlock, job.toBlock) != Ok(None)
    ensures NeverStuck(job, ask)
  {
    forall n | At(job, ask, n).Running? && At(job, ask, n).start == U64_MAX <= job.toBlock
      ensures ask(n, U64_MAX, U64_MAX) != Ok(None)
    {
      AtOnTrack(job, ask, range, sound, false, n);
    }
  }

  /** With nothing to find up to the last block number, willing answers keep the loop running. */
  lemma {:induction false} RunsOn(job: Job, ask: Asker, range: Ranges, sound: Soundness, n: nat)
    requires Cuttable(range, sound) && Right(ask, range, sound) && Willing(ask, range, sound) && sound(job.fromBlock, job.toBlock)
    requires job.toBlock == U64_MAX && range(job.fromBlock, job.toBlock) == Ok(None)
    ensures At(job, ask, n).Running?
  {
    if n > 0 {
      RunsOn(job, ask, range, sound, n - 1);
      AtOnTrack(job, ask, range, sound, true, n - 1);
      var s := At(job, ask, n - 1);
      assert CutsAt(range, sound, s.start, RangeEnd(s.start, s.chunk, job.toBlock), job.toBlock);
    }
  }

  // ------------------------------------------------------------ over a chain

  /** A node: its answer to the n-th request, for a range of blocks. */
  type Node = (nat, nat, nat) -> Result<seq<Log>, ChainError>

  function Asking(node: Node, payment: Address, token: Address): Asker {
    (n: nat, lo: nat, hi: nat) => if node(n, lo, hi).Err? then Err(node(n, lo, hi).error) else Search(node(n, lo, hi).value, payment, token)
  }

  ghost function Searching(chain: seq<Log>, payment: Address, token: Address): Ranges {
    (lo: nat, hi: nat) => Search(Between(chain, lo, hi), payment, token)
  }

  ghost function SoundOver(chain: seq<Log>, payment: Address, token: Address): Soundness {
    (lo: nat, hi: nat) => Sound(chain, payment, token, lo, hi)
  }

  /** A node's answers are right whenever it gives one; it may refuse, differently every time. */
  ghost predicate Faithful(node: Node, chain: seq<Log>, payment: Address) {
    forall n, lo, hi :: if node(n, lo, hi).Ok? then multiset(Mine(node(n, lo, hi).value, payment)) == multiset(MineBetween(chain, payment, lo, hi))
                        else node(n, lo, hi).error == LogRangeTooLarge || node(n, lo, hi).error == Transient(Transport)
  }

  /** A node that refuses only ranges of more than one block. */
  ghost predicate Serves(node: Node) {
    forall n, lo, hi :: node(n, lo, hi).Err? ==> lo < hi && node(n, lo, hi).error == LogRangeTooLarge
  }

  lemma ChainCuttable(chain: seq<Log>, payment: Address, token: Address)
    ensures Cuttable(Searching(chain, payment, token), SoundOver(chain, payment, token))
  {
    var range, sound := Searching(chain, payment, token), SoundOver(chain, payment, token);
    forall lo: nat, mid: nat, hi: nat
      ensures CutsAt(range, sound, lo, mid, hi)
    {
      if lo <= mid <= hi && sound(lo, hi) {
        EventsCut(chain, payment, token, lo, mid, hi);
        CutRange(chain, payment, token, lo, mid, hi);
      }
    }
    forall lo: nat, hi: nat | lo > hi
      ensures range(lo, hi) == Ok(None)
    {
      EmptyBetween(chain, lo, hi);
    }
  }

  /** One answer of a faithful node. */
  lemma AnswerRight(node: Node, chain: seq<Log>, payment: Address, token: Address, n: nat, lo: nat, hi: nat)
    requires Faithful(node, chain, payment) && Sound(chain, payment, token, lo, hi)
    ensures node(n, lo, hi).Ok? ==> Search(node(n, lo, hi).value, payment, token) == Search(Between(chain, lo, hi), payment, token)
  {
    if node(n, lo, hi).Ok? {
      OrderIrrelevant(Between(chain, lo, hi), node(n, lo, hi).value, payment, token);
    }
  }

  lemma FaithfulIsRight(node: Node, chain: seq<Log>, payment: Address, token: Address)
    requires Faithful(node, chain, payment)
    ensures Right(Asking(node, payment, token), Searching(chain, payment, token), SoundOver(chain, payment, token))
    ensures Serves(node) ==> Willing(Asking(node, payment, token), Searching(chain, payment, token), SoundOver(chain, payment, token))
  {
    var ask, range, sound := Asking(node, payment, token), Searching(chain, payment, token), SoundOver(chain, payment, token);
    forall n: nat, lo: nat, hi: nat | sound(lo, hi)
      ensures if node(n, lo, hi).Ok? then ask(n, lo, hi) == range(lo, hi) else ask(n, lo, hi) == Err(node(n, lo, hi).error)
    {
      AnswerRight(node, chain, payment, token, n, lo, hi);
    }
  }

  /** Whenever it ends, at the last block number too, it answers as one search of the whole range would. */
  lemma EndsWithAnswer(job: Job, node: Node, chain: seq<Log>, payment: Address, token: Address, n: nat)
    requires Faithful(node, chain, payment) && Sound(chain, payment, token, job.fromBlock, job.toBlock)
    requires At(job, Asking(node, payment, token), n).Ended?
    ensures Answer(Search(Between(chain, job.fromBlock, job.toBlock), payment, token), Serves(node), At(job, Asking(node, payment, token), n).result)
  {
    ChainCuttable(chain, payment, token);
    FaithfulIsRight(node, chain, payment, token);
    AtOnTrack(job, Asking(node, payment, token), Searching(chain, payment, token), SoundOver(chain, payment, token), Serves(node), n);
  }

  /**
   * Termination, exactly: against a faithful node that serves single blocks the loop ends if and
   * only if its end is below the last block number or the range holds something.
   */
  lemma EndsExactly(job: Job, node: Node, chain: seq<Log>, payment: Address, token: Address)
    requires Faithful(node, chain, payment) && Serves(node) && Sound(chain, payment, token, job.fromBlock, job.toBlock)
    ensures Ends(job, Asking(node, payment, token))
            <==> job.toBlock < U64_MAX || Search(Between(chain, job.fromBlock, job.toBlock), payment, token) != Ok(None)
  {
    var ask, range, sound := Asking(node, payment, token), Searching(chain, payment, token), SoundOver(chain, payment, token);
    ChainCuttable(chain, payment, token);
    FaithfulIsRight(node, chain, payment, token);
    if job.toBlock < U64_MAX || range(job.fromBlock, job.toBlock) != Ok(None) {
      FindsOrStops(job, ask, range, sound);
      var m := EndsFrom(job, ask, 0);
    } else if Ends(job, ask) {
      var n :| At(job, ask, n).Ended?;
      RunsOn(job, ask, range, sound, n);
    }
  }

  /**
   * The call, wherever it ends against every faithful node: however the provider's limits force
   * the range to be cut, it answers as one search of the whole range would, or reports why it
   * could not ask.
   */
  method FindSettlement(job: Job, node: Node, ghost chain: seq<Log>, payment: Address, token: Address) returns (r: Result<SettlementEvent, ChainError>)
    requires Faithful(node, chain, payment) && Sound(chain, payment, token, job.fromBlock, job.toBlock)
    requires job.toBlock < U64_MAX || Search(Between(chain, job.fromBlock, job.toBlock), payment, token) != Ok(None)
    ensures exists n :: At(job, Asking(node, payment, token), n) == Ended(r)
    ensures Answer(Search(Between(chain, job.fromBlock, job.toBlock), payment, token), Serves(node), r)
  {
    ChainCuttable(chain, payment, token);
    FaithfulIsRight(node, chain, payment, token);
    FindsOrStops(job, Asking(node, payment, token), Searching(chain, payment, token), SoundOver(chain, payment, token));
    ghost var n;
    r, n := RunLoop(job, node, payment, token);
    EndsWithAnswer(job, node, chain, payment, token, n);
    assert At(job, Asking(node, payment, token), n) == Ended(r);
  }
}
