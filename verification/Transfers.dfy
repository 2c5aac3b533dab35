/** The chunked scan for token transfers: `token_transfers` in crates/gum-chain/src/lib.rs. */
module Transfers {
  import opened Prelude
  import opened Sorting
  import opened BigEndian

  type Hash = nat

  const TRANSFER_SIGNATURE: nat := 0xddf252ad1be2c89b69c2b068fc378daa952ba7f163c4a11628f55a4df523b3ef
  const ADDRESS_LIMIT: nat := 0x1_0000_0000_0000_0000_0000_0000_0000_0000_0000_0000
  const LOG_FILTER_CHUNK: nat := 500

  type Address = a: nat | a < ADDRESS_LIMIT

  datatype Log = Log(emitter: Address, removed: bool, topics: seq<nat>, data: seq<nat>,
                     block: Option<nat>, blockHash: Option<Hash>, timestamp: Option<nat>,
                     txHash: Option<Hash>, txIndex: Option<nat>, logIndex: Option<nat>)

  datatype WatchedTransfer = WatchedTransfer(token: Address, block: nat, blockHash: Hash, timestamp: nat,
                                             txHash: Hash, txIndex: nat, logIndex: nat,
                                             sender: Address, recipient: Address, amount: nat)

  datatype Reason =
    | MalformedTransfer | InvalidAmountData | MissingBlockNumber | OutsideRange | OutsideRecipients
    | MissingBlockHash | MissingTimestamp | MissingTxHash | MissingTxIndex | MissingLogIndex
  datatype ChainError = Rpc(code: int) | Transient(reason: Reason)

  /** One call's fixed arguments. */
  datatype Query = Query(tokens: seq<Address>, fromBlock: nat, toBlock: nat, recipients: seq<Address>)

  /** A node's answers: to the n-th log request, for a list of recipients, and to header reads. */
  datatype Node = Node(logs: (nat, seq<Address>) -> Result<seq<Log>, ChainError>, timestamp: nat -> Result<nat, ChainError>)

  // ------------------------------------------------------------ one log

  /** The low twenty bytes of a word. */
  function FromWord(word: nat): Address {
    word % ADDRESS_LIMIT
  }

  /** Validate one log and read it; `fallback` is the block's timestamp if the node was asked. */
  function Read(q: Query, log: Log, fallback: Option<nat>): Result<WatchedTransfer, ChainError> {
    if log.emitter !in q.tokens || log.removed || |log.topics| != 3 || log.topics[0] != TRANSFER_SIGNATURE then Err(Transient(MalformedTransfer))
    else if |log.data| != 32 then Err(Transient(InvalidAmountData))
    else if log.block.None? then Err(Transient(MissingBlockNumber))
    else if !(q.fromBlock <= log.block.value <= q.toBlock) then Err(Transient(OutsideRange))
    else if FromWord(log.topics[2]) !in q.recipients then Err(Transient(OutsideRecipients))
    else if log.blockHash.None? then Err(Transient(MissingBlockHash))
    else if log.timestamp.None? && fallback.None? then Err(Transient(MissingTimestamp))
    else if log.txHash.None? then Err(Transient(MissingTxHash))
    else if log.txIndex.None? then Err(Transient(MissingTxIndex))
    else if log.logIndex.None? then Err(Transient(MissingLogIndex))
    else Ok(WatchedTransfer(log.emitter, log.block.value, log.blockHash.value,
                            if log.timestamp.Some? then log.timestamp.value else fallback.value,
                            log.txHash.value, log.txIndex.value, log.logIndex.value,
                            FromWord(log.topics[1]), FromWord(log.topics[2]), FromBigEndian(log.data)))
  }

  /** The transfer a log records, field by field; the time is the log's own or its block's. */
  ghost predicate Records(q: Query, log: Log, header: Option<nat>, t: WatchedTransfer) {
    && log.emitter == t.token && t.token in q.tokens && !log.removed
    && |log.topics| == 3 && log.topics[0] == TRANSFER_SIGNATURE
    && log.topics[1] % ADDRESS_LIMIT == t.sender && log.topics[2] % ADDRESS_LIMIT == t.recipient && t.recipient in q.recipients
    && |log.data| == 32 && t.amount == Sum(log.data)
    && log.block == Some(t.block) && q.fromBlock <= t.block <= q.toBlock && log.blockHash == Some(t.blockHash)
    && (log.timestamp == Some(t.timestamp) || (log.timestamp == None && header == Some(t.timestamp)))
    && log.txHash == Some(t.txHash) && log.txIndex == Some(t.txIndex) && log.logIndex == Some(t.logIndex)
  }

  /** A log is read exactly as the transfer it records. */
  lemma ReadExactly(q: Query, log: Log, fallback: Option<nat>, t: WatchedTransfer)
    ensures Read(q, log, fallback) == Ok(t) <==> Records(q, log, fallback, t)
  {
    ReadIsSum(log.data);
  }

  // ------------------------------------------------------------ the scan without its cache

  function Chunks(recipients: seq<Address>): seq<seq<Address>> {
    if recipients == [] then []
    else
      var n := Min(LOG_FILTER_CHUNK, |recipients|);
      [recipients[..n]] + Chunks(recipients[n..])
  }

  /** All answers in order, or the first refusal. */
  function Gather(node: Node, chunks: seq<seq<Address>>): Result<seq<Log>, ChainError> {
    if chunks == [] then Ok([])
    else
      var n := |chunks| - 1;
      var before :- Gather(node, chunks[..n]);
      var last :- node.logs(n, chunks[n]);
      Ok(before + last)
  }

  predicate NeedsHeader(log: Log) {
    log.timestamp.None? && log.block.Some?
  }

  /** A header for every log that lacks a timestamp, cache or not; the first failure wins. */
  function Headers(node: Node, logs: seq<Log>): Result<(), ChainError> {
    if logs == [] then Ok(())
    else
      var before :- Headers(node, logs[..|logs| - 1]);
      var log := logs[|logs| - 1];
      if NeedsHeader(log) && node.timestamp(log.block.value).Err? then Err(node.timestamp(log.block.value).error) else Ok(())
  }

  function Fallback(node: Node, log: Log): Option<nat> {
    if NeedsHeader(log) && node.timestamp(log.block.value).Ok? then Some(node.timestamp(log.block.value).value) else None
  }

  function ReadAll(node: Node, q: Query, logs: seq<Log>): Result<seq<WatchedTransfer>, ChainError> {
    if logs == [] then Ok([])
    else
      var before :- ReadAll(node, q, logs[..|logs| - 1]);
      var last :- Read(q, logs[|logs| - 1], Fallback(node, logs[|logs| - 1]));
      Ok(before + [last])
  }

  /** The scan: every chunk's logs, then every header they need, then every log read. */
  function Scan(node: Node, q: Query): Result<seq<WatchedTransfer>, ChainError> {
    var logs :- Gather(node, Chunks(q.recipients));
    var headers :- Headers(node, logs);
    ReadAll(node, q, logs)
  }

  // ------------------------------------------------------------ the loops

  lemma {:induction false} GatherErrorStays(node: Node, chunks: seq<seq<Address>>, n: nat)
    requires n <= |chunks| && Gather(node, chunks[..n]).Err?
    ensures Gather(node, chunks) == Gather(node, chunks[..n])
    decreases |chunks|
  {
    if n == |chunks| {
      assert chunks[..n] == chunks;
    } else {
      assert chunks[..|chunks| - 1][..n] == chunks[..n];
      GatherErrorStays(node, chunks[..|chunks| - 1], n);
    }
  }

  method TransferLogs(node: Node, chunks: seq<seq<Address>>) returns (r: Result<seq<Log>, ChainError>)
    ensures r == Gather(node, chunks)
  {
    var logs := [];
    for i := 0 to |chunks|
      invariant Gather(node, chunks[..i]) == Ok(logs)
    {
      var answer := node.logs(i, chunks[i]);
      TakeNext(chunks, i);
      if answer.Err? {
        GatherErrorStays(node, chunks, i + 1);
        return Err(answer.error);
      }
      logs := logs + answer.value;
    }
    assert chunks[..|chunks|] == chunks;
    return Ok(logs);
  }

  /** The header cache covers the logs read so far, and holds what the node said. */
  ghost predicate Caches(timestamps: map<nat, nat>, node: Node, logs: seq<Log>) {
    && (forall b :: b in timestamps ==> node.timestamp(b) == Ok(timestamps[b]))
    && (forall i :: 0 <= i < |logs| && NeedsHeader(logs[i]) ==> logs[i].block.value in timestamps)
  }

  method ReadHeaders(node: Node, logs: seq<Log>) returns (r: Result<map<nat, nat>, ChainError>)
    ensures r.Ok? <==> Headers(node, logs).Ok?
    ensures r.Err? ==> r.error == Headers(node, logs).error
    ensures r.Ok? ==> Caches(r.value, node, logs)
  {
    var timestamps: map<nat, nat> := map[];
    for i := 0 to |logs|
      invariant Headers(node, logs[..i]).Ok? && Caches(timestamps, node, logs[..i])
    {
      var log := logs[i];
      TakeNext(logs, i);
      if log.timestamp.None? && log.block.Some? && log.block.value !in timestamps {
        var header := node.timestamp(log.block.value);
        if header.Err? {
          HeaderErrorStays(node, logs, i + 1);
          return Err(header.error);
        }
        timestamps := timestamps[log.block.value := header.value];
      }
    }
    assert logs[..|logs|] == logs;
    return Ok(timestamps);
  }

  lemma {:induction false} HeaderErrorStays(node: Node, logs: seq<Log>, n: nat)
    requires n <= |logs| && Headers(node, logs[..n]).Err?
    ensures Headers(node, logs) == Headers(node, logs[..n])
    decreases |logs|
  {
    if n == |logs| {
      assert logs[..n] == logs;
    } else {
      assert logs[..|logs| - 1][..n] == logs[..n];
      HeaderErrorStays(node, logs[..|logs| - 1], n);
    }
  }

  lemma {:induction false} ReadErrorStays(node: Node, q: Query, logs: seq<Log>, n: nat)
    requires n <= |logs| && ReadAll(node, q, logs[..n]).Err?
    ensures ReadAll(node, q, logs) == ReadAll(node, q, logs[..n])
    decreases |logs|
  {
    if n == |logs| {
      assert logs[..n] == logs;
    } else {
      assert logs[..|logs| - 1][..n] == logs[..n];
      ReadErrorStays(node, q, logs[..|logs| - 1], n);
    }
  }

  function Known(timestamps: map<nat, nat>, log: Log): Option<nat> {
    if log.block.Some? && log.block.value in timestamps then Some(timestamps[log.block.value]) else None
  }

  /** The cached scan is the scan: one header read per block changes nothing. */
  method TokenTransfers(node: Node, q: Query) returns (r: Result<seq<WatchedTransfer>, ChainError>)
    ensures r == Scan(node, q)
  {
    var gathered := TransferLogs(node, Chunks(q.recipients));
    if gathered.Err? {
      return Err(gathered.error);
    }
    var logs := gathered.value;
    var stamped := ReadHeaders(node, logs);
    if stamped.Err? {
      return Err(stamped.error);
    }
    r := ReadLogs(node, q, logs, stamped.value);
  }

  /** Every log read, with the cached times. */
  method ReadLogs(node: Node, q: Query, logs: seq<Log>, timestamps: map<nat, nat>) returns (r: Result<seq<WatchedTransfer>, ChainError>)
    requires Caches(timestamps, node, logs)
    ensures r == ReadAll(node, q, logs)
  {
    var transfers := [];
    for i := 0 to |logs|
      invariant ReadAll(node, q, logs[..i]) == Ok(transfers)
    {
      var log := logs[i];
      SameReading(node, q, logs, timestamps, i);
      TakeNext(logs, i);
      var transfer := Read(q, log, Known(timestamps, log));
      if transfer.Err? {
        ReadErrorStays(node, q, logs, i + 1);
        return Err(transfer.error);
      }
      transfers := transfers + [transfer.value];
    }
    assert logs[..|logs|] == logs;
    return Ok(transfers);
  }

  /** A cached timestamp reads as a header asked for on the spot. */
  lemma SameReading(node: Node, q: Query, logs: seq<Log>, timestamps: map<nat, nat>, i: nat)
    requires i < |logs| && Caches(timestamps, node, logs)
    ensures Read(q, logs[i], Known(timestamps, logs[i])) == Read(q, logs[i], Fallback(node, logs[i]))
  {
  }

  // ------------------------------------------------------------ any node

  /** Whatever the node answers, what comes out is what was asked for. */
  lemma {:induction false} ReadIsAsked(node: Node, q: Query, logs: seq<Log>, k: nat)
    requires ReadAll(node, q, logs).Ok? && k < |ReadAll(node, q, logs).value|
    ensures |ReadAll(node, q, logs).value| == |logs|
    ensures Read(q, logs[k], Fallback(node, logs[k])) == Ok(ReadAll(node, q, logs).value[k])
    decreases |logs|
  {
    var fewer := logs[..|logs| - 1];
    var before := ReadAll(node, q, fewer).value;
    if before == [] {
      ReadLength(node, q, fewer);
    } else {
      ReadIsAsked(node, q, fewer, Min(k, |before| - 1));
      assert k < |before| ==> fewer[k] == logs[k];
    }
  }

  lemma {:induction false} ReadLength(node: Node, q: Query, logs: seq<Log>)
    requires ReadAll(node, q, logs).Ok?
    ensures |ReadAll(node, q, logs).value| == |logs|
    decreases |logs|
  {
    if logs != [] {
      ReadLength(node, q, logs[..|logs| - 1]);
    }
  }

  /**
   * For any node, faithful or not, an accepted scan holds only transfers in the range, of a
   * configured token and to a watched recipient: the one each returned log records, in order.
   */
  lemma AcceptedIsAsked(node: Node, q: Query, k: nat)
    requires Scan(node, q).Ok? && k < |Scan(node, q).value|
    ensures var t, logs := Scan(node, q).value[k], Gather(node, Chunks(q.recipients)).value;
            && |Scan(node, q).value| == |logs|
            && Records(q, logs[k], if node.timestamp(t.block).Ok? then Some(node.timestamp(t.block).value) else None, t)
            && q.fromBlock <= t.block <= q.toBlock && t.token in q.tokens && t.recipient in q.recipients
  {
    var logs := Gather(node, Chunks(q.recipients)).value;
    ReadIsAsked(node, q, logs, k);
    ReadExactly(q, logs[k], Fallback(node, logs[k]), Scan(node, q).value[k]);
  }

  // ------------------------------------------------------------ a faithful node

  /** What the log filter selects. */
  predicate Matches(log: Log, q: Query, recipients: seq<Address>) {
    && log.emitter in q.tokens && |log.topics| >= 3 && log.topics[0] == TRANSFER_SIGNATURE
    && log.block.Some? && q.fromBlock <= log.block.value <= q.toBlock
    && log.topics[2] < ADDRESS_LIMIT && log.topics[2] in recipients
  }

  function Selector(q: Query, recipients: seq<Address>): Log -> bool {
    log => Matches(log, q, recipients)
  }

  /** A mined transfer event of a token this scan knows: nothing missing, and its timestamp, if given, is its block's. */
  predicate Genuine(log: Log, q: Query, time: nat -> nat) {
    log.emitter in q.tokens && |log.topics| >= 3 && log.topics[0] == TRANSFER_SIGNATURE ==>
      && |log.topics| == 3 && |log.data| == 32 && !log.removed
      && log.block.Some? && log.blockHash.Some? && log.txHash.Some? && log.txIndex.Some? && log.logIndex.Some?
      && (log.timestamp.Some? ==> log.timestamp.value == time(log.block.value))
  }

  /** The node returns what the chain holds, in any order, and true block times. */
  ghost predicate Faithful(node: Node, q: Query, chain: seq<Log>, time: nat -> nat) {
    && (forall log :: log in chain ==> Genuine(log, q, time))
    && (forall n, chunk :: node.logs(n, chunk).Ok? && multiset(node.logs(n, chunk).value) == multiset(Filter(chain, Selector(q, chunk))))
    && (forall b :: node.timestamp(b) == Ok(time(b)))
  }

  /** The transfer a matching log records, with the true time of its block. */
  function TransferOf(log: Log, q: Query, recipients: seq<Address>, time: nat -> nat): WatchedTransfer
    requires Matches(log, q, recipients) && Genuine(log, q, time)
  {
    WatchedTransfer(log.emitter, log.block.value, log.blockHash.value, time(log.block.value), log.txHash.value, log.txIndex.value,
                    log.logIndex.value, log.topics[1] % ADDRESS_LIMIT, log.topics[2], Sum(log.data))
  }

  /** The transfers of one kind on the chain, each as often as the chain holds it. */
  function Expected(chain: seq<Log>, q: Query, recipients: seq<Address>, time: nat -> nat): multiset<WatchedTransfer>
    requires forall log :: log in chain ==> Genuine(log, q, time)
  {
    if chain == [] then multiset{}
    else
      (if Matches(chain[0], q, recipients) then multiset{TransferOf(chain[0], q, recipients, time)} else multiset{})
      + Expected(chain[1..], q, recipients, time)
  }

  lemma {:induction false} ExpectedConcat(a: seq<Log>, b: seq<Log>, q: Query, recipients: seq<Address>, time: nat -> nat)
    requires forall log :: log in a + b ==> Genuine(log, q, time)
    ensures Expected(a + b, q, recipients, time) == Expected(a, q, recipients, time) + Expected(b, q, recipients, time)
  {
    if a == [] {
      assert a + b == b;
    } else {
      assert (a + b)[1..] == a[1..] + b;
      ExpectedConcat(a[1..], b, q, recipients, time);
    }
  }

  lemma {:induction false} ExpectedPermutes(a: seq<Log>, b: seq<Log>, q: Query, recipients: seq<Address>, time: nat -> nat)
    requires multiset(a) == multiset(b)
    requires forall log :: log in a ==> Genuine(log, q, time)
    requires forall log :: log in b ==> Genuine(log, q, time)
    ensures Expected(a, q, recipients, time) == Expected(b, q, recipients, time)
  {
    if a == [] {
      assert |b| == |multiset(b)| == |multiset(a)| == 0;
    } else {
      var front, back := FindHead(a, b);
      var tail := [a[0]] + back;
      assert b == front + tail && tail[1..] == back;
      ExpectedConcat(front, tail, q, recipients, time);
      ExpectedConcat(front, back, q, recipients, time);
      ExpectedPermutes(a[1..], front + back, q, recipients, time);
    }
  }

  /** Selecting first changes nothing. */
  lemma {:induction false} ExpectedOfSelected(chain: seq<Log>, q: Query, recipients: seq<Address>, time: nat -> nat)
    requires forall log :: log in chain ==> Genuine(log, q, time)
    ensures forall log :: log in Filter(chain, Selector(q, recipients)) ==> log in chain && Matches(log, q, recipients)
    ensures Expected(Filter(chain, Selector(q, recipients)), q, recipients, time) == Expected(chain, q, recipients, time)
  {
    FilterMembers(chain, Selector(q, recipients));
    if chain != [] {
      ExpectedOfSelected(chain[1..], q, recipients, time);
      var kept := Filter(chain, Selector(q, recipients));
      var rest := Filter(chain[1..], Selector(q, recipients));
      if Matches(chain[0], q, recipients) {
        assert kept[0] == chain[0] && kept[1..] == rest;
      } else {
        assert kept == rest;
      }
    }
  }

  /** Of what all recipients expect, a chunk of them expects its own share. */
  lemma {:induction false} ExpectedShare(chain: seq<Log>, q: Query, chunk: seq<Address>, recipients: seq<Address>, time: nat -> nat, t: WatchedTransfer)
    requires forall log :: log in chain ==> Genuine(log, q, time)
    requires forall a :: a in chunk ==> a in recipients
    ensures Expected(chain, q, chunk, time)[t] == if t.recipient in chunk then Expected(chain, q, recipients, time)[t] else 0
  {
    if chain != [] {
      ExpectedShare(chain[1..], q, chunk, recipients, time, t);
    }
  }

  lemma FaithfulRead(node: Node, q: Query, log: Log, time: nat -> nat)
    requires Matches(log, q, q.recipients) && Genuine(log, q, time)
    requires forall b :: node.timestamp(b) == Ok(time(b))
    ensures Read(q, log, Fallback(node, log)) == Ok(TransferOf(log, q, q.recipients, time))
  {
    ReadIsSum(log.data);
  }

  /** A faithful node's logs all read, and read as the transfers they record. */
  lemma {:induction false} FaithfulReads(node: Node, q: Query, logs: seq<Log>, time: nat -> nat)
    requires forall b :: node.timestamp(b) == Ok(time(b))
    requires forall log :: log in logs ==> Matches(log, q, q.recipients) && Genuine(log, q, time)
    ensures ReadAll(node, q, logs).Ok? && multiset(ReadAll(node, q, logs).value) == Expected(logs, q, q.recipients, time)
    decreases |logs|
  {
    if logs != [] {
      var fewer, last := logs[..|logs| - 1], logs[|logs| - 1];
      var one := [last];
      assert logs == fewer + one;
      FaithfulReads(node, q, fewer, time);
      ExpectedConcat(fewer, one, q, q.recipients, time);
      assert Expected(one[1..], q, q.recipients, time) == multiset{};
      assert last in logs;
      FaithfulRead(node, q, last, time);
    }
  }

  lemma {:induction false} FaithfulHeaders(node: Node, logs: seq<Log>)
    requires forall b :: node.timestamp(b).Ok?
    ensures Headers(node, logs).Ok?
    decreases |logs|
  {
    if logs != [] {
      FaithfulHeaders(node, logs[..|logs| - 1]);
    }
  }

  /** In how many of the chunks an address is asked for. */
  function Asked(chunks: seq<seq<Address>>, a: Address): nat {
    if chunks == [] then 0 else Asked(chunks[..|chunks| - 1], a) + if a in chunks[|chunks| - 1] then 1 else 0
  }

  lemma {:induction false} FaithfulGathers(node: Node, q: Query, chain: seq<Log>, time: nat -> nat, chunks: seq<seq<Address>>)
    requires Faithful(node, q, chain, time)
    requires forall i, a :: 0 <= i < |chunks| && a in chunks[i] ==> a in q.recipients
    ensures Gather(node, chunks).Ok?
    ensures forall log :: log in Gather(node, chunks).value ==> Matches(log, q, q.recipients) && Genuine(log, q, time)
    ensures forall t :: Expected(Gather(node, chunks).value, q, q.recipients, time)[t]
                     == Asked(chunks, t.recipient) * Expected(chain, q, q.recipients, time)[t]
    decreases |chunks|
  {
    if chunks != [] {
      var n := |chunks| - 1;
      FaithfulGathers(node, q, chain, time, chunks[..n]);
      FaithfulAnswer(node, q, chain, time, chunks[n], n);
      var before, last := Gather(node, chunks[..n]).value, node.logs(n, chunks[n]).value;
      ExpectedConcat(before, last, q, q.recipients, time);
      AskedSum(chunks, Expected(before, q, q.recipients, time), Expected(last, q, q.recipients, time), Expected(chain, q, q.recipients, time));
    }
  }

  /** The counts over one chunk and over those before it add up. */
  lemma {:induction false} AskedSum(chunks: seq<seq<Address>>, before: multiset<WatchedTransfer>, last: multiset<WatchedTransfer>, all: multiset<WatchedTransfer>)
    requires chunks != []
    requires forall t :: before[t] == Asked(chunks[..|chunks| - 1], t.recipient) * all[t]
    requires forall t :: last[t] == if t.recipient in chunks[|chunks| - 1] then all[t] else 0
    ensures forall t :: (before + last)[t] == Asked(chunks, t.recipient) * all[t]
  {
    forall t: WatchedTransfer
      ensures (before + last)[t] == Asked(chunks, t.recipient) * all[t]
    {
      AskedOneMore(chunks, t.recipient, all[t]);
      assert (before + last)[t] == before[t] + last[t];
    }
  }

  lemma {:induction false} AskedOneMore(chunks: seq<seq<Address>>, a: Address, n: nat)
    requires chunks != []
    ensures Asked(chunks, a) * n == Asked(chunks[..|chunks| - 1], a) * n + if a in chunks[|chunks| - 1] then n else 0
  {
    var others := Asked(chunks[..|chunks| - 1], a);
    assert (others + 1) * n == others * n + n;
  }

  /** One answer of a faithful node. */
  lemma FaithfulAnswer(node: Node, q: Query, chain: seq<Log>, time: nat -> nat, chunk: seq<Address>, n: nat)
    requires Faithful(node, q, chain, time)
    requires forall a :: a in chunk ==> a in q.recipients
    ensures forall log :: log in node.logs(n, chunk).value ==> Matches(log, q, q.recipients) && Genuine(log, q, time)
    ensures forall t :: Expected(node.logs(n, chunk).value, q, q.recipients, time)[t]
                     == if t.recipient in chunk then Expected(chain, q, q.recipients, time)[t] else 0
  {
    var answer, selected := node.logs(n, chunk).value, Filter(chain, Selector(q, chunk));
    ExpectedOfSelected(chain, q, chunk, time);
    forall log | log in answer
      ensures log in selected
    {
      assert log in multiset(answer);
    }
    SelectedForAll(selected, q, chunk, time);
    ExpectedPermutes(answer, selected, q, q.recipients, time);
    forall t: WatchedTransfer
      ensures Expected(answer, q, q.recipients, time)[t] == if t.recipient in chunk then Expected(chain, q, q.recipients, time)[t] else 0
    {
      ExpectedShare(chain, q, chunk, q.recipients, time, t);
    }
  }

  /** Logs that match a chunk are the same transfers seen from the whole list. */
  lemma {:induction false} SelectedForAll(logs: seq<Log>, q: Query, chunk: seq<Address>, time: nat -> nat)
    requires forall log :: log in logs ==> Matches(log, q, chunk) && Genuine(log, q, time)
    requires forall a :: a in chunk ==> a in q.recipients
    ensures Expected(logs, q, q.recipients, time) == Expected(logs, q, chunk, time)
  {
    if logs != [] {
      assert logs[0] in logs;
      SelectedForAll(logs[1..], q, chunk, time);
    }
  }

  lemma {:induction false} ChunksHold(recipients: seq<Address>)
    ensures forall i, a :: 0 <= i < |Chunks(recipients)| && a in Chunks(recipients)[i] ==> a in recipients
    decreases |recipients|
  {
    if recipients != [] {
      var n := Min(LOG_FILTER_CHUNK, |recipients|);
      ChunksHold(recipients[n..]);
      var chunks := Chunks(recipients);
      forall i, a | 0 <= i < |chunks| && a in chunks[i]
        ensures a in recipients
      {
        if i > 0 {
          assert chunks[i] == Chunks(recipients[n..])[i - 1];
          assert a in recipients[n..];
        } else {
          assert a in recipients[..n];
        }
      }
    }
  }

  /**
   * The exact law: a faithful node's scan succeeds, and every transfer comes out as often as
   * the chain holds it times the number of chunks its recipient is listed in.
   */
  lemma ScanMultiplicity(node: Node, q: Query, chain: seq<Log>, time: nat -> nat, t: WatchedTransfer)
    requires Faithful(node, q, chain, time)
    ensures Scan(node, q).Ok?
    ensures multiset(Scan(node, q).value)[t] == Asked(Chunks(q.recipients), t.recipient) * Expected(chain, q, q.recipients, time)[t]
  {
    FaithfulScan(node, q, chain, time);
  }

  lemma FaithfulScan(node: Node, q: Query, chain: seq<Log>, time: nat -> nat)
    requires Faithful(node, q, chain, time)
    ensures Scan(node, q).Ok?
    ensures forall t :: multiset(Scan(node, q).value)[t] == Asked(Chunks(q.recipients), t.recipient) * Expected(chain, q, q.recipients, time)[t]
  {
    ChunksHold(q.recipients);
    FaithfulGathers(node, q, chain, time, Chunks(q.recipients));
    var logs := Gather(node, Chunks(q.recipients)).value;
    FaithfulHeaders(node, logs);
    FaithfulReads(node, q, logs, time);
  }

  lemma {:induction false} AskedConcat(x: seq<seq<Address>>, y: seq<seq<Address>>, a: Address)
    ensures Asked(x + y, a) == Asked(x, a) + Asked(y, a)
    decreases |y|
  {
    if y == [] {
      assert x + y == x;
    } else {
      assert (x + y)[..|x + y| - 1] == x + y[..|y| - 1];
      AskedConcat(x, y[..|y| - 1], a);
    }
  }

  /** Every listed address is asked for; a distinct list asks for each once. */
  lemma {:induction false} AskedOnce(recipients: seq<Address>, a: Address)
    ensures a in recipients ==> Asked(Chunks(recipients), a) >= 1
    ensures a !in recipients ==> Asked(Chunks(recipients), a) == 0
    ensures Distinct(recipients) ==> Asked(Chunks(recipients), a) <= 1
    decreases |recipients|
  {
    if recipients != [] {
      var n := Min(LOG_FILTER_CHUNK, |recipients|);
      var head, rest := recipients[..n], recipients[n..];
      assert recipients == head + rest;
      AskedOnce(rest, a);
      AskedConcat([head], Chunks(rest), a);
      assert Asked([head][..0], a) == 0;
      if Distinct(recipients) {
        assert Distinct(rest);
        assert a in head ==> a !in rest;
      }
    }
  }

  lemma {:induction false} ExpectedRecipients(chain: seq<Log>, q: Query, recipients: seq<Address>, time: nat -> nat, t: WatchedTransfer)
    requires forall log :: log in chain ==> Genuine(log, q, time)
    ensures t.recipient !in recipients ==> Expected(chain, q, recipients, time)[t] == 0
  {
    if chain != [] {
      ExpectedRecipients(chain[1..], q, recipients, time, t);
    }
  }

  /** Counted so, nothing is missing or repeated exactly when whatever is there is asked for once. */
  lemma ExactCounts(recipients: seq<Address>, found: multiset<WatchedTransfer>, wanted: multiset<WatchedTransfer>)
    requires forall t :: found[t] == Asked(Chunks(recipients), t.recipient) * wanted[t]
    ensures found == wanted <==> forall t: WatchedTransfer :: wanted[t] > 0 ==> Asked(Chunks(recipients), t.recipient) == 1
  {
    forall t: WatchedTransfer
      ensures found[t] == wanted[t] <==> (wanted[t] > 0 ==> Asked(Chunks(recipients), t.recipient) == 1)
    {
      Cancel(Asked(Chunks(recipients), t.recipient), wanted[t]);
    }
    if forall t: WatchedTransfer :: wanted[t] > 0 ==> Asked(Chunks(recipients), t.recipient) == 1 {
      assert forall t :: found[t] == wanted[t];
    }
  }

  lemma Cancel(k: nat, n: nat)
    ensures k * n == n <==> (n > 0 ==> k == 1)
  {
    assert k >= 2 && n > 0 ==> k * n >= 2 * n;
  }

  /**
   * When a faithful node's scan returns exactly the transfers on the chain, with true times:
   * whenever every recipient that was paid is listed in one chunk only.
   */
  lemma ScanExactlyWhenAskedOnce(node: Node, q: Query, chain: seq<Log>, time: nat -> nat)
    requires Faithful(node, q, chain, time)
    ensures Scan(node, q).Ok?
    ensures multiset(Scan(node, q).value) == Expected(chain, q, q.recipients, time)
            <==> forall t :: Expected(chain, q, q.recipients, time)[t] > 0 ==> Asked(Chunks(q.recipients), t.recipient) == 1
  {
    FaithfulScan(node, q, chain, time);
    ExactCounts(q.recipients, multiset(Scan(node, q).value), Expected(chain, q, q.recipients, time));
  }

  // ------------------------------------------------------------ what a caller can check

  /** The chunk a position of the list falls in. */
  function ChunkOf(i: nat): nat {
    i / LOG_FILTER_CHUNK
  }

  /** An address listed twice is listed twice within one chunk. */
  ghost predicate RepeatsWithinChunks(recipients: seq<Address>) {
    forall i, j :: 0 <= i < j < |recipients| && recipients[i] == recipients[j] ==> ChunkOf(i) == ChunkOf(j)
  }

  ghost predicate Apart(head: seq<Address>, rest: seq<Address>) {
    forall i, j :: 0 <= i < |head| && 0 <= j < |rest| ==> head[i] != rest[j]
  }

  lemma ChunkShift(i: nat)
    ensures ChunkOf(LOG_FILTER_CHUNK + i) == ChunkOf(i) + 1
    ensures i < LOG_FILTER_CHUNK ==> ChunkOf(i) == 0
  {
  }

  lemma RepeatsSplit(head: seq<Address>, rest: seq<Address>)
    requires |head| == LOG_FILTER_CHUNK && RepeatsWithinChunks(head + rest)
    ensures RepeatsWithinChunks(rest) && Apart(head, rest)
  {
    var all := head + rest;
    forall i, j | 0 <= i < j < |rest| && rest[i] == rest[j]
      ensures ChunkOf(i) == ChunkOf(j)
    {
      ChunkShift(i);
      ChunkShift(j);
      assert all[|head| + i] == all[|head| + j];
    }
    forall i, j | 0 <= i < |head| && 0 <= j < |rest|
      ensures head[i] != rest[j]
    {
      ChunkShift(i);
      ChunkShift(j);
      assert all[i] == head[i] && all[|head| + j] == rest[j];
    }
  }

  lemma RepeatsJoin(head: seq<Address>, rest: seq<Address>)
    requires |head| == LOG_FILTER_CHUNK && RepeatsWithinChunks(rest) && Apart(head, rest)
    ensures RepeatsWithinChunks(head + rest)
  {
    var all, n := head + rest, |head|;
    forall i, j | 0 <= i < n && n <= j < |all|
      ensures all[i] != all[j]
    {
      assert all[i] == head[i] && all[j] == rest[j - n];
    }
    forall i, j | 0 <= i < j < |all| && all[i] == all[j]
      ensures ChunkOf(i) == ChunkOf(j)
    {
      if n <= i {
        ChunkShift(i - n);
        ChunkShift(j - n);
        assert all[i] == rest[i - n] && all[j] == rest[j - n];
      } else {
        ChunkShift(i);
        ChunkShift(j);
      }
    }
  }

  /** No address is asked for twice exactly when repeats stay within a chunk. */
  lemma {:induction false} AskedOnceExactly(recipients: seq<Address>)
    ensures (forall a :: AtMostOnce(recipients, a)) <==> RepeatsWithinChunks(recipients)
    decreases |recipients|
  {
    if recipients == [] {
    } else if |recipients| <= LOG_FILTER_CHUNK {
      OneChunk(recipients);
    } else {
      var head, rest := recipients[..LOG_FILTER_CHUNK], recipients[LOG_FILTER_CHUNK..];
      assert recipients == head + rest;
      AskedOnceExactly(rest);
      AskedOnceSplit(recipients);
      if RepeatsWithinChunks(recipients) {
        RepeatsSplit(head, rest);
      } else if RepeatsWithinChunks(rest) && Apart(head, rest) {
        RepeatsJoin(head, rest);
      }
    }
  }

  ghost predicate AtMostOnce(recipients: seq<Address>, a: Address) {
    Asked(Chunks(recipients), a) <= 1
  }

  lemma AskedOnceSplit(recipients: seq<Address>)
    requires |recipients| > LOG_FILTER_CHUNK
    ensures var head, rest := recipients[..LOG_FILTER_CHUNK], recipients[LOG_FILTER_CHUNK..];
            (forall a :: AtMostOnce(recipients, a)) <==> (forall a :: AtMostOnce(rest, a)) && Apart(head, rest)
  {
    var head, rest := recipients[..LOG_FILTER_CHUNK], recipients[LOG_FILTER_CHUNK..];
    forall a: Address
      ensures AtMostOnce(recipients, a) <==> AtMostOnce(rest, a) && !(a in head && a in rest)
    {
      AskedFirst(recipients, a);
      AskedOnce(rest, a);
    }
    ApartMembers(head, rest);
  }

  lemma ApartMembers(head: seq<Address>, rest: seq<Address>)
    ensures Apart(head, rest) <==> forall a :: !(a in head && a in rest)
  {
    if forall a :: !(a in head && a in rest) {
      forall i, j | 0 <= i < |head| && 0 <= j < |rest|
        ensures head[i] != rest[j]
      {
        assert head[i] in head && rest[j] in rest;
      }
    }
  }

  lemma AskedFirst(recipients: seq<Address>, a: Address)
    requires recipients != []
    ensures var n := Min(LOG_FILTER_CHUNK, |recipients|);
            Asked(Chunks(recipients), a) == (if a in recipients[..n] then 1 else 0) + Asked(Chunks(recipients[n..]), a)
  {
    var n := Min(LOG_FILTER_CHUNK, |recipients|);
    AskedConcat([recipients[..n]], Chunks(recipients[n..]), a);
    assert Asked([recipients[..n]][..0], a) == 0;
  }

  lemma OneChunk(recipients: seq<Address>)
    requires 0 < |recipients| <= LOG_FILTER_CHUNK
    ensures (forall a :: AtMostOnce(recipients, a)) && RepeatsWithinChunks(recipients)
  {
    forall a: Address
      ensures AtMostOnce(recipients, a)
    {
      AskedFirst(recipients, a);
      assert recipients[|recipients|..] == [];
    }
    forall i, j | 0 <= i < j < |recipients| && recipients[i] == recipients[j]
      ensures ChunkOf(i) == ChunkOf(j)
    {
      ChunkShift(i);
      ChunkShift(j);
    }
  }

  /** Whatever the chain holds and in whatever order the node answers, the scan is exact. */
  ghost predicate ExactOnEveryChain(q: Query) {
    forall node, chain, time :: Faithful(node, q, chain, time) ==>
      Scan(node, q).Ok? && multiset(Scan(node, q).value) == Expected(chain, q, q.recipients, time)
  }

  /** One transfer to `a`, in the first block of the range. */
  function Payment(q: Query, a: Address): Log
    requires q.tokens != []
  {
    Log(q.tokens[0], false, [TRANSFER_SIGNATURE, 0, a], seq(32, _ => 0), Some(q.fromBlock), Some(0), Some(0), Some(0), Some(0), Some(0))
  }

  function Zero(): nat -> nat {
    b => 0
  }

  /** A node over a given chain. */
  function NodeOver(q: Query, chain: seq<Log>): Node {
    Node((n, chunk) => Ok(Filter(chain, Selector(q, chunk))), b => Ok(0))
  }

  /** A payment to an address listed in two chunks comes out more than once. */
  lemma RepeatedAddressOverReports(q: Query, a: Address)
    requires q.tokens != [] && q.fromBlock <= q.toBlock && a in q.recipients && Asked(Chunks(q.recipients), a) >= 2
    ensures var chain := [Payment(q, a)];
            && Faithful(NodeOver(q, chain), q, chain, Zero()) && Scan(NodeOver(q, chain), q).Ok?
            && multiset(Scan(NodeOver(q, chain), q).value) != Expected(chain, q, q.recipients, Zero())
  {
    var log := Payment(q, a);
    var chain := [log];
    var node := NodeOver(q, chain);
    assert Matches(log, q, q.recipients) && Genuine(log, q, Zero());
    var t := TransferOf(log, q, q.recipients, Zero());
    assert Expected(chain[1..], q, q.recipients, Zero()) == multiset{};
    assert Expected(chain, q, q.recipients, Zero())[t] == 1;
    ScanExactlyWhenAskedOnce(node, q, chain, Zero());
  }

  /**
   * The condition a caller can check: the scan is exact on every chain if and only if no address
   * is listed in two chunks, unless the query asks for no token or no block at all.
   */
  lemma ScanExactExactly(q: Query)
    ensures ExactOnEveryChain(q) <==> q.tokens == [] || q.fromBlock > q.toBlock || RepeatsWithinChunks(q.recipients)
  {
    AskedOnceExactly(q.recipients);
    if q.tokens == [] || q.fromBlock > q.toBlock || RepeatsWithinChunks(q.recipients) {
      forall node, chain, time | Faithful(node, q, chain, time)
        ensures Scan(node, q).Ok? && multiset(Scan(node, q).value) == Expected(chain, q, q.recipients, time)
      {
        ScanExactlyWhenAskedOnce(node, q, chain, time);
        forall t | Expected(chain, q, q.recipients, time)[t] > 0
          ensures Asked(Chunks(q.recipients), t.recipient) == 1
        {
          ExpectedRecipients(chain, q, q.recipients, time, t);
          ExpectedNeedsQuery(chain, q, q.recipients, time);
          AskedOnce(q.recipients, t.recipient);
          assert RepeatsWithinChunks(q.recipients) ==> AtMostOnce(q.recipients, t.recipient);
        }
      }
    } else {
      var a :| !AtMostOnce(q.recipients, a);
      AskedOnce(q.recipients, a);
      RepeatedAddressOverReports(q, a);
      assert !ExactOnEveryChain(q);
    }
  }

  lemma {:induction false} ExpectedNeedsQuery(chain: seq<Log>, q: Query, recipients: seq<Address>, time: nat -> nat)
    requires forall log :: log in chain ==> Genuine(log, q, time)
    ensures q.tokens == [] || q.fromBlock > q.toBlock ==> Expected(chain, q, recipients, time) == multiset{}
  {
    if chain != [] {
      ExpectedNeedsQuery(chain[1..], q, recipients, time);
    }
  }

  /** In particular, for distinct recipients it returns exactly the transfers on the chain. */
  lemma ChunkedScanIsExact(node: Node, q: Query, chain: seq<Log>, time: nat -> nat)
    requires Faithful(node, q, chain, time) && Distinct(q.recipients)
    ensures Scan(node, q).Ok? && multiset(Scan(node, q).value) == Expected(chain, q, q.recipients, time)
  {
    ScanExactExactly(q);
  }
}
