/** The third-party settlement search: `payment_settlement_tx` in crates/gum-chain/src/lib.rs. */
module Settlement {
  import opened Prelude
  import opened Sorting

  type Address = nat
  type Hash = nat

  datatype Topic = SettledSig | RecoveredSig | OtherSig

  /** What the event decoders read; `token` is meaningful in a Recovered event only. */
  datatype Body = Body(token: Address, amount: nat)

  /** A log as a provider returns it: all mined metadata may be missing. */
  datatype Log = Log(emitter: Address, removed: bool, topic: Option<Topic>, body: Option<Body>,
                     block: Option<nat>, txIndex: Option<nat>, logIndex: Option<nat>,
                     txHash: Option<Hash>, blockHash: Option<Hash>)

  datatype Amount = SettledAmount(value: nat) | RecoveredAmount(value: nat)

  datatype Event = Event(txHash: Hash, block: nat, blockHash: Hash, txIndex: nat, amount: Amount)

  datatype SettlementEvent = SettlementEvent(txHash: Hash, block: nat, blockHash: Hash, txIndex: nat,
                                             settled: Option<nat>, recovered: nat)

  datatype Cause = Malformed | NoSettlement | Transport
  datatype ChainError = LogRangeTooLarge | Transient(cause: Cause)

  type Outcome = Result<Option<SettlementEvent>, ChainError>

  // ------------------------------------------------------------ one search

  predicate Relevant(log: Log, payment: Address) {
    !log.removed && log.emitter == payment && log.topic.Some? && !log.topic.value.OtherSig?
  }

  function ByPayment(payment: Address): Log -> bool {
    log => Relevant(log, payment)
  }

  function Mine(logs: seq<Log>, payment: Address): seq<Log> {
    Filter(logs, ByPayment(payment))
  }

  predicate Complete(log: Log) {
    log.txHash.Some? && log.block.Some? && log.blockHash.Some? && log.txIndex.Some? && log.topic.Some? && log.body.Some?
  }

  predicate AllComplete(logs: seq<Log>) {
    forall i :: 0 <= i < |logs| ==> Complete(logs[i])
  }

  /** A recovery of some other token. */
  predicate Foreign(log: Log, token: Address) {
    log.topic == Some(RecoveredSig) && log.body.Some? && log.body.value.token != token
  }

  function NotForeign(token: Address): Log -> bool {
    log => !Foreign(log, token)
  }

  function EventOf(log: Log): Event
    requires Complete(log)
  {
    Event(log.txHash.value, log.block.value, log.blockHash.value, log.txIndex.value,
          if log.topic.value.SettledSig? then SettledAmount(log.body.value.amount) else RecoveredAmount(log.body.value.amount))
  }

  function EventsOf(logs: seq<Log>, token: Address): seq<Event>
    requires AllComplete(logs)
  {
    if logs == [] then [] else (if Foreign(logs[0], token) then [] else [EventOf(logs[0])]) + EventsOf(logs[1..], token)
  }

  /** The order of optional integers: a missing one comes first. */
  predicate OptionLess(a: Option<nat>, b: Option<nat>) {
    b.Some? && (a.None? || a.value < b.value)
  }

  /** The sort key: block, then transaction index, then log index. */
  predicate NotAfter(x: Log, y: Log) {
    if x.block != y.block then OptionLess(x.block, y.block)
    else if x.txIndex != y.txIndex then OptionLess(x.txIndex, y.txIndex)
    else x.logIndex == y.logIndex || OptionLess(x.logIndex, y.logIndex)
  }

  lemma NotAfterIsPreorder()
    ensures Preorder(NotAfter)
  {
  }

  /** The leading events of one transaction. */
  function Lead(events: seq<Event>, hash: Hash): seq<Event> {
    if events == [] || events[0].txHash != hash then [] else [events[0]] + Lead(events[1..], hash)
  }

  function SettledOf(events: seq<Event>, hash: Hash): seq<nat> {
    if events == [] then []
    else (if events[0].txHash == hash && events[0].amount.SettledAmount? then [events[0].amount.value] else [])
         + SettledOf(events[1..], hash)
  }

  function RecoveredOf(events: seq<Event>, hash: Hash): nat {
    if events == [] then 0
    else (if events[0].txHash == hash && events[0].amount.RecoveredAmount? then events[0].amount.value else 0)
         + RecoveredOf(events[1..], hash)
  }

  function First<T>(s: seq<T>): Option<T> {
    if s == [] then None else Some(s[0])
  }

  function Settle(events: seq<Event>): Outcome {
    if events == [] then Ok(None)
    else
      var lead := events[0];
      var group := Lead(events, lead.txHash);
      var settled, recovered := SettledOf(group, lead.txHash), RecoveredOf(group, lead.txHash);
      if |settled| >= 2 || recovered >= U256_LIMIT then Err(Transient(Malformed))
      else Ok(Some(SettlementEvent(lead.txHash, lead.block, lead.blockHash, lead.txIndex, First(settled), recovered)))
  }

  lemma SortedComplete(logs: seq<Log>)
    ensures AllComplete(Sort(logs, NotAfter)) <==> AllComplete(logs)
  {
    var sorted := Sort(logs, NotAfter);
    SortElements(logs, NotAfter);
    forall i | 0 <= i < |sorted|
      ensures sorted[i] in logs
    {
      assert sorted[i] in multiset(sorted);
    }
    forall i | 0 <= i < |logs|
      ensures logs[i] in sorted
    {
      assert logs[i] in multiset(logs);
    }
  }

  /** What one search concludes from the logs a provider returned. */
  function Search(logs: seq<Log>, payment: Address, token: Address): Outcome {
    var mine := Mine(logs, payment);
    if !AllComplete(mine) then Err(Transient(Malformed))
    else SortedComplete(mine); Settle(EventsOf(Sort(mine, NotAfter), token))
  }

  // ------------------------------------------------------------ the loops

  lemma {:induction false} EventsOfConcat(a: seq<Log>, b: seq<Log>, token: Address)
    requires AllComplete(a) && AllComplete(b)
    ensures AllComplete(a + b) && EventsOf(a + b, token) == EventsOf(a, token) + EventsOf(b, token)
  {
    if a == [] {
      assert a + b == b;
    } else {
      assert (a + b)[1..] == a[1..] + b;
      EventsOfConcat(a[1..], b, token);
    }
  }

  lemma {:induction false} SettledOfConcat(a: seq<Event>, b: seq<Event>, hash: Hash)
    ensures SettledOf(a + b, hash) == SettledOf(a, hash) + SettledOf(b, hash)
  {
    if a == [] {
      assert a + b == b;
    } else {
      assert (a + b)[1..] == a[1..] + b && (a + b)[0] == a[0];
      SettledOfConcat(a[1..], b, hash);
      var head := if a[0].txHash == hash && a[0].amount.SettledAmount? then [a[0].amount.value] else [];
      assert SettledOf(a + b, hash) == head + (SettledOf(a[1..], hash) + SettledOf(b, hash));
    }
  }

  lemma {:induction false} RecoveredOfConcat(a: seq<Event>, b: seq<Event>, hash: Hash)
    ensures RecoveredOf(a + b, hash) == RecoveredOf(a, hash) + RecoveredOf(b, hash)
  {
    if a == [] {
      assert a + b == b;
    } else {
      assert (a + b)[1..] == a[1..] + b;
      RecoveredOfConcat(a[1..], b, hash);
    }
  }

  /** Decoding in sorted order, dropping foreign recoveries. */
  method Decode(logs: seq<Log>, token: Address) returns (r: Result<seq<Event>, ChainError>)
    requires forall i :: 0 <= i < |logs| ==> logs[i].topic == Some(SettledSig) || logs[i].topic == Some(RecoveredSig)
    ensures r == if AllComplete(logs) then Ok(EventsOf(logs, token)) else Err(Transient(Malformed))
  {
    var events := [];
    for i := 0 to |logs|
      invariant AllComplete(logs[..i]) && events == EventsOf(logs[..i], token)
    {
      var log := logs[i];
      if log.txHash.None? || log.block.None? || log.blockHash.None? || log.txIndex.None? {
        return Err(Transient(Malformed));
      }
      if log.body.None? {
        return Err(Transient(Malformed));
      }
      assert logs[..i + 1] == logs[..i] + [log];
      EventsOfConcat(logs[..i], [log], token);
      assert [log][1..] == [];
      if log.topic.value.SettledSig? {
        events := events + [EventOf(log)];
      } else if log.body.value.token == token {
        events := events + [EventOf(log)];
      }
    }
    assert logs[..|logs|] == logs;
    return Ok(events);
  }

  lemma {:induction false} LeadIsPrefix(events: seq<Event>, hash: Hash)
    ensures var n := |Lead(events, hash)|;
            && n <= |events| && Lead(events, hash) == events[..n]
            && (forall i :: 0 <= i < n ==> events[i].txHash == hash)
            && (n < |events| ==> events[n].txHash != hash)
  {
    if events != [] && events[0].txHash == hash {
      LeadIsPrefix(events[1..], hash);
      var n := |Lead(events[1..], hash)|;
      assert events[..n + 1] == [events[0]] + events[1..][..n];
      forall i | 0 <= i < n + 1
        ensures events[i].txHash == hash
      {
        assert i > 0 ==> events[i] == events[1..][i - 1];
      }
    }
  }

  /** One more event of the group. */
  lemma Extend(group: seq<Event>, i: nat, hash: Hash)
    requires i < |group| && group[i].txHash == hash
    ensures group[i].amount.SettledAmount? ==>
              && SettledOf(group[..i + 1], hash) == SettledOf(group[..i], hash) + [group[i].amount.value]
              && RecoveredOf(group[..i + 1], hash) == RecoveredOf(group[..i], hash)
    ensures group[i].amount.RecoveredAmount? ==>
              && SettledOf(group[..i + 1], hash) == SettledOf(group[..i], hash)
              && RecoveredOf(group[..i + 1], hash) == RecoveredOf(group[..i], hash) + group[i].amount.value
    ensures |SettledOf(group[..i + 1], hash)| <= |SettledOf(group, hash)|
    ensures RecoveredOf(group[..i + 1], hash) <= RecoveredOf(group, hash)
  {
    var last := [group[i]];
    assert group[..i + 1] == group[..i] + last && last[1..] == [];
    SettledOfConcat(group[..i], last, hash);
    RecoveredOfConcat(group[..i], last, hash);
    assert group == group[..i + 1] + group[i + 1..];
    SettledOfConcat(group[..i + 1], group[i + 1..], hash);
    RecoveredOfConcat(group[..i + 1], group[i + 1..], hash);
  }

  /** The running totals over the first transaction, with both refusals. */
  method SettleFirst(events: seq<Event>) returns (r: Outcome)
    ensures r == Settle(events)
  {
    if events == [] {
      return Ok(None);
    }
    var lead := events[0];
    ghost var group := Lead(events, lead.txHash);
    LeadIsPrefix(events, lead.txHash);
    var settled: Option<nat> := None;
    var recovered: Option<nat> := None;
    var i := 0;
    while i < |events| && events[i].txHash == lead.txHash
      invariant i <= |group|
      invariant settled == First(SettledOf(group[..i], lead.txHash))
      invariant |SettledOf(group[..i], lead.txHash)| == if settled.Some? then 1 else 0
      invariant (if recovered.Some? then recovered.value else 0) == RecoveredOf(group[..i], lead.txHash) < U256_LIMIT
    {
      Extend(group, i, lead.txHash);
      match events[i].amount {
        case SettledAmount(amount) =>
          var before := settled;
          settled := Some(amount);
          if before.Some? {
            return Err(Transient(Malformed));
          }
        case RecoveredAmount(amount) =>
          var sum := (if recovered.Some? then recovered.value else 0) + amount;
          if sum >= U256_LIMIT {
            return Err(Transient(Malformed));
          }
          recovered := Some(sum);
      }
      i := i + 1;
    }
    assert group[..i] == group;
    return Ok(Some(SettlementEvent(lead.txHash, lead.block, lead.blockHash, lead.txIndex, settled,
                                   if recovered.Some? then recovered.value else 0)));
  }

  method PaymentSettlementTx(answer: Result<seq<Log>, ChainError>, payment: Address, token: Address) returns (r: Outcome)
    ensures r == if answer.Err? then Err(answer.error) else Search(answer.value, payment, token)
  {
    if answer.Err? {
      return Err(answer.error);
    }
    var logs := Sort(Mine(answer.value, payment), NotAfter);
    SortedComplete(Mine(answer.value, payment));
    SortedMine(answer.value, payment);
    assert forall i :: 0 <= i < |logs| ==> logs[i] in logs;
    var events := Decode(logs, token);
    if events.Err? {
      return Err(events.error);
    }
    r := SettleFirst(events.value);
  }

  lemma SortedMine(logs: seq<Log>, payment: Address)
    ensures forall log :: log in Sort(Mine(logs, payment), NotAfter) ==> log in logs && Relevant(log, payment)
  {
    SortElements(Mine(logs, payment), NotAfter);
    FilterMembers(logs, ByPayment(payment));
    forall log | log in Sort(Mine(logs, payment), NotAfter)
      ensures log in Mine(logs, payment)
    {
      assert log in multiset(Sort(Mine(logs, payment), NotAfter));
    }
  }

  // ------------------------------------------------------------ what the answer means

  predicate SameTx(x: Event, y: Event) {
    x.block == y.block && x.txIndex == y.txIndex
  }

  predicate NotLater(x: Event, y: Event) {
    x.block < y.block || (x.block == y.block && x.txIndex <= y.txIndex)
  }

  /** Mined events: a transaction hash and a place in the chain name the same transaction. */
  ghost predicate Coherent(events: seq<Event>) {
    forall x, y :: x in events && y in events ==>
      && (x.txHash == y.txHash <==> SameTx(x, y))
      && (x.txHash == y.txHash ==> x.blockHash == y.blockHash)
  }

  ghost predicate Earliest(lead: Event, events: seq<Event>) {
    lead in events && forall e :: e in events ==> NotLater(lead, e)
  }

  function Bag<T>(v: Option<T>): multiset<T> {
    if v.Some? then multiset{v.value} else multiset{}
  }

  /**
   * The specification, over the events in any order: no event, no settlement; otherwise the
   * earliest transaction, its only Settled amount if any and the sum of all its recoveries.
   */
  ghost predicate Answers(events: seq<Event>, r: Outcome) {
    if r.Err? then
      exists lead :: Earliest(lead, events) && (|SettledOf(events, lead.txHash)| >= 2 || RecoveredOf(events, lead.txHash) >= U256_LIMIT)
    else if r.value.None? then events == []
    else
      var s := r.value.value;
      && (exists lead :: Earliest(lead, events) && s.txHash == lead.txHash && s.block == lead.block && s.blockHash == lead.blockHash && s.txIndex == lead.txIndex)
      && multiset(SettledOf(events, s.txHash)) == Bag(s.settled)
      && RecoveredOf(events, s.txHash) == s.recovered < U256_LIMIT
  }

  ghost predicate InOrder(events: seq<Event>) {
    forall i, j :: 0 <= i < j < |events| ==> NotLater(events[i], events[j])
  }

  lemma {:induction false} NoneOf(events: seq<Event>, hash: Hash)
    requires forall i :: 0 <= i < |events| ==> events[i].txHash != hash
    ensures SettledOf(events, hash) == [] && RecoveredOf(events, hash) == 0
  {
    if events != [] {
      NoneOf(events[1..], hash);
    }
  }

  /** In chain order, past the first event of another transaction there is none of this one. */
  lemma TailDiffers(events: seq<Event>, n: nat, k: nat)
    requires n <= k < |events| && InOrder(events) && Coherent(events)
    requires events[n].txHash != events[0].txHash
    ensures events[k].txHash != events[0].txHash
  {
    assert events[0] in events && events[n] in events && events[k] in events;
    assert NotLater(events[0], events[n]) && !SameTx(events[0], events[n]);
    if n < k {
      assert NotLater(events[n], events[k]);
    }
  }

  /** So the leading events of the first transaction are all of its events. */
  lemma LeadIsAll(events: seq<Event>)
    requires events != [] && InOrder(events) && Coherent(events)
    ensures var hash := events[0].txHash;
            && SettledOf(Lead(events, hash), hash) == SettledOf(events, hash)
            && RecoveredOf(Lead(events, hash), hash) == RecoveredOf(events, hash)
  {
    var hash := events[0].txHash;
    LeadIsPrefix(events, hash);
    var lead := Lead(events, hash);
    var rest := events[|lead|..];
    assert events == lead + rest;
    SettledOfConcat(lead, rest, hash);
    RecoveredOfConcat(lead, rest, hash);
    forall k | 0 <= k < |rest|
      ensures rest[k].txHash != hash
    {
      TailDiffers(events, |lead|, |lead| + k);
    }
    NoneOf(rest, hash);
  }

  lemma SettleAnswers(events: seq<Event>)
    requires InOrder(events) && Coherent(events)
    ensures Answers(events, Settle(events))
  {
    if events != [] {
      var lead := events[0];
      LeadIsAll(events);
      assert Earliest(lead, events);
      var settled := SettledOf(events, lead.txHash);
      if |settled| == 1 {
        assert settled == [settled[0]];
      }
    }
  }

  lemma {:induction false} EventsMembers(logs: seq<Log>, token: Address)
    requires AllComplete(logs)
    ensures forall log :: log in logs && !Foreign(log, token) ==> Complete(log) && EventOf(log) in EventsOf(logs, token)
    ensures forall e :: e in EventsOf(logs, token) ==> exists log :: log in logs && Complete(log) && !Foreign(log, token) && EventOf(log) == e
  {
    if logs != [] {
      EventsMembers(logs[1..], token);
      assert logs == [logs[0]] + logs[1..];
      var rest := EventsOf(logs[1..], token);
      forall e | e in EventsOf(logs, token)
        ensures exists log :: log in logs && Complete(log) && !Foreign(log, token) && EventOf(log) == e
      {
        if e in rest {
          var log :| log in logs[1..] && Complete(log) && !Foreign(log, token) && EventOf(log) == e;
          assert log in logs;
        } else {
          assert logs[0] in logs && EventOf(logs[0]) == e;
        }
      }
    }
  }

  lemma {:induction false} EventsInOrder(logs: seq<Log>, token: Address)
    requires AllComplete(logs) && Ordered(logs, NotAfter)
    ensures InOrder(EventsOf(logs, token))
  {
    if logs != [] {
      EventsInOrder(logs[1..], token);
      EventsMembers(logs[1..], token);
      var rest := EventsOf(logs[1..], token);
      forall j | 0 <= j < |rest|
        ensures NotLater(EventOf(logs[0]), rest[j])
      {
        assert rest[j] in rest;
        var log :| log in logs[1..] && Complete(log) && EventOf(log) == rest[j];
        assert NotAfter(logs[0], log);
      }
    }
  }

  lemma Swap<T>(front: seq<T>, head: seq<T>, back: seq<T>, rest: seq<T>)
    requires multiset(rest) == multiset(front + back)
    ensures multiset(head + rest) == multiset(front + (head + back))
  {
  }

  lemma {:induction false} EventsPermute(a: seq<Log>, b: seq<Log>, token: Address)
    requires multiset(a) == multiset(b) && AllComplete(a) && AllComplete(b)
    ensures multiset(EventsOf(a, token)) == multiset(EventsOf(b, token))
  {
    if a == [] {
      assert |b| == |multiset(b)| == |multiset(a)| == 0;
    } else {
      var front, back := FindHead(a, b);
      EventsAround(front, a[0], back, token);
      EventsPermute(a[1..], front + back, token);
      var head := if Foreign(a[0], token) then [] else [EventOf(a[0])];
      Swap(EventsOf(front, token), head, EventsOf(back, token), EventsOf(a[1..], token));
    }
  }

  lemma EventsAround(front: seq<Log>, log: Log, back: seq<Log>, token: Address)
    requires AllComplete(front + [log] + back)
    ensures AllComplete(front) && AllComplete(back) && Complete(log)
    ensures AllComplete(front + back) && EventsOf(front + back, token) == EventsOf(front, token) + EventsOf(back, token)
    ensures EventsOf(front + [log] + back, token)
         == EventsOf(front, token) + ((if Foreign(log, token) then [] else [EventOf(log)]) + EventsOf(back, token))
  {
    var all := front + [log] + back;
    assert forall i :: 0 <= i < |front| ==> front[i] == all[i];
    assert forall i :: 0 <= i < |back| ==> back[i] == all[|front| + 1 + i];
    assert all[|front|] == log;
    EventsOfConcat(front, back, token);
    EventsOfConcat(front, [log] + back, token);
    assert all == front + ([log] + back) && ([log] + back)[1..] == back;
  }

  lemma {:induction false} RecoveredPermutes(a: seq<Event>, b: seq<Event>, hash: Hash)
    requires multiset(a) == multiset(b)
    ensures RecoveredOf(a, hash) == RecoveredOf(b, hash)
  {
    if a == [] {
      assert |b| == |multiset(b)| == |multiset(a)| == 0;
    } else {
      var front, back := FindHead(a, b);
      var tail := [a[0]] + back;
      assert b == front + tail && tail[1..] == back;
      RecoveredOfConcat(front, back, hash);
      RecoveredOfConcat(front, tail, hash);
      RecoveredPermutes(a[1..], front + back, hash);
    }
  }

  lemma {:induction false} SettledPermutes(a: seq<Event>, b: seq<Event>, hash: Hash)
    requires multiset(a) == multiset(b)
    ensures multiset(SettledOf(a, hash)) == multiset(SettledOf(b, hash))
  {
    if a == [] {
      assert |b| == |multiset(b)| == |multiset(a)| == 0;
    } else {
      var front, back := FindHead(a, b);
      var tail := [a[0]] + back;
      assert b == front + tail && tail[1..] == back;
      SettledOfConcat(front, back, hash);
      SettledOfConcat(front, tail, hash);
      SettledPermutes(a[1..], front + back, hash);
      var head := if a[0].txHash == hash && a[0].amount.SettledAmount? then [a[0].amount.value] else [];
      Swap(SettledOf(front, hash), head, SettledOf(back, hash), SettledOf(a[1..], hash));
    }
  }

  lemma SameMembers<T>(a: seq<T>, b: seq<T>)
    requires multiset(a) == multiset(b)
    ensures |a| == |b| && forall x :: x in a <==> x in b
  {
    assert |a| == |multiset(a)| == |multiset(b)| == |b|;
    forall x
      ensures x in a <==> x in b
    {
      assert x in multiset(a) <==> x in multiset(b);
    }
  }

  /** The specification does not see the order of events. */
  lemma AnswersPermute(a: seq<Event>, b: seq<Event>, r: Outcome)
    requires multiset(a) == multiset(b) && Answers(a, r)
    ensures Answers(b, r)
  {
    SameMembers(a, b);
    forall lead | Earliest(lead, a)
      ensures Earliest(lead, b)
    {
    }
    forall hash
      ensures multiset(SettledOf(a, hash)) == multiset(SettledOf(b, hash)) && RecoveredOf(a, hash) == RecoveredOf(b, hash)
      ensures |SettledOf(a, hash)| == |SettledOf(b, hash)|
    {
      SettledPermutes(a, b, hash);
      RecoveredPermutes(a, b, hash);
      SameMembers(SettledOf(a, hash), SettledOf(b, hash));
    }
  }

  lemma EarliestUnique(events: seq<Event>, x: Event, y: Event)
    requires Coherent(events) && Earliest(x, events) && Earliest(y, events)
    ensures x.txHash == y.txHash && x.block == y.block && x.txIndex == y.txIndex && x.blockHash == y.blockHash
  {
    assert NotLater(x, y) && NotLater(y, x);
  }

  lemma AtMostOne<T>(s: seq<T>, v: Option<T>)
    requires multiset(s) == Bag(v)
    ensures |s| <= 1
  {
    assert |s| == |multiset(s)| == |Bag(v)|;
  }

  lemma ErrorOrAnswer(events: seq<Event>, r: Outcome, q: Outcome)
    requires Coherent(events) && Answers(events, r) && r.Err? && q.Ok?
    ensures !Answers(events, q)
  {
    if Answers(events, q) {
      var x :| Earliest(x, events) && (|SettledOf(events, x.txHash)| >= 2 || RecoveredOf(events, x.txHash) >= U256_LIMIT);
      if q.value.Some? {
        var y :| Earliest(y, events) && q.value.value.txHash == y.txHash;
        EarliestUnique(events, x, y);
        AtMostOne(SettledOf(events, x.txHash), q.value.value.settled);
      }
    }
  }

  /** And it leaves one answer. */
  lemma AnswersUnique(events: seq<Event>, r: Outcome, q: Outcome)
    requires Coherent(events) && Answers(events, r) && Answers(events, q)
    ensures r.Err? <==> q.Err?
    ensures r.Ok? ==> r == q
  {
    if r.Err? && q.Ok? {
      ErrorOrAnswer(events, r, q);
    } else if r.Ok? && q.Err? {
      ErrorOrAnswer(events, q, r);
    } else if r.Ok? && r.value.Some? && q.value.Some? {
      var s, t := r.value.value, q.value.value;
      var x :| Earliest(x, events) && s.txHash == x.txHash && s.block == x.block && s.blockHash == x.blockHash && s.txIndex == x.txIndex;
      var y :| Earliest(y, events) && t.txHash == y.txHash && t.block == y.block && t.blockHash == y.blockHash && t.txIndex == y.txIndex;
      EarliestUnique(events, x, y);
      BagInjective(s.settled, t.settled);
    }
  }

  lemma BagInjective<T>(a: Option<T>, b: Option<T>)
    requires Bag(a) == Bag(b)
    ensures a == b
  {
    assert a.Some? ==> a.value in Bag(b);
    assert b.Some? ==> b.value in Bag(a);
  }

  /** The logs of this payment are as a chain would carry them. */
  ghost predicate Mined(logs: seq<Log>, payment: Address, token: Address) {
    AllComplete(Mine(logs, payment)) ==> Coherent(EventsOf(Mine(logs, payment), token))
  }

  /**
   * Sorting, decoding and taking the leading transaction compute the specification: the
   * answer to the whole collection of this payment's events, in whatever order they came.
   */
  lemma SearchMeans(logs: seq<Log>, payment: Address, token: Address)
    requires Mined(logs, payment, token)
    ensures var r := Search(logs, payment, token);
            if AllComplete(Mine(logs, payment)) then Answers(EventsOf(Mine(logs, payment), token), r)
            else r == Err(Transient(Malformed))
  {
    var mine := Mine(logs, payment);
    if AllComplete(mine) {
      var sorted := Sort(mine, NotAfter);
      SortedComplete(mine);
      NotAfterIsPreorder();
      SortOrdered(mine, NotAfter);
      SortElements(mine, NotAfter);
      EventsInOrder(sorted, token);
      EventsPermute(sorted, mine, token);
      SameMembers(EventsOf(sorted, token), EventsOf(mine, token));
      SettleAnswers(EventsOf(sorted, token));
      AnswersPermute(EventsOf(sorted, token), EventsOf(mine, token), Search(logs, payment, token));
    }
  }

  lemma CompletePermutes(a: seq<Log>, b: seq<Log>)
    requires multiset(a) == multiset(b) && AllComplete(a)
    ensures AllComplete(b)
  {
    SameMembers(a, b);
    forall i | 0 <= i < |b|
      ensures Complete(b[i])
    {
      assert b[i] in a;
    }
  }

  /** The provider's order, and anything it returns beside this payment's events, is irrelevant. */
  lemma OrderIrrelevant(a: seq<Log>, b: seq<Log>, payment: Address, token: Address)
    requires multiset(Mine(a, payment)) == multiset(Mine(b, payment)) && Mined(a, payment, token)
    ensures Search(a, payment, token) == Search(b, payment, token)
  {
    var x, y := Mine(a, payment), Mine(b, payment);
    if AllComplete(x) {
      CompletePermutes(x, y);
      EventsPermute(x, y, token);
      SameMembers(EventsOf(x, token), EventsOf(y, token));
      SearchMeans(a, payment, token);
      SearchMeans(b, payment, token);
      AnswersPermute(EventsOf(x, token), EventsOf(y, token), Search(a, payment, token));
      AnswersUnique(EventsOf(y, token), Search(a, payment, token), Search(b, payment, token));
    } else if AllComplete(y) {
      CompletePermutes(y, x);
    }
  }

  lemma {:induction false} EventsOfFilter(logs: seq<Log>, token: Address)
    requires AllComplete(logs)
    ensures var kept := Filter(logs, NotForeign(token));
            AllComplete(kept) && EventsOf(logs, token) == EventsOf(kept, token)
  {
    if logs != [] {
      EventsOfFilter(logs[1..], token);
      var kept := Filter(logs, NotForeign(token));
      if !Foreign(logs[0], token) {
        assert kept[1..] == Filter(logs[1..], NotForeign(token));
      } else {
        assert kept == Filter(logs[1..], NotForeign(token));
        assert EventsOf(logs, token) == EventsOf(logs[1..], token);
      }
    }
  }

  /**
   * Recoveries of other tokens never matter, wherever they sit and even among logs no chain
   * would carry: anyone may cause one.
   */
  lemma ForeignRecoveryIgnored(front: seq<Log>, noise: Log, back: seq<Log>, payment: Address, token: Address)
    requires Complete(noise) && Foreign(noise, token)
    ensures Search(front + [noise] + back, payment, token) == Search(front + back, payment, token)
  {
    var with, without := front + [noise] + back, front + back;
    var mine := ByPayment(payment);
    var keep := NotForeign(token);
    FilterConcat(front, back, mine);
    FilterConcat(front + [noise], back, mine);
    FilterConcat(front, [noise], mine);
    var x, y := Mine(with, payment), Mine(without, payment);
    var f, g := Filter(front, mine), Filter(back, mine);
    var mid := Filter([noise], mine);
    assert mid == [noise] || mid == [];
    assert x == f + mid + g && y == f + g;
    CompleteAround(f, mid, g);
    if AllComplete(x) {
      FilterConcat(f, g, keep);
      FilterConcat(f + mid, g, keep);
      FilterConcat(f, mid, keep);
      assert Filter(mid, keep) == [];
      assert Filter(x, keep) == Filter(y, keep);
      NotAfterIsPreorder();
      FilterSort(x, NotAfter, keep);
      FilterSort(y, NotAfter, keep);
      SortedComplete(x);
      SortedComplete(y);
      EventsOfFilter(Sort(x, NotAfter), token);
      EventsOfFilter(Sort(y, NotAfter), token);
    }
  }

  lemma CompleteAround(front: seq<Log>, mid: seq<Log>, back: seq<Log>)
    requires AllComplete(mid)
    ensures AllComplete(front + mid + back) <==> AllComplete(front + back)
  {
    var all, some := front + mid + back, front + back;
    assert forall i :: 0 <= i < |front| ==> front[i] == all[i] == some[i];
    assert forall i :: 0 <= i < |mid| ==> mid[i] == all[|front| + i];
    assert forall i :: 0 <= i < |back| ==> back[i] == all[|front| + |mid| + i] == some[|front| + i];
  }

  // ------------------------------------------------------------ cutting the block range

  predicate Within(log: Log, lo: nat, hi: nat) {
    log.block.Some? && lo <= log.block.value <= hi
  }

  function InBlocks(lo: nat, hi: nat): Log -> bool {
    log => Within(log, lo, hi)
  }

  /** What a node holds for a range of blocks. */
  function Between(chain: seq<Log>, lo: nat, hi: nat): seq<Log> {
    Filter(chain, InBlocks(lo, hi))
  }

  function MineBetween(chain: seq<Log>, payment: Address, lo: nat, hi: nat): seq<Log> {
    Mine(Between(chain, lo, hi), payment)
  }

  lemma CutPermutes(chain: seq<Log>, lo: nat, mid: nat, hi: nat)
    requires lo <= mid <= hi
    ensures multiset(Between(chain, lo, hi)) == multiset(Between(chain, lo, mid) + Between(chain, mid + 1, hi))
  {
    FilterPartition(chain, InBlocks(lo, hi), InBlocks(lo, mid), InBlocks(mid + 1, hi));
  }

  lemma MineCut(chain: seq<Log>, payment: Address, lo: nat, mid: nat, hi: nat)
    requires lo <= mid <= hi
    ensures multiset(MineBetween(chain, payment, lo, hi))
         == multiset(MineBetween(chain, payment, lo, mid) + MineBetween(chain, payment, mid + 1, hi))
  {
    var mine := ByPayment(payment);
    CutPermutes(chain, lo, mid, hi);
    FilterPermutes(Between(chain, lo, hi), Between(chain, lo, mid) + Between(chain, mid + 1, hi), mine);
    FilterConcat(Between(chain, lo, mid), Between(chain, mid + 1, hi), mine);
  }

  lemma MineBlocks(chain: seq<Log>, payment: Address, token: Address, lo: nat, hi: nat)
    requires AllComplete(MineBetween(chain, payment, lo, hi))
    ensures forall e :: e in EventsOf(MineBetween(chain, payment, lo, hi), token) ==> lo <= e.block <= hi
  {
    var mine := MineBetween(chain, payment, lo, hi);
    FilterMembers(Between(chain, lo, hi), ByPayment(payment));
    FilterMembers(chain, InBlocks(lo, hi));
    EventsMembers(mine, token);
    forall e | e in EventsOf(mine, token)
      ensures lo <= e.block <= hi
    {
      var log :| log in mine && Complete(log) && EventOf(log) == e;
    }
  }

  /** A transaction of the earlier part has no event in the later one. */
  lemma LaterTotals(a: seq<Event>, b: seq<Event>, mid: nat, lead: Event)
    requires Coherent(a + b) && lead in a && lead.block <= mid
    requires forall e :: e in b ==> e.block > mid
    ensures SettledOf(a + b, lead.txHash) == SettledOf(a, lead.txHash)
    ensures RecoveredOf(a + b, lead.txHash) == RecoveredOf(a, lead.txHash)
  {
    SettledOfConcat(a, b, lead.txHash);
    RecoveredOfConcat(a, b, lead.txHash);
    forall i | 0 <= i < |b|
      ensures b[i].txHash != lead.txHash
    {
      OtherTransaction(a + b, lead, b[i]);
    }
    NoneOf(b, lead.txHash);
  }

  lemma OtherTransaction(events: seq<Event>, x: Event, y: Event)
    requires Coherent(events) && x in events && y in events && x.block < y.block
    ensures x.txHash != y.txHash
  {
  }

  lemma LaterEarliest(a: seq<Event>, b: seq<Event>, mid: nat, lead: Event)
    requires Earliest(lead, a) && lead.block <= mid
    requires forall e :: e in b ==> e.block > mid
    ensures Earliest(lead, a + b)
  {
  }

  /** Later events neither replace the earliest transaction nor add to its amounts. */
  lemma LaterEventsIgnored(a: seq<Event>, b: seq<Event>, mid: nat, r: Outcome)
    requires Coherent(a + b) && a != [] && Answers(a, r)
    requires forall e :: e in a ==> e.block <= mid
    requires forall e :: e in b ==> e.block > mid
    ensures Answers(a + b, r)
  {
    if r.Err? {
      var lead :| Earliest(lead, a) && (|SettledOf(a, lead.txHash)| >= 2 || RecoveredOf(a, lead.txHash) >= U256_LIMIT);
      LaterTotals(a, b, mid, lead);
      LaterEarliest(a, b, mid, lead);
    } else {
      var s := r.value.value;
      var lead :| Earliest(lead, a) && s.txHash == lead.txHash && s.block == lead.block && s.blockHash == lead.blockHash && s.txIndex == lead.txIndex;
      LaterTotals(a, b, mid, lead);
      LaterEarliest(a, b, mid, lead);
    }
  }

  /** This payment's logs in the range are complete and as a chain would carry them. */
  ghost predicate Sound(chain: seq<Log>, payment: Address, token: Address, lo: nat, hi: nat) {
    AllComplete(MineBetween(chain, payment, lo, hi)) && Coherent(EventsOf(MineBetween(chain, payment, lo, hi), token))
  }

  lemma CompleteConcat(a: seq<Log>, b: seq<Log>)
    ensures AllComplete(a + b) <==> AllComplete(a) && AllComplete(b)
  {
    assert forall i :: 0 <= i < |a| ==> a[i] == (a + b)[i];
    assert forall i :: 0 <= i < |b| ==> b[i] == (a + b)[|a| + i];
  }

  lemma CoherentPart(part: seq<Event>, events: seq<Event>)
    requires Coherent(events) && forall e :: e in part ==> e in events
    ensures Coherent(part)
  {
  }

  lemma CoherentParts(a: seq<Event>, b: seq<Event>, whole: seq<Event>)
    requires Coherent(whole) && multiset(a + b) == multiset(whole)
    ensures Coherent(a) && Coherent(b) && Coherent(a + b)
  {
    SameMembers(a + b, whole);
    CoherentPart(a + b, whole);
    CoherentPart(a, a + b);
    CoherentPart(b, a + b);
  }

  lemma LogsCut(x: seq<Log>, y: seq<Log>, whole: seq<Log>, token: Address)
    requires multiset(whole) == multiset(x + y) && AllComplete(whole)
    ensures AllComplete(x) && AllComplete(y)
    ensures multiset(EventsOf(x, token) + EventsOf(y, token)) == multiset(EventsOf(whole, token))
  {
    CompletePermutes(whole, x + y);
    CompleteConcat(x, y);
    EventsOfConcat(x, y, token);
    EventsPermute(x + y, whole, token);
  }

  /** The events of a range are those of its two parts. */
  lemma EventsCut(chain: seq<Log>, payment: Address, token: Address, lo: nat, mid: nat, hi: nat)
    requires lo <= mid <= hi && Sound(chain, payment, token, lo, hi)
    ensures Sound(chain, payment, token, lo, mid) && Sound(chain, payment, token, mid + 1, hi)
    ensures var a, b := EventsOf(MineBetween(chain, payment, lo, mid), token), EventsOf(MineBetween(chain, payment, mid + 1, hi), token);
            Coherent(a + b) && multiset(a + b) == multiset(EventsOf(MineBetween(chain, payment, lo, hi), token))
  {
    var x, y := MineBetween(chain, payment, lo, mid), MineBetween(chain, payment, mid + 1, hi);
    var whole := MineBetween(chain, payment, lo, hi);
    MineCut(chain, payment, lo, mid, hi);
    LogsCut(x, y, whole, token);
    CoherentParts(EventsOf(x, token), EventsOf(y, token), EventsOf(whole, token));
  }

  /** The first search that finds something wins. */
  function OrElse(r: Outcome, q: Outcome): Outcome {
    if r == Ok(None) then q else r
  }

  /** Searching a range is searching its first part and, if that holds nothing, the rest. */
  lemma CutRange(chain: seq<Log>, payment: Address, token: Address, lo: nat, mid: nat, hi: nat)
    requires lo <= mid <= hi && Sound(chain, payment, token, lo, hi)
    ensures Search(Between(chain, lo, hi), payment, token)
         == OrElse(Search(Between(chain, lo, mid), payment, token), Search(Between(chain, mid + 1, hi), payment, token))
  {
    EventsCut(chain, payment, token, lo, mid, hi);
    var a, b := EventsOf(MineBetween(chain, payment, lo, mid), token), EventsOf(MineBetween(chain, payment, mid + 1, hi), token);
    var whole := EventsOf(MineBetween(chain, payment, lo, hi), token);
    var r := Search(Between(chain, lo, hi), payment, token);
    SearchMeans(Between(chain, lo, hi), payment, token);
    SearchMeans(Between(chain, lo, mid), payment, token);
    SearchMeans(Between(chain, mid + 1, hi), payment, token);
    var q := OrElse(Search(Between(chain, lo, mid), payment, token), Search(Between(chain, mid + 1, hi), payment, token));
    FirstPartDecides(a, b, mid, Search(Between(chain, lo, mid), payment, token), Search(Between(chain, mid + 1, hi), payment, token)) by {
      MineBlocks(chain, payment, token, lo, mid);
      MineBlocks(chain, payment, token, mid + 1, hi);
    }
    AnswersPermute(a + b, whole, q);
    AnswersUnique(whole, r, q);
  }

  lemma FirstPartDecides(a: seq<Event>, b: seq<Event>, mid: nat, r: Outcome, q: Outcome)
    requires Coherent(a + b) && Answers(a, r) && Answers(b, q)
    requires forall e :: e in a ==> e.block <= mid
    requires forall e :: e in b ==> e.block > mid
    ensures Answers(a + b, OrElse(r, q))
  {
    if a == [] {
      assert a + b == b;
      assert r == Ok(None);
    } else {
      assert r != Ok(None);
      LaterEventsIgnored(a, b, mid, r);
    }
  }

  /**
   * Without that, the two can differ in one way only: the first part alone finds a
   * settlement while a log past it is malformed, which fails the undivided search.
   */
  lemma CutRangeExactly(chain: seq<Log>, payment: Address, token: Address, lo: nat, mid: nat, hi: nat)
    requires lo <= mid <= hi && Mined(Between(chain, lo, hi), payment, token)
    ensures var first := Search(Between(chain, lo, mid), payment, token);
            Search(Between(chain, lo, hi), payment, token) == OrElse(first, Search(Between(chain, mid + 1, hi), payment, token))
            <==> !(first.Ok? && first.value.Some? && !AllComplete(MineBetween(chain, payment, mid + 1, hi)))
  {
    var x, y := MineBetween(chain, payment, lo, mid), MineBetween(chain, payment, mid + 1, hi);
    var whole := MineBetween(chain, payment, lo, hi);
    MineCut(chain, payment, lo, mid, hi);
    CompleteConcat(x, y);
    if AllComplete(whole) {
      CompletePermutes(whole, x + y);
      CutRange(chain, payment, token, lo, mid, hi);
    } else if AllComplete(x) && AllComplete(y) {
      CompletePermutes(x + y, whole);
    }
  }

  lemma EmptyBetween(chain: seq<Log>, lo: nat, hi: nat)
    requires lo > hi
    ensures Between(chain, lo, hi) == []
  {
    FilterNone(chain, InBlocks(lo, hi));
  }
}
