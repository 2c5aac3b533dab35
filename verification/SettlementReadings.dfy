/** The answer of a settlement search in terms of its logs' own fields. */
module SettlementReadings {
  import opened Prelude
  import opened Sorting
  import opened Settlement

  /** An event of this payment that a reorganisation did not remove. */
  predicate Ours(log: Log, payment: Address) {
    !log.removed && log.emitter == payment && (log.topic == Some(SettledSig) || log.topic == Some(RecoveredSig))
  }

  /** It decodes, and nothing that mining gives it is missing. */
  predicate Whole(log: Log) {
    log.body.Some? && log.txHash.Some? && log.block.Some? && log.blockHash.Some? && log.txIndex.Some?
  }

  /** A settlement, or a recovery of the token asked about. */
  predicate Counts(log: Log, payment: Address, token: Address) {
    Ours(log, payment) && Whole(log) && (log.topic == Some(SettledSig) || log.body.value.token == token)
  }

  ghost predicate AllWhole(logs: seq<Log>, payment: Address) {
    forall i :: 0 <= i < |logs| && Ours(logs[i], payment) ==> Whole(logs[i])
  }

  /** Mined logs: hash and place name the same transaction, which is in one block. */
  ghost predicate SameChain(logs: seq<Log>, payment: Address, token: Address) {
    forall i, j :: 0 <= i < |logs| && 0 <= j < |logs| && Counts(logs[i], payment, token) && Counts(logs[j], payment, token) ==>
      && (logs[i].txHash == logs[j].txHash <==> logs[i].block == logs[j].block && logs[i].txIndex == logs[j].txIndex)
      && (logs[i].txHash == logs[j].txHash ==> logs[i].blockHash == logs[j].blockHash)
  }

  /** The log at `i` counts, and none that counts is in an earlier transaction. */
  ghost predicate Leads(logs: seq<Log>, payment: Address, token: Address, i: int) {
    && 0 <= i < |logs| && Counts(logs[i], payment, token)
    && forall j :: 0 <= j < |logs| && Counts(logs[j], payment, token) ==>
         || logs[i].block.value < logs[j].block.value
         || (logs[i].block.value == logs[j].block.value && logs[i].txIndex.value <= logs[j].txIndex.value)
  }

  /** The amounts a transaction settled, in the order returned. */
  function SettledIn(logs: seq<Log>, payment: Address, hash: Hash): seq<nat> {
    if logs == [] then []
    else
      var log := logs[0];
      (if Ours(log, payment) && log.topic == Some(SettledSig) && log.txHash == Some(hash) && log.body.Some? then [log.body.value.amount] else [])
      + SettledIn(logs[1..], payment, hash)
  }

  /** What a transaction recovered of the token, in all. */
  function RecoveredIn(logs: seq<Log>, payment: Address, token: Address, hash: Hash): nat {
    if logs == [] then 0
    else
      var log := logs[0];
      (if Ours(log, payment) && log.topic == Some(RecoveredSig) && log.txHash == Some(hash) && log.body.Some? && log.body.value.token == token
       then log.body.value.amount else 0)
      + RecoveredIn(logs[1..], payment, token, hash)
  }

  /** A second settlement, or more recovered than a 256-bit integer holds. */
  predicate Excess(logs: seq<Log>, payment: Address, token: Address, hash: Hash) {
    |SettledIn(logs, payment, hash)| >= 2 || RecoveredIn(logs, payment, token, hash) >= U256_LIMIT
  }

  /** A log of the transaction that was found. */
  predicate IsOf(log: Log, s: SettlementEvent) {
    log.txHash == Some(s.txHash) && log.block == Some(s.block) && log.blockHash == Some(s.blockHash) && log.txIndex == Some(s.txIndex)
  }

  /** What the logs say: nothing to trust, no settlement, a malformed one, or the earliest transaction and its amounts. */
  ghost predicate Says(logs: seq<Log>, payment: Address, token: Address, r: Outcome) {
    if !AllWhole(logs, payment) then r == Err(Transient(Malformed))
    else match r
      case Err(e) =>
        && e == Transient(Malformed)
        && exists i :: Leads(logs, payment, token, i) && Excess(logs, payment, token, logs[i].txHash.value)
      case Ok(None) => forall i :: 0 <= i < |logs| ==> !Counts(logs[i], payment, token)
      case Ok(Some(s)) =>
        && (exists i :: Leads(logs, payment, token, i) && IsOf(logs[i], s))
        && SettledIn(logs, payment, s.txHash) == (if s.settled.Some? then [s.settled.value] else [])
        && RecoveredIn(logs, payment, token, s.txHash) == s.recovered < U256_LIMIT
  }

  // ------------------------------------------------------------ events are the logs that count

  lemma MineFirst(logs: seq<Log>, payment: Address)
    requires logs != []
    ensures var mine, rest := Mine(logs, payment), Mine(logs[1..], payment);
            if Ours(logs[0], payment) then mine != [] && mine[0] == logs[0] && mine[1..] == rest else mine == rest
    ensures AllComplete(Mine(logs, payment)) ==> AllComplete(Mine(logs[1..], payment))
  {
    var mine, rest := Mine(logs, payment), Mine(logs[1..], payment);
    assert mine == (if Ours(logs[0], payment) then [logs[0]] else []) + rest;
    assert forall i :: 0 <= i < |rest| ==> rest[i] == mine[i + |mine| - |rest|];
  }

  lemma {:induction false} CompleteIsWhole(logs: seq<Log>, payment: Address)
    ensures AllComplete(Mine(logs, payment)) <==> AllWhole(logs, payment)
  {
    FilterMembers(logs, ByPayment(payment));
    var mine := Mine(logs, payment);
    if AllComplete(mine) {
      forall i | 0 <= i < |logs| && Ours(logs[i], payment)
        ensures Whole(logs[i])
      {
        assert logs[i] in mine;
      }
    }
    if AllWhole(logs, payment) {
      forall k | 0 <= k < |mine|
        ensures Complete(mine[k])
      {
        assert mine[k] in mine && mine[k] in logs;
      }
    }
  }

  /** The event a log that counts reports. */
  predicate Reports(log: Log, e: Event) {
    && log.txHash == Some(e.txHash) && log.block == Some(e.block) && log.blockHash == Some(e.blockHash) && log.txIndex == Some(e.txIndex)
    && log.body.Some? && e.amount == (if log.topic == Some(SettledSig) then SettledAmount(log.body.value.amount) else RecoveredAmount(log.body.value.amount))
  }

  lemma {:induction false} AmountsIn(logs: seq<Log>, payment: Address, token: Address, hash: Hash)
    requires AllComplete(Mine(logs, payment))
    ensures SettledOf(EventsOf(Mine(logs, payment), token), hash) == SettledIn(logs, payment, hash)
    ensures RecoveredOf(EventsOf(Mine(logs, payment), token), hash) == RecoveredIn(logs, payment, token, hash)
  {
    if logs != [] {
      MineFirst(logs, payment);
      AmountsIn(logs[1..], payment, token, hash);
      if Ours(logs[0], payment) {
        FirstAmount(Mine(logs, payment), token, hash);
      }
    }
  }

  lemma FirstAmount(mine: seq<Log>, token: Address, hash: Hash)
    requires mine != [] && AllComplete(mine) && AllComplete(mine[1..])
    ensures SettledOf(EventsOf(mine, token), hash) ==
            (if !Foreign(mine[0], token) && mine[0].txHash.value == hash && mine[0].topic.value.SettledSig? then [mine[0].body.value.amount] else [])
            + SettledOf(EventsOf(mine[1..], token), hash)
    ensures RecoveredOf(EventsOf(mine, token), hash) ==
            (if !Foreign(mine[0], token) && mine[0].txHash.value == hash && !mine[0].topic.value.SettledSig? then mine[0].body.value.amount else 0)
            + RecoveredOf(EventsOf(mine[1..], token), hash)
  {
    var rest := EventsOf(mine[1..], token);
    if Foreign(mine[0], token) {
      assert EventsOf(mine, token) == rest;
    } else {
      var all := EventsOf(mine, token);
      assert all == [EventOf(mine[0])] + rest;
      assert all[0] == EventOf(mine[0]) && all[1..] == rest;
    }
  }

  lemma EventsAreLogs(logs: seq<Log>, payment: Address, token: Address)
    requires AllComplete(Mine(logs, payment))
    ensures forall e :: e in EventsOf(Mine(logs, payment), token) <==> exists i :: 0 <= i < |logs| && Counts(logs[i], payment, token) && Reports(logs[i], e)
  {
    var mine := Mine(logs, payment);
    FilterMembers(logs, ByPayment(payment));
    EventsMembers(mine, token);
    forall e | e in EventsOf(mine, token)
      ensures exists i :: 0 <= i < |logs| && Counts(logs[i], payment, token) && Reports(logs[i], e)
    {
      var log :| log in mine && Complete(log) && !Foreign(log, token) && EventOf(log) == e;
      var i :| 0 <= i < |logs| && logs[i] == log;
    }
    forall e, i | 0 <= i < |logs| && Counts(logs[i], payment, token) && Reports(logs[i], e)
      ensures e in EventsOf(mine, token)
    {
      assert logs[i] in mine && !Foreign(logs[i], token) && EventOf(logs[i]) == e;
    }
  }

  // ------------------------------------------------------------ the search in raw fields

  lemma ChainIsCoherent(logs: seq<Log>, payment: Address, token: Address)
    requires AllComplete(Mine(logs, payment))
    ensures SameChain(logs, payment, token) ==> Coherent(EventsOf(Mine(logs, payment), token))
  {
    var events := EventsOf(Mine(logs, payment), token);
    EventsAreLogs(logs, payment, token);
    if SameChain(logs, payment, token) {
      forall x, y | x in events && y in events
        ensures (x.txHash == y.txHash <==> SameTx(x, y)) && (x.txHash == y.txHash ==> x.blockHash == y.blockHash)
      {
        var i :| 0 <= i < |logs| && Counts(logs[i], payment, token) && Reports(logs[i], x);
        var j :| 0 <= j < |logs| && Counts(logs[j], payment, token) && Reports(logs[j], y);
      }
    }
  }

  lemma LeadIsEarliest(logs: seq<Log>, payment: Address, token: Address, i: int, e: Event)
    requires AllComplete(Mine(logs, payment)) && 0 <= i < |logs| && Counts(logs[i], payment, token) && Reports(logs[i], e)
    ensures Leads(logs, payment, token, i) <==> Earliest(e, EventsOf(Mine(logs, payment), token))
  {
    var events := EventsOf(Mine(logs, payment), token);
    EventsAreLogs(logs, payment, token);
    if Leads(logs, payment, token, i) {
      forall x | x in events
        ensures NotLater(e, x)
      {
        var j :| 0 <= j < |logs| && Counts(logs[j], payment, token) && Reports(logs[j], x);
      }
    }
    if Earliest(e, events) {
      forall j | 0 <= j < |logs| && Counts(logs[j], payment, token)
        ensures || logs[i].block.value < logs[j].block.value
                || (logs[i].block.value == logs[j].block.value && logs[i].txIndex.value <= logs[j].txIndex.value)
      {
        var x := EventOf(logs[j]);
        assert Reports(logs[j], x) && x in events && NotLater(e, x);
      }
    }
  }

  lemma ListOfBag<T>(s: seq<T>, v: Option<T>)
    ensures multiset(s) == Bag(v) <==> s == (if v.Some? then [v.value] else [])
  {
    if multiset(s) == Bag(v) {
      AtMostOne(s, v);
      assert |s| == |multiset(s)|;
      if v.Some? {
        assert v.value in multiset(s);
        assert s == [s[0]];
      }
    }
  }

  lemma AnswerSays(logs: seq<Log>, payment: Address, token: Address, r: Outcome)
    requires AllComplete(Mine(logs, payment)) && (r.Err? ==> r == Err(Transient(Malformed)))
    ensures Answers(EventsOf(Mine(logs, payment), token), r) <==> Says(logs, payment, token, r)
  {
    CompleteIsWhole(logs, payment);
    if r.Err? {
      RefusalSays(logs, payment, token);
    } else if r.value.None? {
      EmptySays(logs, payment, token);
    } else {
      FoundSays(logs, payment, token, r.value.value);
    }
  }

  lemma EmptySays(logs: seq<Log>, payment: Address, token: Address)
    requires AllComplete(Mine(logs, payment))
    ensures EventsOf(Mine(logs, payment), token) == [] <==> forall i :: 0 <= i < |logs| ==> !Counts(logs[i], payment, token)
  {
    var events := EventsOf(Mine(logs, payment), token);
    EventsAreLogs(logs, payment, token);
    if events != [] {
      assert events[0] in events;
    }
    forall i | 0 <= i < |logs| && Counts(logs[i], payment, token)
      ensures events != []
    {
      assert Reports(logs[i], EventOf(logs[i])) && EventOf(logs[i]) in events;
    }
  }

  lemma LogOfLead(logs: seq<Log>, payment: Address, token: Address, lead: Event) returns (i: int)
    requires AllComplete(Mine(logs, payment)) && Earliest(lead, EventsOf(Mine(logs, payment), token))
    ensures Leads(logs, payment, token, i) && Reports(logs[i], lead)
  {
    EventsAreLogs(logs, payment, token);
    i :| 0 <= i < |logs| && Counts(logs[i], payment, token) && Reports(logs[i], lead);
    LeadIsEarliest(logs, payment, token, i, lead);
  }

  lemma LeadOfLog(logs: seq<Log>, payment: Address, token: Address, i: int) returns (lead: Event)
    requires AllComplete(Mine(logs, payment)) && Leads(logs, payment, token, i)
    ensures Earliest(lead, EventsOf(Mine(logs, payment), token)) && Reports(logs[i], lead)
  {
    lead := EventOf(logs[i]);
    LeadIsEarliest(logs, payment, token, i, lead);
  }

  lemma RefusalSays(logs: seq<Log>, payment: Address, token: Address)
    requires AllComplete(Mine(logs, payment)) && AllWhole(logs, payment)
    ensures Answers(EventsOf(Mine(logs, payment), token), Err(Transient(Malformed))) <==> Says(logs, payment, token, Err(Transient(Malformed)))
  {
    var events := EventsOf(Mine(logs, payment), token);
    if lead :| Earliest(lead, events) && (|SettledOf(events, lead.txHash)| >= 2 || RecoveredOf(events, lead.txHash) >= U256_LIMIT) {
      var i := LogOfLead(logs, payment, token, lead);
      AmountsIn(logs, payment, token, lead.txHash);
    }
    if i :| Leads(logs, payment, token, i) && Excess(logs, payment, token, logs[i].txHash.value) {
      var lead := LeadOfLog(logs, payment, token, i);
      AmountsIn(logs, payment, token, lead.txHash);
    }
  }

  /** The event is of the transaction that was found. */
  predicate EventIsOf(e: Event, s: SettlementEvent) {
    s.txHash == e.txHash && s.block == e.block && s.blockHash == e.blockHash && s.txIndex == e.txIndex
  }

  lemma SameLead(logs: seq<Log>, payment: Address, token: Address, s: SettlementEvent)
    requires AllComplete(Mine(logs, payment))
    ensures (exists lead :: Earliest(lead, EventsOf(Mine(logs, payment), token)) && EventIsOf(lead, s))
       <==> (exists i :: Leads(logs, payment, token, i) && IsOf(logs[i], s))
  {
    if lead :| Earliest(lead, EventsOf(Mine(logs, payment), token)) && EventIsOf(lead, s) {
      var i := LogOfLead(logs, payment, token, lead);
    }
    if i :| Leads(logs, payment, token, i) && IsOf(logs[i], s) {
      var lead := LeadOfLog(logs, payment, token, i);
    }
  }

  lemma LeadNamed(events: seq<Event>, s: SettlementEvent)
    ensures (exists lead :: Earliest(lead, events) && EventIsOf(lead, s)) <==>
            (exists lead :: Earliest(lead, events) && s.txHash == lead.txHash && s.block == lead.block && s.blockHash == lead.blockHash && s.txIndex == lead.txIndex)
  {
  }

  lemma FoundMeans(events: seq<Event>, s: SettlementEvent)
    ensures Answers(events, Ok(Some(s))) <==>
            && (exists lead :: Earliest(lead, events) && EventIsOf(lead, s))
            && SettledOf(events, s.txHash) == (if s.settled.Some? then [s.settled.value] else [])
            && RecoveredOf(events, s.txHash) == s.recovered < U256_LIMIT
  {
    LeadNamed(events, s);
    ListOfBag(SettledOf(events, s.txHash), s.settled);
  }

  lemma FoundSays(logs: seq<Log>, payment: Address, token: Address, s: SettlementEvent)
    requires AllComplete(Mine(logs, payment)) && AllWhole(logs, payment)
    ensures Answers(EventsOf(Mine(logs, payment), token), Ok(Some(s))) <==> Says(logs, payment, token, Ok(Some(s)))
  {
    FoundMeans(EventsOf(Mine(logs, payment), token), s);
    AmountsIn(logs, payment, token, s.txHash);
    SameLead(logs, payment, token, s);
  }

  /** The search returns exactly what the logs of a chain say, in whatever order they came. */
  lemma SearchExactly(logs: seq<Log>, payment: Address, token: Address, r: Outcome)
    requires SameChain(logs, payment, token)
    ensures Search(logs, payment, token) == r <==> Says(logs, payment, token, r)
  {
    CompleteIsWhole(logs, payment);
    if AllWhole(logs, payment) {
      var events, found := EventsOf(Mine(logs, payment), token), Search(logs, payment, token);
      ChainIsCoherent(logs, payment, token);
      SearchMeans(logs, payment, token);
      AnswerSays(logs, payment, token, found);
      if r.Err? ==> r == Err(Transient(Malformed)) {
        AnswerSays(logs, payment, token, r);
        if Answers(events, r) {
          AnswersUnique(events, r, found);
        }
      }
    }
  }
}
