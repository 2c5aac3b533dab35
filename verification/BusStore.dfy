/**
 * The client operations of crates/gum-bus against the tables, in place: each
 * method runs its SQL statement, says which columns it reads and writes, and is
 * proved to do what the step system of module Bus says that statement does.
 */
module BusStore {
  import opened Prelude
  import opened BusContracts
  import opened Bus
  import opened BusInvariant
  import opened BusRuns

  datatype PublishOutcome = Published(id: MessageId) | Duplicate(id: MessageId) | ConflictingPayload(id: MessageId)

  datatype Disposition = Retry(availableAt: Time) | DeadLettered

  lemma {:induction false} OldestExists(slots: set<Slot>, log: map<MessageId, Logged>)
    requires slots != {} && forall k :: k in slots ==> k.id in log
    ensures exists k :: k in slots && forall j :: j in slots ==> log[k.id].publishedAt <= log[j.id].publishedAt
  {
    var x :| x in slots;
    var rest := slots - {x};
    assert forall j :: j in slots ==> j == x || j in rest;
    if rest == {} {
      assert forall j :: j in slots ==> log[x.id].publishedAt <= log[j.id].publishedAt;
    } else {
      OldestExists(rest, log);
      var k :| k in rest && forall j :: j in rest ==> log[k.id].publishedAt <= log[j.id].publishedAt;
      var m := if log[x.id].publishedAt <= log[k.id].publishedAt then x else k;
      assert m in slots && forall j :: j in slots ==> log[m.id].publishedAt <= log[j.id].publishedAt;
    }
  }

  /** ORDER BY published_at LIMIT: the oldest candidates, up to a limit. */
  method Oldest(candidates: set<Slot>, log: map<MessageId, Logged>, limit: nat) returns (slots: seq<Slot>)
    requires forall k :: k in candidates ==> k.id in log
    ensures |slots| <= limit && Distinct(slots)
    ensures forall i :: 0 <= i < |slots| ==> slots[i] in candidates
    ensures forall i, j :: 0 <= i < j < |slots| ==> log[slots[i].id].publishedAt <= log[slots[j].id].publishedAt
    ensures forall k :: k in candidates && k !in slots ==>
                          |slots| == limit && forall i :: 0 <= i < |slots| ==> log[slots[i].id].publishedAt <= log[k.id].publishedAt
  {
    var left := candidates;
    slots := [];
    while |slots| < limit && left != {}
      invariant |slots| <= limit && left <= candidates && Distinct(slots)
      invariant forall i :: 0 <= i < |slots| ==> slots[i] in candidates && slots[i] !in left
      invariant forall k :: k in candidates ==> k in left || k in slots
      invariant forall i, j :: 0 <= i < j < |slots| ==> log[slots[i].id].publishedAt <= log[slots[j].id].publishedAt
      invariant forall i, k :: 0 <= i < |slots| && k in left ==> log[slots[i].id].publishedAt <= log[k.id].publishedAt
      decreases left
    {
      OldestExists(left, log);
      var slot :| slot in left && forall j :: j in left ==> log[slot.id].publishedAt <= log[j.id].publishedAt;
      slots := slots + [slot];
      left := left - {slot};
    }
  }

  class Store {
    const subscriptions: set<(string, Topic)>
    var log: map<MessageId, Logged>
    var rows: map<Slot, Row>

    constructor (subscriptions: set<(string, Topic)>)
      ensures this.subscriptions == subscriptions && log == map[] && rows == map[] && Valid()
    {
      this.subscriptions := subscriptions;
      log, rows := map[], map[];
    }

    /** One message per key, and one row per message and subscribed consumer. */
    ghost predicate Valid()
      reads this
    {
      && UniqueKeys(log)
      && (forall k :: k in rows <==> k.id in log && (k.consumer, log[k.id].topic) in subscriptions)
    }

    /** The unique index: the row with this topic and key, if there is one. */
    method FindKey(e: Logged) returns (found: Option<MessageId>)
      ensures found.Some? ==> found.value in log && SameKey(log[found.value], e)
      ensures found.None? ==> !HasKey(log, e)
    {
      var rest := log.Keys;
      while rest != {}
        invariant rest <= log.Keys
        invariant forall id :: id in log.Keys - rest ==> !SameKey(log[id], e)
        decreases rest
      {
        var id :| id in rest;
        if SameKey(log[id], e) {
          return Some(id);
        }
        rest := rest - {id};
      }
      return None;
    }

    /**
     * `Publisher::publish`: insert and fan out, or report the message that
     * already holds the key. Whatever the replay, the earlier message stands.
     */
    method Publish(m: Message, id: MessageId, schemaVersion: nat, parses: bool, now: Time)
      returns (outcome: PublishOutcome)
      requires Valid() && id !in log
      modifies this
      ensures Valid()
      ensures outcome.Published? <==> !HasKey(old(log), Entry(m, schemaVersion, parses, now))
      ensures outcome.Published? ==>
                && outcome.id == id
                && log == old(log)[id := Entry(m, schemaVersion, parses, now)]
                && (forall k :: k in rows <==> k in old(rows) || (k.id == id && (k.consumer, TopicOf(m)) in subscriptions))
                && (forall k :: k in rows ==> rows[k] == (if k in old(rows) then old(rows)[k] else Row(Pending, 0, now, None, None, None, None, None)))
      ensures !outcome.Published? ==>
                && log == old(log) && rows == old(rows)
                && outcome.id in log && SameKey(log[outcome.id], Entry(m, schemaVersion, parses, now))
                && (outcome.Duplicate? <==> log[outcome.id].hash == Sha256(m))
    {
      var e := Entry(m, schemaVersion, parses, now);
      var existing := FindKey(e);
      if existing.Some? {
        if log[existing.value].hash != e.hash {
          return ConflictingPayload(existing.value);
        }
        return Duplicate(existing.value);
      }
      ghost var before := rows;
      ghost var logBefore := log;
      log := log[id := e];
      var todo := subscriptions;
      while todo != {}
        invariant todo <= subscriptions && log == logBefore[id := e]
        invariant forall k :: k in rows <==> k in before ||
                                             (k.id == id && (k.consumer, e.topic) in subscriptions && (k.consumer, e.topic) !in todo)
        invariant forall k :: k in rows ==> rows[k] == (if k in before then before[k] else FreshRow(now))
        decreases todo
      {
        var sub :| sub in todo;
        if sub.1 == e.topic {
          rows := rows[Slot(id, sub.0) := FreshRow(now)];
        }
        todo := todo - {sub};
      }
      return Published(id);
    }

    /** Rows the claim statement's WHERE clause and SKIP LOCKED leave. */
    predicate Eligible(slot: Slot, consumer: string, topic: Topic, now: Time, locked: set<Slot>)
      reads this
    {
      && slot in rows && slot.id in log && slot.consumer == consumer && log[slot.id].topic == topic
      && Claimable(rows[slot], now) && slot !in locked
    }

    /**
     * `Consumer::claim`: lease the oldest eligible rows, up to the batch size,
     * each under its own fresh token. Eligible: pending, available, and under
     * no lease that has not run out.
     */
    method ClaimBatch(consumer: string, topic: Topic, now: Time, lease: nat, batchSize: nat, locked: set<Slot>,
                      tokens: seq<Token>) returns (picks: seq<Pick>)
      requires Valid() && |tokens| == batchSize
      modifies this`rows
      ensures Valid() && |picks| <= batchSize
      ensures forall k :: k in old(rows) ==>
                            (old(Eligible(k, consumer, topic, now, locked)) <==>
                             && k.consumer == consumer && log[k.id].topic == topic && k !in locked
                             && old(rows)[k].state == Pending && old(rows)[k].availableAt <= now
                             && (old(rows)[k].leasedUntil == None || old(rows)[k].leasedUntil.value < now))
      ensures forall i :: 0 <= i < |picks| ==>
                            picks[i].token == tokens[i] && picks[i].slot in old(rows) && old(Eligible(picks[i].slot, consumer, topic, now, locked))
      ensures forall i, j :: 0 <= i < j < |picks| ==>
                               picks[i].slot != picks[j].slot && log[picks[i].slot.id].publishedAt <= log[picks[j].slot.id].publishedAt
      ensures forall k :: k in old(rows) && old(Eligible(k, consumer, topic, now, locked)) && TokenFor(picks, k).None? ==>
                            |picks| == batchSize &&
                            forall i :: 0 <= i < |picks| ==> log[picks[i].slot.id].publishedAt <= log[k.id].publishedAt
      ensures rows.Keys == old(rows).Keys
      ensures forall k :: k in rows ==>
                            rows[k] == (if TokenFor(picks, k).Some?
                                        then old(rows)[k].(leaseToken := TokenFor(picks, k), leasedUntil := Some(now + lease),
                                                           attemptCount := old(rows)[k].attemptCount + 1, lastAttemptAt := Some(now))
                                        else old(rows)[k])
      ensures forall k :: k in rows && TokenFor(picks, k).Some? ==>
                            rows[k] == ClaimRow(old(rows)[k], TokenFor(picks, k).value, now, lease)
    {
      var candidates := set k | k in rows && Eligible(k, consumer, topic, now, locked);
      var slots := Oldest(candidates, log, batchSize);
      picks := LeaseAll(slots, tokens[..|slots|], now, lease);
      forall k | TokenFor(picks, k).None?
        ensures k !in slots
      {
        TokenForAbsent(picks, k);
        assert forall i :: 0 <= i < |slots| ==> picks[i].slot == slots[i];
      }
    }

    /** The UPDATE of the picked rows. */
    method LeaseAll(slots: seq<Slot>, tokens: seq<Token>, now: Time, lease: nat) returns (picks: seq<Pick>)
      requires |tokens| == |slots| && Distinct(slots) && forall i :: 0 <= i < |slots| ==> slots[i] in rows
      modifies this`rows
      ensures |picks| == |slots| && forall i :: 0 <= i < |slots| ==> picks[i] == Pick(slots[i], tokens[i])
      ensures rows.Keys == old(rows).Keys
      ensures forall k :: k in rows ==>
                            rows[k] == (if TokenFor(picks, k).Some?
                                        then ClaimRow(old(rows)[k], TokenFor(picks, k).value, now, lease) else old(rows)[k])
    {
      picks := [];
      for i := 0 to |slots|
        invariant |picks| == i && forall j :: 0 <= j < i ==> picks[j] == Pick(slots[j], tokens[j])
        invariant rows.Keys == old(rows).Keys
        invariant forall k :: k in rows ==>
                                rows[k] == (if TokenFor(picks, k).Some?
                                            then ClaimRow(old(rows)[k], TokenFor(picks, k).value, now, lease) else old(rows)[k])
      {
        TokenForAbsent(picks, slots[i]);
        rows := rows[slots[i] := ClaimRow(rows[slots[i]], tokens[i], now, lease)];
        forall k
          ensures TokenFor(picks + [Pick(slots[i], tokens[i])], k) ==
                  (if TokenFor(picks, k).None? && k == slots[i] then Some(tokens[i]) else TokenFor(picks, k))
        {
          TokenForAppend(picks, Pick(slots[i], tokens[i]), k);
        }
        picks := picks + [Pick(slots[i], tokens[i])];
      }
    }

    /** `Consumer::ack`: true exactly when this lease still owns the row; else nothing changes. */
    method Ack(d: Delivery, at: Time) returns (ok: bool)
      requires Valid() && d.slot in rows
      modifies this`rows
      ensures Valid()
      ensures ok <==> old(rows)[d.slot].leaseToken == Some(d.token) && old(rows)[d.slot].state == Pending
      ensures rows == (if ok then old(rows)[d.slot := old(rows)[d.slot].(state := Done, doneAt := Some(at), leaseToken := None,
                                                                         leasedUntil := None, lastError := None)]
                       else old(rows))
      ensures ok ==> rows[d.slot] == AckRow(old(rows)[d.slot], at)
    {
      ok := rows[d.slot].leaseToken == Some(d.token) && rows[d.slot].state == Pending;
      if ok {
        rows := rows[d.slot := AckRow(rows[d.slot], at)];
      }
    }

    /** `Consumer::park_dead`. */
    method ParkDead(slot: Slot, token: Token, error: string)
      requires Valid() && slot in rows
      modifies this`rows
      ensures Valid()
      ensures rows == (if old(rows)[slot].leaseToken == Some(token) && old(rows)[slot].state == Pending
                       then old(rows)[slot := old(rows)[slot].(state := Dead, leaseToken := None, leasedUntil := None, lastError := Some(error))]
                       else old(rows))
      ensures rows[slot] == ParkRow(old(rows)[slot], token, error)
    {
      if rows[slot].leaseToken == Some(token) && rows[slot].state == Pending {
        rows := rows[slot := rows[slot].(state := Dead, leaseToken := None, leasedUntil := None, lastError := Some(error))];
      }
    }

    /** `Consumer::fail`: park the last or a permanent failure, reschedule any other. */
    method Fail(maxAttempts: nat, d: Delivery, permanent: bool, now: Time, delay: nat, error: string)
      returns (disposition: Disposition)
      requires Valid() && d.slot in rows
      modifies this`rows
      ensures Valid()
      ensures disposition.DeadLettered? <==> permanent || d.attempt >= maxAttempts
      ensures var row := old(rows)[d.slot];
              if row.leaseToken == Some(d.token) && row.state == Pending
              then rows == old(rows)[d.slot := row.(leaseToken := None, leasedUntil := None, lastError := Some(error),
                                                    state := if disposition.DeadLettered? then Dead else Pending,
                                                    availableAt := if disposition.DeadLettered? then row.availableAt else now + delay)]
              else rows == old(rows)
      ensures rows[d.slot] == FailRow(maxAttempts, old(rows)[d.slot], d, permanent, now + delay, error)
      ensures disposition.Retry? ==>
                disposition.availableAt ==
                (if old(rows)[d.slot].leaseToken == Some(d.token) && old(rows)[d.slot].state == Pending then now + delay else now)
    {
      if permanent || d.attempt >= maxAttempts {
        ParkDead(d.slot, d.token, error);
        return DeadLettered;
      }
      if rows[d.slot].leaseToken == Some(d.token) && rows[d.slot].state == Pending {
        rows := rows[d.slot := rows[d.slot].(availableAt := now + delay, leaseToken := None, leasedUntil := None, lastError := Some(error))];
        return Retry(now + delay);
      }
      return Retry(now);
    }

    /** `Consumer::retry_dead`: true exactly when the delivery was dead. */
    method RetryDead(slot: Slot, now: Time) returns (revived: bool)
      requires Valid()
      modifies this`rows
      ensures Valid()
      ensures revived <==> slot in old(rows) && old(rows)[slot].state == Dead
      ensures rows == (if revived then old(rows)[slot := old(rows)[slot].(state := Pending, attemptCount := 0, availableAt := now, lastError := None)]
                       else old(rows))
      ensures slot in rows ==> rows[slot] == ReviveRow(old(rows)[slot], now)
    {
      revived := slot in rows && rows[slot].state == Dead;
      if revived {
        rows := rows[slot := rows[slot].(state := Pending, attemptCount := 0, availableAt := now, lastError := None)];
      }
    }
  }

  lemma {:induction false} TokenForAppend(picks: seq<Pick>, p: Pick, k: Slot)
    ensures TokenFor(picks + [p], k) == (if TokenFor(picks, k).None? && k == p.slot then Some(p.token) else TokenFor(picks, k))
  {
    if picks == [] {
      assert picks + [p] == [p];
      assert [p][1..] == [];
      assert TokenFor([p], k) == (if p.slot == k then Some(p.token) else TokenFor([p][1..], k));
    } else {
      assert (picks + [p])[1..] == picks[1..] + [p];
      TokenForAppend(picks[1..], p, k);
    }
  }
}
