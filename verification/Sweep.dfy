/** Decoding a batch-sweep receipt: `decode_sweep_outcomes` in crates/gum-chain/src/lib.rs. */
module Sweep {
  import opened Prelude

  type Address = nat

  datatype Topic = SweepFailedSig | SweepRecoveredSig | SettledSig | RecoveredSig | OtherSig

  /** The fields the four event decoders read; a log whose body does not decode has none. */
  datatype Body = Body(payment: Address, amount: nat, revertData: string)

  datatype Log = Log(emitter: Address, topic: Option<Topic>, body: Option<Body>)

  datatype SweepOutcome =
    | Settled(amount: nat, recoveredAmount: nat)
    | Recovered(amount: nat)
    | Collected(amount: nat)
    | Failed(revertData: string)

  datatype ChainError = Malformed(event: string) | Duplicate(event: string, address: Address) | Conflict(address: Address)

  // ------------------------------------------------------------ the declarative reading

  datatype Event = SettledEvent(amount: nat) | RecoveredEvent(amount: nat) | SweeperCollected(amount: nat) | SweeperFailed(revertData: string)

  predicate Relevant(log: Log, sweeper: Address) {
    && log.topic.Some?
    && (if log.emitter == sweeper then log.topic.value.SweepFailedSig? || log.topic.value.SweepRecoveredSig?
        else log.topic.value.SettledSig? || log.topic.value.RecoveredSig?)
  }

  /** The event a relevant log reports, and the payment address it is about. */
  function Reading(log: Log, sweeper: Address): (Address, Event)
    requires Relevant(log, sweeper) && log.body.Some?
  {
    match log.topic.value
    case SweepFailedSig => (log.body.value.payment, SweeperFailed(log.body.value.revertData))
    case SweepRecoveredSig => (log.body.value.payment, SweeperCollected(log.body.value.amount))
    case SettledSig => (log.emitter, SettledEvent(log.body.value.amount))
    case _ => (log.emitter, RecoveredEvent(log.body.value.amount))
  }

  /** A bag of events about one address, kept by kind. */
  datatype Bag = Bag(settled: multiset<nat>, recovered: multiset<nat>, collected: multiset<nat>, failed: multiset<string>)

  const EMPTY := Bag(multiset{}, multiset{}, multiset{}, multiset{})

  function Add(b: Bag, e: Event): Bag {
    match e
    case SettledEvent(amount) => b.(settled := b.settled + multiset{amount})
    case RecoveredEvent(amount) => b.(recovered := b.recovered + multiset{amount})
    case SweeperCollected(amount) => b.(collected := b.collected + multiset{amount})
    case SweeperFailed(data) => b.(failed := b.failed + multiset{data})
  }

  /** Whether a log says something about an address. */
  predicate Mentions(log: Log, sweeper: Address, a: Address) {
    Relevant(log, sweeper) && log.body.Some? && Reading(log, sweeper).0 == a
  }

  function Hear(b: Bag, log: Log, sweeper: Address, a: Address): Bag {
    if Mentions(log, sweeper, a) then Add(b, Reading(log, sweeper).1) else b
  }

  /** All a receipt says about one address. */
  function BagOf(logs: seq<Log>, sweeper: Address, a: Address): Bag {
    if logs == [] then EMPTY else Hear(BagOf(logs[..|logs| - 1], sweeper, a), logs[|logs| - 1], sweeper, a)
  }

  predicate AllDecode(logs: seq<Log>, sweeper: Address) {
    forall i :: 0 <= i < |logs| && Relevant(logs[i], sweeper) ==> logs[i].body.Some?
  }

  /** The six legal bags and the outcome each stands for. */
  ghost predicate Shape(b: Bag, o: SweepOutcome) {
    match o
    case Settled(amount, recovered) =>
      || (b == EMPTY.(settled := multiset{amount}) && recovered == 0)
      || b == EMPTY.(settled := multiset{amount}, recovered := multiset{recovered})
    case Recovered(amount) => b == EMPTY.(recovered := multiset{amount})
    case Collected(amount) =>
      || b == EMPTY.(collected := multiset{amount})
      || (b.collected == multiset{amount} && |b.recovered| == 1 && b.settled == multiset{} && b.failed == multiset{})
    case Failed(data) => b == EMPTY.(failed := multiset{data})
  }

  ghost predicate Legal(b: Bag) {
    exists o :: Shape(b, o)
  }

  ghost predicate Accepts(logs: seq<Log>, sweeper: Address) {
    AllDecode(logs, sweeper) && forall a :: BagOf(logs, sweeper, a) != EMPTY ==> Legal(BagOf(logs, sweeper, a))
  }

  /** The specification: accept exactly the legal receipts, and read each address off its bag. */
  ghost predicate IsDecoding(logs: seq<Log>, sweeper: Address, r: Result<map<Address, SweepOutcome>, ChainError>) {
    && (r.Ok? <==> Accepts(logs, sweeper))
    && (r.Ok? ==>
          && (forall a :: a in r.value <==> BagOf(logs, sweeper, a) != EMPTY)
          && (forall a :: a in r.value ==> Shape(BagOf(logs, sweeper, a), r.value[a])))
  }

  /** Why a receipt was refused: an event that does not decode, a class of event twice, or two that exclude each other. */
  ghost predicate Explains(logs: seq<Log>, sweeper: Address, error: ChainError) {
    match error
    case Malformed(_) => exists i :: 0 <= i < |logs| && Relevant(logs[i], sweeper) && logs[i].body.None?
    case Duplicate(_, a) => Clash(BagOf(logs, sweeper, a))
    case Conflict(a) =>
      && AllDecode(logs, sweeper) && (forall b :: !Clash(BagOf(logs, sweeper, b)))
      && BagOf(logs, sweeper, a) != EMPTY && !Legal(BagOf(logs, sweeper, a))
  }

  // ------------------------------------------------------------ the decoder

  datatype Pending = Pending(settled: Option<nat>, recovered: Option<nat>, sweeper: Option<SweepOutcome>)

  const NOTHING := Pending(None, None, None)

  function One<T>(v: Option<T>): multiset<T> {
    if v.Some? then multiset{v.value} else multiset{}
  }

  function PendingBag(p: Pending): Bag {
    Bag(One(p.settled), One(p.recovered),
        if p.sweeper.Some? && p.sweeper.value.Collected? then multiset{p.sweeper.value.amount} else multiset{},
        if p.sweeper.Some? && p.sweeper.value.Failed? then multiset{p.sweeper.value.revertData} else multiset{})
  }

  predicate WellFormed(p: Pending) {
    p.sweeper.Some? ==> p.sweeper.value.Failed? || p.sweeper.value.Collected?
  }

  /** Two events of one class, which no legal bag holds. */
  predicate Clash(b: Bag) {
    |b.settled| >= 2 || |b.recovered| >= 2 || |b.collected| + |b.failed| >= 2
  }

  lemma ClashIsIllegal(b: Bag)
    requires Clash(b)
    ensures !Legal(b) && b != EMPTY
  {
  }

  lemma {:induction false} ClashPersists(logs: seq<Log>, sweeper: Address, a: Address, n: nat)
    requires n <= |logs| && Clash(BagOf(logs[..n], sweeper, a))
    ensures Clash(BagOf(logs, sweeper, a))
    decreases |logs|
  {
    if n == |logs| {
      assert logs[..n] == logs;
    } else {
      assert logs[..|logs| - 1][..n] == logs[..n];
      ClashPersists(logs[..|logs| - 1], sweeper, a, n);
    }
  }

  /** Once an address has two events of a class, no continuation is accepted. */
  lemma ClashRejects(logs: seq<Log>, sweeper: Address, n: nat, a: Address)
    requires n <= |logs| && Clash(BagOf(logs[..n], sweeper, a))
    ensures !Accepts(logs, sweeper)
  {
    ClashPersists(logs, sweeper, a, n);
    ClashIsIllegal(BagOf(logs, sweeper, a));
  }

  /** The final per-address match. */
  function Conclude(p: Pending): Option<SweepOutcome> {
    if p.sweeper.Some? then
      if p.settled.Some? || (p.sweeper.value.Failed? && p.recovered.Some?) then None else p.sweeper
    else if p.settled.Some? then
      Some(Settled(p.settled.value, if p.recovered.Some? then p.recovered.value else 0))
    else if p.recovered.Some? then Some(Recovered(p.recovered.value))
    else None
  }

  lemma ShapeSizes(b: Bag, o: SweepOutcome)
    requires Shape(b, o)
    ensures |b.collected| + |b.failed| == 1 ==> |b.settled| == 0
    ensures |b.failed| == 1 ==> |b.recovered| == 0
  {
  }

  lemma ConcludeIsShape(p: Pending)
    requires WellFormed(p) && PendingBag(p) != EMPTY
    ensures Conclude(p).Some? <==> Legal(PendingBag(p))
    ensures Conclude(p).Some? ==> Shape(PendingBag(p), Conclude(p).value)
  {
    var b := PendingBag(p);
    if Conclude(p).Some? {
      assert Shape(b, Conclude(p).value);
    } else if Legal(b) {
      var o :| Shape(b, o);
      ShapeSizes(b, o);
    }
  }

  /** One decoded event entered under its address, unless its place is taken. */
  function Enter(p: Pending, e: Event): Option<Pending> {
    match e
    case SettledEvent(amount) => if p.settled.Some? then None else Some(p.(settled := Some(amount)))
    case RecoveredEvent(amount) => if p.recovered.Some? then None else Some(p.(recovered := Some(amount)))
    case SweeperCollected(amount) => if p.sweeper.Some? then None else Some(p.(sweeper := Some(Collected(amount))))
    case SweeperFailed(data) => if p.sweeper.Some? then None else Some(p.(sweeper := Some(Failed(data))))
  }

  lemma EnterTaken(p: Pending, e: Event)
    requires WellFormed(p) && Enter(p, e).None?
    ensures Clash(Add(PendingBag(p), e))
  {
    var b := PendingBag(p);
    match e {
      case SettledEvent(_) => assert |b.settled| == 1;
      case RecoveredEvent(_) => assert |b.recovered| == 1;
      case _ => assert |b.collected| + |b.failed| == 1;
    }
  }

  lemma EnterPaymentEvent(p: Pending, e: Event)
    requires (e.SettledEvent? && p.settled.None?) || (e.RecoveredEvent? && p.recovered.None?)
    ensures PendingBag(Enter(p, e).value) == Add(PendingBag(p), e)
  {
    assert multiset{} + multiset{e.amount} == multiset{e.amount};
  }

  lemma EnterSweeperEvent(p: Pending, e: Event)
    requires (e.SweeperCollected? || e.SweeperFailed?) && p.sweeper.None?
    ensures PendingBag(Enter(p, e).value) == Add(PendingBag(p), e)
  {
    if e.SweeperCollected? {
      assert multiset{} + multiset{e.amount} == multiset{e.amount};
    } else {
      assert multiset{} + multiset{e.revertData} == multiset{e.revertData};
    }
  }

  lemma EnterFree(p: Pending, e: Event)
    requires WellFormed(p) && Enter(p, e).Some?
    ensures WellFormed(Enter(p, e).value) && PendingBag(Enter(p, e).value) == Add(PendingBag(p), e)
  {
    if e.SettledEvent? || e.RecoveredEvent? {
      EnterPaymentEvent(p, e);
    } else {
      EnterSweeperEvent(p, e);
    }
  }

  /** The pending map describes the logs read so far. */
  ghost predicate Describes(pending: map<Address, Pending>, logs: seq<Log>, sweeper: Address) {
    forall a :: if a in pending then WellFormed(pending[a]) && PendingBag(pending[a]) == BagOf(logs, sweeper, a) && BagOf(logs, sweeper, a) != EMPTY
                else BagOf(logs, sweeper, a) == EMPTY
  }

  /** A log that says nothing leaves the description in place. */
  lemma DescribesSkip(pending: map<Address, Pending>, logs: seq<Log>, sweeper: Address, log: Log)
    requires Describes(pending, logs, sweeper) && !(Relevant(log, sweeper) && log.body.Some?)
    ensures Describes(pending, logs + [log], sweeper)
  {
    forall a
      ensures BagOf(logs + [log], sweeper, a) == BagOf(logs, sweeper, a)
    {
      assert (logs + [log])[..|logs|] == logs;
    }
  }

  /** A log that says something extends the bag of its own address only. */
  lemma HeardBag(logs: seq<Log>, sweeper: Address, log: Log, b: Address)
    requires Relevant(log, sweeper) && log.body.Some?
    ensures var (a, e) := Reading(log, sweeper);
            BagOf(logs + [log], sweeper, b) == (if a == b then Add(BagOf(logs, sweeper, a), e) else BagOf(logs, sweeper, b))
  {
    assert (logs + [log])[..|logs|] == logs;
  }

  lemma DescribesEnter(pending: map<Address, Pending>, logs: seq<Log>, sweeper: Address, log: Log, entry: Pending)
    requires Describes(pending, logs, sweeper) && Relevant(log, sweeper) && log.body.Some?
    requires entry == (if Reading(log, sweeper).0 in pending then pending[Reading(log, sweeper).0] else NOTHING)
    ensures var (a, e) := Reading(log, sweeper);
            if Enter(entry, e).Some? then Describes(pending[a := Enter(entry, e).value], logs + [log], sweeper)
            else Clash(BagOf(logs + [log], sweeper, a))
  {
    var (a, e) := Reading(log, sweeper);
    assert PendingBag(entry) == BagOf(logs, sweeper, a) && WellFormed(entry);
    HeardBag(logs, sweeper, log, a);
    if Enter(entry, e).None? {
      EnterTaken(entry, e);
    } else {
      EnterFree(entry, e);
      AddNotEmpty(BagOf(logs, sweeper, a), e);
      var next := pending[a := Enter(entry, e).value];
      forall b
        ensures if b in next then WellFormed(next[b]) && PendingBag(next[b]) == BagOf(logs + [log], sweeper, b) && BagOf(logs + [log], sweeper, b) != EMPTY
                else BagOf(logs + [log], sweeper, b) == EMPTY
      {
        HeardBag(logs, sweeper, log, b);
      }
    }
  }

  /** Every class of event has one place, so what was entered does not clash. */
  lemma NoClash(pending: map<Address, Pending>, logs: seq<Log>, sweeper: Address)
    requires Describes(pending, logs, sweeper)
    ensures forall a :: !Clash(BagOf(logs, sweeper, a))
  {
    forall a
      ensures !Clash(BagOf(logs, sweeper, a))
    {
      assert a in pending ==> PendingBag(pending[a]) == BagOf(logs, sweeper, a);
    }
  }

  lemma DecodesNext(logs: seq<Log>, sweeper: Address, i: nat)
    requires i < |logs| && AllDecode(logs[..i], sweeper)
    ensures (Relevant(logs[i], sweeper) && logs[i].body.None?) || AllDecode(logs[..i + 1], sweeper)
  {
  }

  lemma UndecodedRejects(logs: seq<Log>, sweeper: Address, i: nat)
    requires i < |logs| && Relevant(logs[i], sweeper) && logs[i].body.None?
    ensures !Accepts(logs, sweeper)
  {
  }

  /** The loop over the logs: events entered by address, duplicates refused. */
  method Collect(logs: seq<Log>, sweeper: Address) returns (r: Result<map<Address, Pending>, ChainError>)
    ensures r.Ok? ==> AllDecode(logs, sweeper) && Describes(r.value, logs, sweeper)
    ensures r.Err? ==> !Accepts(logs, sweeper) && Explains(logs, sweeper, r.error)
  {
    var pending: map<Address, Pending> := map[];
    for i := 0 to |logs|
      invariant AllDecode(logs[..i], sweeper) && Describes(pending, logs[..i], sweeper)
    {
      var log := logs[i];
      TakeNext(logs, i);
      DecodesNext(logs, sweeper, i);
      if Relevant(log, sweeper) {
        if log.body.None? {
          UndecodedRejects(logs, sweeper, i);
          return Err(Malformed("event"));
        }
        var (a, e) := Reading(log, sweeper);
        var found := if a in pending then pending[a] else NOTHING;
        DescribesEnter(pending, logs[..i], sweeper, log, found);
        var entry := Enter(found, e);
        if entry.None? {
          ClashRejects(logs, sweeper, i + 1, a);
          ClashPersists(logs, sweeper, a, i + 1);
          return Err(Duplicate("event", a));
        }
        pending := pending[a := entry.value];
      } else {
        DescribesSkip(pending, logs[..i], sweeper, log);
      }
    }
    assert logs[..|logs|] == logs;
    return Ok(pending);
  }

  method DecodeSweepOutcomes(logs: seq<Log>, sweeper: Address) returns (r: Result<map<Address, SweepOutcome>, ChainError>)
    ensures IsDecoding(logs, sweeper, r)
    ensures r.Err? ==> Explains(logs, sweeper, r.error)
  {
    var collected := Collect(logs, sweeper);
    if collected.Err? {
      return Err(collected.error);
    }
    var pending := collected.value;
    var todo := pending.Keys;
    var outcomes: map<Address, SweepOutcome> := map[];
    while todo != {}
      invariant todo <= pending.Keys && outcomes.Keys == pending.Keys - todo
      invariant forall a :: a in outcomes ==> Shape(BagOf(logs, sweeper, a), outcomes[a])
      decreases todo
    {
      var a :| a in todo;
      ConcludeIsShape(pending[a]);
      var o := Conclude(pending[a]);
      if o.None? {
        NoClash(pending, logs, sweeper);
        assert !Legal(BagOf(logs, sweeper, a));
        return Err(Conflict(a));
      }
      outcomes := outcomes[a := o.value];
      todo := todo - {a};
    }
    return Ok(outcomes);
  }

  // ------------------------------------------------------------ consequences

  /** A bag is read in one way only. */
  lemma ShapeUnique(b: Bag, o: SweepOutcome, q: SweepOutcome)
    requires Shape(b, o) && Shape(b, q)
    ensures o == q
  {
    assert o.Settled? ==> o.amount in b.settled;
    assert q.Settled? ==> q.amount in b.settled;
    assert o.Collected? ==> o.amount in b.collected;
    assert q.Collected? ==> q.amount in b.collected;
    assert o.Recovered? ==> o.amount in b.recovered;
    assert q.Recovered? ==> q.amount in b.recovered;
    assert o.Failed? ==> o.revertData in b.failed;
    assert q.Failed? ==> q.revertData in b.failed;
    if o.Settled? && q.Settled? && |b.recovered| == 1 {
      assert o.recoveredAmount in b.recovered && q.recoveredAmount in b.recovered;
    }
  }

  lemma HearCommutes(b: Bag, x: Log, y: Log, sweeper: Address, a: Address)
    ensures Hear(Hear(b, x, sweeper, a), y, sweeper, a) == Hear(Hear(b, y, sweeper, a), x, sweeper, a)
  {
    if Mentions(x, sweeper, a) && Mentions(y, sweeper, a) {
      var e, f := Reading(x, sweeper).1, Reading(y, sweeper).1;
      AddCommutes(b, e, f);
    }
  }

  lemma AddCommutes(b: Bag, e: Event, f: Event)
    ensures Add(Add(b, e), f) == Add(Add(b, f), e)
  {
    match (e, f) {
      case (SettledEvent(x), SettledEvent(y)) => assert b.settled + multiset{x} + multiset{y} == b.settled + multiset{y} + multiset{x};
      case (RecoveredEvent(x), RecoveredEvent(y)) => assert b.recovered + multiset{x} + multiset{y} == b.recovered + multiset{y} + multiset{x};
      case (SweeperCollected(x), SweeperCollected(y)) => assert b.collected + multiset{x} + multiset{y} == b.collected + multiset{y} + multiset{x};
      case (SweeperFailed(x), SweeperFailed(y)) => assert b.failed + multiset{x} + multiset{y} == b.failed + multiset{y} + multiset{x};
      case _ =>
    }
  }

  lemma {:induction false} MoveToEnd(front: seq<Log>, log: Log, back: seq<Log>, sweeper: Address, a: Address)
    ensures BagOf(front + [log] + back, sweeper, a) == Hear(BagOf(front + back, sweeper, a), log, sweeper, a)
    decreases |back|
  {
    var all := front + [log] + back;
    if back == [] {
      assert all[..|all| - 1] == front && front + back == front;
    } else {
      var fewer, last := back[..|back| - 1], back[|back| - 1];
      assert all[..|all| - 1] == front + [log] + fewer;
      assert (front + back)[..|front + back| - 1] == front + fewer;
      MoveToEnd(front, log, fewer, sweeper, a);
      HearCommutes(BagOf(front + fewer, sweeper, a), log, last, sweeper, a);
    }
  }

  lemma {:induction false} BagIgnoresOrder(x: seq<Log>, y: seq<Log>, sweeper: Address, a: Address)
    requires multiset(x) == multiset(y)
    ensures BagOf(x, sweeper, a) == BagOf(y, sweeper, a)
    decreases |x|
  {
    if x == [] {
      assert |y| == |multiset(y)| == |multiset(x)| == 0;
    } else {
      var rest, log := x[..|x| - 1], x[|x| - 1];
      var front, back := Remove(x, y);
      BagIgnoresOrder(rest, front + back, sweeper, a);
      MoveToEnd(front, log, back, sweeper, a);
    }
  }

  /** Where the last element of `x` sits in its permutation `y`. */
  lemma Remove(x: seq<Log>, y: seq<Log>) returns (front: seq<Log>, back: seq<Log>)
    requires x != [] && multiset(x) == multiset(y)
    ensures y == front + [x[|x| - 1]] + back
    ensures multiset(x[..|x| - 1]) == multiset(front + back)
  {
    var rest, log := x[..|x| - 1], x[|x| - 1];
    assert x == rest + [log];
    assert log in multiset(y);
    var k :| 0 <= k < |y| && y[k] == log;
    front, back := y[..k], y[k + 1..];
    assert y == front + [log] + back;
    assert multiset(rest) == multiset(x) - multiset{log};
    assert multiset(front + back) == multiset(y) - multiset{log};
  }

  lemma DecodingIgnoresOrder(x: seq<Log>, y: seq<Log>, sweeper: Address)
    requires multiset(x) == multiset(y)
    ensures AllDecode(x, sweeper) ==> AllDecode(y, sweeper)
  {
    if AllDecode(x, sweeper) {
      forall i | 0 <= i < |y| && Relevant(y[i], sweeper)
        ensures y[i].body.Some?
      {
        assert y[i] in multiset(x);
      }
    }
  }

  /** The verdict and the map do not depend on the order the node returned the logs in. */
  lemma OrderIrrelevant(x: seq<Log>, y: seq<Log>, sweeper: Address,
                        r: Result<map<Address, SweepOutcome>, ChainError>, q: Result<map<Address, SweepOutcome>, ChainError>)
    requires multiset(x) == multiset(y) && IsDecoding(x, sweeper, r) && IsDecoding(y, sweeper, q)
    ensures r.Ok? <==> q.Ok?
    ensures r.Ok? ==> r.value == q.value
  {
    forall a
      ensures BagOf(x, sweeper, a) == BagOf(y, sweeper, a)
    {
      BagIgnoresOrder(x, y, sweeper, a);
    }
    DecodingIgnoresOrder(x, y, sweeper);
    DecodingIgnoresOrder(y, x, sweeper);
    if r.Ok? {
      forall a | a in r.value
        ensures r.value[a] == q.value[a]
      {
        ShapeUnique(BagOf(x, sweeper, a), r.value[a], q.value[a]);
      }
    }
  }

  /** The joined receipt says about each address what the one that mentions it says. */
  lemma {:induction false} JoinedBag(x: seq<Log>, y: seq<Log>, sweeper: Address, a: Address)
    requires BagOf(x, sweeper, a) == EMPTY || BagOf(y, sweeper, a) == EMPTY
    ensures BagOf(x + y, sweeper, a) == (if BagOf(x, sweeper, a) == EMPTY then BagOf(y, sweeper, a) else BagOf(x, sweeper, a))
    decreases |y|
  {
    if y == [] {
      assert x + y == x;
    } else {
      var fewer, log := y[..|y| - 1], y[|y| - 1];
      assert (x + y)[..|x + y| - 1] == x + fewer;
      AddNotEmpty(BagOf(fewer, sweeper, a), if Mentions(log, sweeper, a) then Reading(log, sweeper).1 else SettledEvent(0));
      JoinedBag(x, fewer, sweeper, a);
    }
  }

  lemma AddNotEmpty(b: Bag, e: Event)
    ensures Add(b, e) != EMPTY
  {
    assert |Add(b, e).settled| + |Add(b, e).recovered| + |Add(b, e).collected| + |Add(b, e).failed| > 0;
  }

  lemma JoinedDecode(x: seq<Log>, y: seq<Log>, sweeper: Address)
    ensures AllDecode(x + y, sweeper) <==> AllDecode(x, sweeper) && AllDecode(y, sweeper)
  {
    assert forall i :: 0 <= i < |x| ==> x[i] == (x + y)[i];
    assert forall i :: 0 <= i < |y| ==> y[i] == (x + y)[|x| + i];
  }

  lemma JoinedAccepts(x: seq<Log>, y: seq<Log>, sweeper: Address)
    requires forall a :: BagOf(x, sweeper, a) == EMPTY || BagOf(y, sweeper, a) == EMPTY
    ensures Accepts(x + y, sweeper) <==> Accepts(x, sweeper) && Accepts(y, sweeper)
  {
    JoinedDecode(x, y, sweeper);
    forall a
      ensures BagOf(x + y, sweeper, a) == (if BagOf(x, sweeper, a) == EMPTY then BagOf(y, sweeper, a) else BagOf(x, sweeper, a))
    {
      JoinedBag(x, y, sweeper, a);
    }
  }

  /** Receipts about disjoint addresses decode to the union of their outcomes. */
  lemma DisjointReceiptsUnite(x: seq<Log>, y: seq<Log>, sweeper: Address,
                              r: Result<map<Address, SweepOutcome>, ChainError>, q: Result<map<Address, SweepOutcome>, ChainError>,
                              both: Result<map<Address, SweepOutcome>, ChainError>)
    requires forall a :: BagOf(x, sweeper, a) == EMPTY || BagOf(y, sweeper, a) == EMPTY
    requires IsDecoding(x, sweeper, r) && IsDecoding(y, sweeper, q) && IsDecoding(x + y, sweeper, both)
    ensures both.Ok? <==> r.Ok? && q.Ok?
    ensures both.Ok? ==> both.value == r.value + q.value
  {
    JoinedAccepts(x, y, sweeper);
    if both.Ok? {
      forall a
        ensures a in both.value <==> a in r.value + q.value
        ensures a in both.value ==> both.value[a] == (r.value + q.value)[a]
      {
        JoinedBag(x, y, sweeper, a);
        if a in both.value {
          ShapeUnique(BagOf(x + y, sweeper, a), both.value[a], (r.value + q.value)[a]);
        }
      }
    }
  }
}
