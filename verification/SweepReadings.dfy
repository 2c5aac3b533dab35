/** The outcome of a sweep receipt in terms of its logs' own fields. */
module SweepReadings {
  import opened Prelude
  import opened Sweep

  /** The payment contract at `a` reports a settlement. */
  function Settles(sweeper: Address, a: Address): Log -> bool {
    (log: Log) => log.emitter == a && a != sweeper && log.topic == Some(SettledSig) && log.body.Some?
  }

  /** The payment contract at `a` reports a recovery. */
  function Recovers(sweeper: Address, a: Address): Log -> bool {
    (log: Log) => log.emitter == a && a != sweeper && log.topic == Some(RecoveredSig) && log.body.Some?
  }

  /** The sweeper reports that it collected from `a`. */
  function Collects(sweeper: Address, a: Address): Log -> bool {
    (log: Log) => log.emitter == sweeper && log.topic == Some(SweepRecoveredSig) && log.body.Some? && log.body.value.payment == a
  }

  /** The sweeper reports that its item for `a` failed. */
  function Fails(sweeper: Address, a: Address): Log -> bool {
    (log: Log) => log.emitter == sweeper && log.topic == Some(SweepFailedSig) && log.body.Some? && log.body.value.payment == a
  }

  function AmountIn(log: Log): nat {
    if log.body.Some? then log.body.value.amount else 0
  }

  function RevertDataIn(log: Log): string {
    if log.body.Some? then log.body.value.revertData else ""
  }

  /** A log of one of the four events that does not decode. */
  predicate Unreadable(log: Log, sweeper: Address) {
    && log.body.None?
    && (if log.emitter == sweeper then log.topic == Some(SweepFailedSig) || log.topic == Some(SweepRecoveredSig)
        else log.topic == Some(SettledSig) || log.topic == Some(RecoveredSig))
  }

  ghost predicate Never(logs: seq<Log>, kind: Log -> bool) {
    forall i :: 0 <= i < |logs| ==> !kind(logs[i])
  }

  /** The log at `i` is the only one of its kind. */
  ghost predicate Only(logs: seq<Log>, kind: Log -> bool, i: int) {
    0 <= i < |logs| && kind(logs[i]) && forall j :: 0 <= j < |logs| && j != i ==> !kind(logs[j])
  }

  /** Exactly one log is of this kind, and this is its value. */
  ghost predicate Once<T>(logs: seq<Log>, kind: Log -> bool, value: Log -> T, x: T) {
    exists i :: Only(logs, kind, i) && value(logs[i]) == x
  }

  ghost predicate AtMostOnce(logs: seq<Log>, kind: Log -> bool) {
    Never(logs, kind) || exists i :: Only(logs, kind, i)
  }

  /** What the logs are when an address has this outcome. */
  ghost predicate Means(logs: seq<Log>, sweeper: Address, a: Address, o: SweepOutcome) {
    match o
    case Settled(amount, recovered) =>
      && Once(logs, Settles(sweeper, a), AmountIn, amount)
      && (|| (Never(logs, Recovers(sweeper, a)) && recovered == 0)
          || Once(logs, Recovers(sweeper, a), AmountIn, recovered))
      && Never(logs, Collects(sweeper, a)) && Never(logs, Fails(sweeper, a))
    case Recovered(amount) =>
      && Never(logs, Settles(sweeper, a)) && Once(logs, Recovers(sweeper, a), AmountIn, amount)
      && Never(logs, Collects(sweeper, a)) && Never(logs, Fails(sweeper, a))
    case Collected(amount) =>
      && Never(logs, Settles(sweeper, a)) && AtMostOnce(logs, Recovers(sweeper, a))
      && Once(logs, Collects(sweeper, a), AmountIn, amount) && Never(logs, Fails(sweeper, a))
    case Failed(data) =>
      && Never(logs, Settles(sweeper, a)) && Never(logs, Recovers(sweeper, a))
      && Never(logs, Collects(sweeper, a)) && Once(logs, Fails(sweeper, a), RevertDataIn, data)
  }

  /** Some log is about this address. */
  ghost predicate Mentioned(logs: seq<Log>, sweeper: Address, a: Address) {
    !(Never(logs, Settles(sweeper, a)) && Never(logs, Recovers(sweeper, a)) && Never(logs, Collects(sweeper, a)) && Never(logs, Fails(sweeper, a)))
  }

  // ------------------------------------------------------------ bags hold the values of their logs

  /** One log of a kind adds its value. */
  function Plus<T>(m: multiset<T>, adds: bool, x: T): multiset<T> {
    m + if adds then multiset{x} else multiset{}
  }

  /** The values of the logs of one kind. */
  function Values<T>(logs: seq<Log>, kind: Log -> bool, value: Log -> T): multiset<T> {
    if logs == [] then multiset{}
    else Plus(Values(logs[..|logs| - 1], kind, value), kind(logs[|logs| - 1]), value(logs[|logs| - 1]))
  }

  lemma NeverLast(logs: seq<Log>, kind: Log -> bool)
    requires logs != []
    ensures Never(logs, kind) <==> Never(logs[..|logs| - 1], kind) && !kind(logs[|logs| - 1])
  {
    assert forall i :: 0 <= i < |logs| - 1 ==> logs[..|logs| - 1][i] == logs[i];
  }

  lemma OnlyLast(logs: seq<Log>, kind: Log -> bool, i: int)
    requires logs != []
    ensures Only(logs, kind, i) <==>
            if kind(logs[|logs| - 1]) then i == |logs| - 1 && Never(logs[..|logs| - 1], kind) else Only(logs[..|logs| - 1], kind, i)
  {
    assert forall i :: 0 <= i < |logs| - 1 ==> logs[..|logs| - 1][i] == logs[i];
  }

  lemma {:induction false} NoValues<T>(logs: seq<Log>, kind: Log -> bool, value: Log -> T)
    ensures Values(logs, kind, value) == multiset{} <==> Never(logs, kind)
    decreases |logs|
  {
    if logs != [] {
      NoValues(logs[..|logs| - 1], kind, value);
      NeverLast(logs, kind);
    }
  }

  lemma OneMore<T>(m: multiset<T>, v: T, x: T)
    ensures m + multiset{v} == multiset{x} <==> m == multiset{} && v == x
  {
    if m + multiset{v} == multiset{x} {
      assert v in m + multiset{v};
      assert |m + multiset{v}| == |m| + 1 && |multiset{x}| == 1;
    }
  }

  lemma {:induction false} OneValue<T>(logs: seq<Log>, kind: Log -> bool, value: Log -> T, x: T)
    ensures Values(logs, kind, value) == multiset{x} <==> Once(logs, kind, value, x)
    decreases |logs|
  {
    if logs != [] {
      var rest, last := logs[..|logs| - 1], logs[|logs| - 1];
      OneValue(rest, kind, value, x);
      NoValues(rest, kind, value);
      forall i
        ensures Only(logs, kind, i) <==> if kind(last) then i == |logs| - 1 && Never(rest, kind) else Only(rest, kind, i)
      {
        OnlyLast(logs, kind, i);
      }
      if kind(last) {
        OneMore(Values(rest, kind, value), value(last), x);
        assert Only(logs, kind, |logs| - 1) <==> Never(rest, kind);
      } else {
        assert forall i :: Only(rest, kind, i) ==> rest[i] == logs[i];
      }
    }
  }

  lemma {:induction false} FewValues<T>(logs: seq<Log>, kind: Log -> bool, value: Log -> T)
    ensures |Values(logs, kind, value)| == 1 <==> exists i :: Only(logs, kind, i)
  {
    var m := Values(logs, kind, value);
    if |m| == 1 {
      var x :| x in m;
      assert m == multiset{x} + (m - multiset{x});
      assert m == multiset{x};
      OneValue(logs, kind, value, x);
    }
    forall i | Only(logs, kind, i)
      ensures |m| == 1
    {
      OneValue(logs, kind, value, value(logs[i]));
      assert Once(logs, kind, value, value(logs[i]));
    }
  }

  lemma PlusNothing<T>(m: multiset<T>, x: T)
    ensures Plus(m, false, x) == m
  {
  }

  /** The event, if any, that a log reports about `a`. */
  function Says(log: Log, sweeper: Address, a: Address): Option<Event> {
    if Settles(sweeper, a)(log) then Some(SettledEvent(AmountIn(log)))
    else if Recovers(sweeper, a)(log) then Some(RecoveredEvent(AmountIn(log)))
    else if Collects(sweeper, a)(log) then Some(SweeperCollected(AmountIn(log)))
    else if Fails(sweeper, a)(log) then Some(SweeperFailed(RevertDataIn(log)))
    else None
  }

  lemma HeardIsSaid(b: Bag, log: Log, sweeper: Address, a: Address)
    ensures Hear(b, log, sweeper, a) == if Says(log, sweeper, a).Some? then Add(b, Says(log, sweeper, a).value) else b
  {
  }

  /** A log is of one kind at most, and is heard as that. */
  lemma HeardAs(b: Bag, log: Log, sweeper: Address, a: Address)
    ensures Hear(b, log, sweeper, a) ==
            Bag(Plus(b.settled, Settles(sweeper, a)(log), AmountIn(log)), Plus(b.recovered, Recovers(sweeper, a)(log), AmountIn(log)),
                Plus(b.collected, Collects(sweeper, a)(log), AmountIn(log)), Plus(b.failed, Fails(sweeper, a)(log), RevertDataIn(log)))
  {
    HeardIsSaid(b, log, sweeper, a);
    PlusNothing(b.settled, AmountIn(log));
    PlusNothing(b.recovered, AmountIn(log));
    PlusNothing(b.collected, AmountIn(log));
    PlusNothing(b.failed, RevertDataIn(log));
  }

  lemma {:induction false} BagHolds(logs: seq<Log>, sweeper: Address, a: Address)
    ensures BagOf(logs, sweeper, a) ==
            Bag(Values(logs, Settles(sweeper, a), AmountIn), Values(logs, Recovers(sweeper, a), AmountIn),
                Values(logs, Collects(sweeper, a), AmountIn), Values(logs, Fails(sweeper, a), RevertDataIn))
    decreases |logs|
  {
    if logs != [] {
      BagHolds(logs[..|logs| - 1], sweeper, a);
      HeardAs(BagOf(logs[..|logs| - 1], sweeper, a), logs[|logs| - 1], sweeper, a);
    }
  }

  // ------------------------------------------------------------ the decoder in raw fields

  lemma BagOfSettled(b: Bag, x: nat, y: nat)
    ensures Shape(b, Settled(x, y)) <==>
            && b.settled == multiset{x} && ((b.recovered == multiset{} && y == 0) || b.recovered == multiset{y})
            && b.collected == multiset{} && b.failed == multiset{}
  {
  }

  lemma BagOfCollected(b: Bag, x: nat)
    ensures Shape(b, Collected(x)) <==>
            b.settled == multiset{} && (b.recovered == multiset{} || |b.recovered| == 1) && b.collected == multiset{x} && b.failed == multiset{}
  {
  }

  /** A bag of an address stands for an outcome exactly when the logs mean it. */
  lemma ShapeIsMeaning(logs: seq<Log>, sweeper: Address, a: Address, o: SweepOutcome)
    ensures Shape(BagOf(logs, sweeper, a), o) <==> Means(logs, sweeper, a, o)
  {
    BagHolds(logs, sweeper, a);
    var b := BagOf(logs, sweeper, a);
    NoValues(logs, Settles(sweeper, a), AmountIn);
    NoValues(logs, Recovers(sweeper, a), AmountIn);
    NoValues(logs, Collects(sweeper, a), AmountIn);
    NoValues(logs, Fails(sweeper, a), RevertDataIn);
    match o
    case Settled(x, y) =>
      BagOfSettled(b, x, y);
      OneValue(logs, Settles(sweeper, a), AmountIn, x);
      OneValue(logs, Recovers(sweeper, a), AmountIn, y);
    case Recovered(x) =>
      OneValue(logs, Recovers(sweeper, a), AmountIn, x);
    case Collected(x) =>
      BagOfCollected(b, x);
      OneValue(logs, Collects(sweeper, a), AmountIn, x);
      FewValues(logs, Recovers(sweeper, a), AmountIn);
    case Failed(data) =>
      OneValue(logs, Fails(sweeper, a), RevertDataIn, data);
  }

  lemma EmptyIsUnmentioned(logs: seq<Log>, sweeper: Address, a: Address)
    ensures BagOf(logs, sweeper, a) != EMPTY <==> Mentioned(logs, sweeper, a)
  {
    BagHolds(logs, sweeper, a);
    NoValues(logs, Settles(sweeper, a), AmountIn);
    NoValues(logs, Recovers(sweeper, a), AmountIn);
    NoValues(logs, Collects(sweeper, a), AmountIn);
    NoValues(logs, Fails(sweeper, a), RevertDataIn);
  }

  lemma DecodeIsReadable(logs: seq<Log>, sweeper: Address)
    ensures AllDecode(logs, sweeper) <==> forall i :: 0 <= i < |logs| ==> !Unreadable(logs[i], sweeper)
  {
  }

  /**
   * A receipt is accepted exactly when every log of the four events decodes and the logs about
   * each address they mention mean some outcome; then each address has exactly what they mean.
   */
  lemma DecodedExactly(logs: seq<Log>, sweeper: Address, r: Result<map<Address, SweepOutcome>, ChainError>)
    requires IsDecoding(logs, sweeper, r)
    ensures r.Ok? <==>
            && (forall i :: 0 <= i < |logs| ==> !Unreadable(logs[i], sweeper))
            && (forall a :: Mentioned(logs, sweeper, a) ==> exists o :: Means(logs, sweeper, a, o))
    ensures r.Ok? ==> forall a, o :: (a in r.value && r.value[a] == o) <==> Means(logs, sweeper, a, o)
  {
    DecodeIsReadable(logs, sweeper);
    forall a
      ensures BagOf(logs, sweeper, a) != EMPTY <==> Mentioned(logs, sweeper, a)
      ensures Legal(BagOf(logs, sweeper, a)) <==> exists o :: Means(logs, sweeper, a, o)
    {
      EmptyIsUnmentioned(logs, sweeper, a);
      LegalIsMeaningful(logs, sweeper, a);
    }
    if r.Ok? {
      forall a, o
        ensures (a in r.value && r.value[a] == o) <==> Means(logs, sweeper, a, o)
      {
        OutcomeExactly(logs, sweeper, r.value, a, o);
      }
    }
  }

  lemma LegalIsMeaningful(logs: seq<Log>, sweeper: Address, a: Address)
    ensures Legal(BagOf(logs, sweeper, a)) <==> exists o :: Means(logs, sweeper, a, o)
  {
    forall o
      ensures Shape(BagOf(logs, sweeper, a), o) <==> Means(logs, sweeper, a, o)
    {
      ShapeIsMeaning(logs, sweeper, a, o);
    }
  }

  lemma OutcomeExactly(logs: seq<Log>, sweeper: Address, outcomes: map<Address, SweepOutcome>, a: Address, o: SweepOutcome)
    requires IsDecoding(logs, sweeper, Ok(outcomes))
    ensures (a in outcomes && outcomes[a] == o) <==> Means(logs, sweeper, a, o)
  {
    ShapeIsMeaning(logs, sweeper, a, o);
    if Shape(BagOf(logs, sweeper, a), o) {
      ShapeNotEmpty(BagOf(logs, sweeper, a), o);
      ShapeUnique(BagOf(logs, sweeper, a), o, outcomes[a]);
    }
  }

  lemma ShapeNotEmpty(b: Bag, o: SweepOutcome)
    requires Shape(b, o)
    ensures b != EMPTY
  {
    assert |b.settled| + |b.recovered| + |b.collected| + |b.failed| > 0;
  }

  /** The sweeper reports on `a`, either way. */
  function Reports(sweeper: Address, a: Address): Log -> bool {
    (log: Log) => Collects(sweeper, a)(log) || Fails(sweeper, a)(log)
  }

  /** Why a receipt is refused, in the same terms. */
  ghost predicate Refused(logs: seq<Log>, sweeper: Address, error: ChainError) {
    match error
    case Malformed(_) => exists i :: 0 <= i < |logs| && Unreadable(logs[i], sweeper)
    case Duplicate(_, a) => !(AtMostOnce(logs, Settles(sweeper, a)) && AtMostOnce(logs, Recovers(sweeper, a)) && AtMostOnce(logs, Reports(sweeper, a)))
    case Conflict(a) =>
      && (forall i :: 0 <= i < |logs| ==> !Unreadable(logs[i], sweeper))
      && (forall b :: AtMostOnce(logs, Settles(sweeper, b)) && AtMostOnce(logs, Recovers(sweeper, b)) && AtMostOnce(logs, Reports(sweeper, b)))
      && !Never(logs, Reports(sweeper, a))
      && (!Never(logs, Settles(sweeper, a)) || (!Never(logs, Fails(sweeper, a)) && !Never(logs, Recovers(sweeper, a))))
  }

  lemma {:induction false} ReportsCount(logs: seq<Log>, sweeper: Address, a: Address)
    ensures |Values(logs, Reports(sweeper, a), AmountIn)| ==
            |Values(logs, Collects(sweeper, a), AmountIn)| + |Values(logs, Fails(sweeper, a), RevertDataIn)|
    decreases |logs|
  {
    if logs != [] {
      ReportsCount(logs[..|logs| - 1], sweeper, a);
    }
  }

  lemma {:induction false} FewIsAtMostOnce<T>(logs: seq<Log>, kind: Log -> bool, value: Log -> T)
    ensures |Values(logs, kind, value)| <= 1 <==> AtMostOnce(logs, kind)
  {
    NoValues(logs, kind, value);
    FewValues(logs, kind, value);
    assert |Values(logs, kind, value)| == 0 <==> Values(logs, kind, value) == multiset{};
  }

  lemma ClashIsTwice(logs: seq<Log>, sweeper: Address, a: Address)
    ensures !Clash(BagOf(logs, sweeper, a)) <==>
            AtMostOnce(logs, Settles(sweeper, a)) && AtMostOnce(logs, Recovers(sweeper, a)) && AtMostOnce(logs, Reports(sweeper, a))
  {
    BagHolds(logs, sweeper, a);
    ReportsCount(logs, sweeper, a);
    FewIsAtMostOnce(logs, Settles(sweeper, a), AmountIn);
    FewIsAtMostOnce(logs, Recovers(sweeper, a), AmountIn);
    FewIsAtMostOnce(logs, Reports(sweeper, a), AmountIn);
  }

  /** A bag without repeats stands for no outcome only where two reports exclude each other. */
  lemma ExclusiveBag(b: Bag)
    requires !Clash(b) && b != EMPTY && !Legal(b)
    ensures |b.collected| + |b.failed| > 0
    ensures |b.settled| > 0 || (|b.failed| > 0 && |b.recovered| > 0)
  {
    var p := Pending(Sole(b.settled), Sole(b.recovered),
                     if |b.collected| > 0 then Some(Collected(Sole(b.collected).value))
                     else if |b.failed| > 0 then Some(Failed(Sole(b.failed).value)) else None);
    assert PendingBag(p) == b;
    ConcludeIsShape(p);
  }

  /** The element of a bag of at most one. */
  ghost function Sole<T>(m: multiset<T>): (v: Option<T>)
    requires |m| <= 1
    ensures m == One(v)
  {
    if |m| == 0 then None
    else
      var x :| x in m;
      SoleIs(m, x);
      Some(x)
  }

  lemma SoleIs<T>(m: multiset<T>, x: T)
    requires |m| == 1 && x in m
    ensures m == multiset{x}
  {
    assert m == multiset{x} + (m - multiset{x});
  }

  lemma RefusalIsTrue(logs: seq<Log>, sweeper: Address, error: ChainError)
    requires Explains(logs, sweeper, error)
    ensures Refused(logs, sweeper, error)
  {
    match error
    case Malformed(_) =>
    case Duplicate(_, a) => ClashIsTwice(logs, sweeper, a);
    case Conflict(a) =>
      DecodeIsReadable(logs, sweeper);
      forall b
        ensures AtMostOnce(logs, Settles(sweeper, b)) && AtMostOnce(logs, Recovers(sweeper, b)) && AtMostOnce(logs, Reports(sweeper, b))
      {
        ClashIsTwice(logs, sweeper, b);
      }
      ExclusiveBag(BagOf(logs, sweeper, a));
      BagHolds(logs, sweeper, a);
      ReportsCount(logs, sweeper, a);
      NoValues(logs, Settles(sweeper, a), AmountIn);
      NoValues(logs, Recovers(sweeper, a), AmountIn);
      NoValues(logs, Reports(sweeper, a), AmountIn);
      NoValues(logs, Fails(sweeper, a), RevertDataIn);
  }
}
