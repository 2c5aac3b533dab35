/**
 * When operation names repeat over whole runs, and what is lost then: `Engine.dispatch` in
 * benchmarks/gum-load/src/run.ts over the schedules of benchmarks/gum-load/src/scheduler.ts.
 */
module GuardNames {
  import opened Prelude
  import opened Amounts
  import opened Guards
  import opened GuardNumbers

  lemma {:induction false} DispatchesFirst(steps: seq<Step>, more: seq<seq<nat>>)
    requires steps != []
    ensures Dispatches(steps) + more == (if steps[0].Begin? then [steps[0].entries] else []) + (Dispatches(steps[1..]) + more)
  {
    Assoc(if steps[0].Begin? then [steps[0].entries] else [], Dispatches(steps[1..]), more);
  }

  lemma {:induction false} FirstStepClear(e: Engine, limits: Limits, steps: seq<Step>, more: seq<seq<nat>>)
    requires steps != [] && Enabled(e, steps[0]) && Clear(e, Dispatches(steps) + more)
    ensures Clear(Apply(e, limits, steps[0]), Dispatches(steps[1..]) + more)
  {
    DispatchesFirst(steps, more);
    StepClear(e, limits, steps[0], Dispatches(steps[1..]) + more);
  }

  lemma {:induction false} RunClear(e: Engine, limits: Limits, steps: seq<Step>, more: seq<seq<nat>>)
    requires IsRun(e, limits, steps) && Clear(e, Dispatches(steps) + more)
    ensures Clear(After(e, limits, steps), more)
    decreases |steps|
  {
    if steps == [] {
      assert Dispatches(steps) + more == more;
    } else {
      FirstStepClear(e, limits, steps, more);
      RunClear(Apply(e, limits, steps[0]), limits, steps[1..], more);
    }
  }

  lemma IdleClear(dispatches: seq<seq<nat>>)
    requires Distinct(Numbers(dispatches, 0))
    ensures Clear(IDLE, dispatches)
  {
    SingleIsDistinct(Numbers(dispatches, 0));
    assert Names(IDLE, dispatches) == multiset(Numbers(dispatches, 0));
  }

  /** Schedules whose numbers are all different lose nothing, and give every operation its own name. */
  lemma DistinctNumbersLoseNothing(limits: Limits, steps: seq<Step>)
    requires IsRun(IDLE, limits, steps) && Distinct(Numbers(Dispatches(steps), 0))
    ensures After(IDLE, limits, steps).lost == [] && Distinct(After(IDLE, limits, steps).names)
  {
    IdleClear(Dispatches(steps));
    assert Dispatches(steps) + [] == Dispatches(steps);
    RunClear(IDLE, limits, steps, []);
    var e := After(IDLE, limits, steps);
    Fewer(multiset(e.names), Names(e, []));
    SingleIsDistinct(e.names);
  }

  // ------------------------------------------------------------ a finished operation

  lemma {:induction false} RecordStaysAway(e: Engine, limits: Limits, r: Result<nat, Refusal>, dispatches: seq<seq<nat>>, op: nat)
    requires Clear(e, dispatches) && Enabled(e, Admit("")) && op in e.names && op !in e.reservations
    ensures op in Record(e, limits, r).names && op !in Record(e, limits, r).reservations
  {
    NextIsNew(e, dispatches);
  }

  lemma {:induction false} StaysAway(e: Engine, limits: Limits, op: nat, steps: seq<Step>)
    requires IsRun(e, limits, steps) && Clear(e, Dispatches(steps)) && op in e.names && op !in e.reservations
    ensures op !in After(e, limits, steps).reservations
    decreases |steps|
  {
    if steps != [] {
      var step, later := steps[0], Dispatches(steps[1..]);
      StepClear(e, limits, step, later);
      if step.Admit? {
        assert [] + later == later;
        RecordStaysAway(e, limits, Reserve(e.guard, limits, step.amount), later, op);
      }
      StaysAway(Apply(e, limits, step), limits, op, steps[1..]);
    }
  }

  /** With numbers all different, a finished operation is never reserved again. */
  lemma NeverReservedAgain(limits: Limits, steps: seq<Step>, op: nat, more: seq<Step>)
    requires IsRun(IDLE, limits, steps) && op in After(IDLE, limits, steps).reservations
    requires IsRun(Apply(After(IDLE, limits, steps), limits, Finished(op)), limits, more)
    requires Distinct(Numbers(Dispatches(steps) + Dispatches(more), 0))
    ensures op !in After(Apply(After(IDLE, limits, steps), limits, Finished(op)), limits, more).reservations
  {
    var e := After(IDLE, limits, steps);
    IdleClear(Dispatches(steps) + Dispatches(more));
    RunClear(IDLE, limits, steps, Dispatches(more));
    assert [] + Dispatches(more) == Dispatches(more);
    StepClear(e, limits, Finished(op), Dispatches(more));
    StaysAway(Apply(e, limits, Finished(op)), limits, op, more);
  }

  // ------------------------------------------------------------ repeated numbers do lose

  /** A guard that has admitted `k` operations of one unit and given none back. */
  function Busy(k: nat): Guard {
    Guard(false, None, k, k, k, k)
  }

  /** Limits that let `n` operations of one unit through. */
  ghost predicate Generous(limits: Limits, amount: string, n: nat) {
    && limits.maxRequests == limits.maxConcurrentFunded == n
    && ParseBounds(limits) == Ok(Bounds(n, n, n)) && DecimalToUnits(amount) == Ok(1)
  }

  lemma TextFor(n: nat) returns (text: string)
    ensures DecimalToUnits(text) == Ok(n)
  {
    FmtUnitsRoundTrip(n);
    text := FmtUnits(n, 6);
  }

  lemma GenerousLimits(n: nat) returns (limits: Limits, amount: string)
    ensures Generous(limits, amount, n)
  {
    var most := TextFor(n);
    limits := Limits(n, most, most, most, n);
    amount := TextFor(1);
  }

  lemma BusyAdmits(limits: Limits, n: nat, k: nat)
    requires limits.maxRequests == limits.maxConcurrentFunded == n && k < n
    ensures CanAdmit(Busy(k), limits) && AfterReserve(Busy(k), limits, Ok(1)) == Busy(k + 1)
    ensures Decide(Busy(k), limits.maxConcurrentFunded, Ok(1), Ok(Bounds(n, n, n))) == Ok(1)
  {
  }

  lemma {:induction false} GenerousReserves(limits: Limits, amount: string, n: nat, k: nat)
    requires Generous(limits, amount, n) && Decide(Busy(k), limits.maxConcurrentFunded, Ok(1), Ok(Bounds(n, n, n))) == Ok(1)
    ensures Reserve(Busy(k), limits, amount) == Ok(1)
  {
  }

  /** Nothing given back: every name holds a reservation, and names repeat only by pushing one out. */
  ghost predicate AllOut(e: Engine) {
    && e.guard == Busy(|e.names|)
    && (forall op :: op in e.names ==> op in e.reservations)
    && (e.lost == [] ==> Distinct(e.names))
  }

  lemma RecordOne(e: Engine, limits: Limits)
    requires AllOut(e) && Enabled(e, Admit("")) && CanAdmit(e.guard, limits)
    requires AfterReserve(e.guard, limits, Ok(1)) == Busy(|e.names| + 1)
    ensures AdmitsOne(e, Record(e, limits, Ok(1)))
  {
  }

  /** An engine with everything out and an entry to dispatch, short of `n` operations. */
  ghost predicate Poised(e: Engine, n: nat) {
    AllOut(e) && Enabled(e, Admit("")) && |e.names| < n
  }

  ghost predicate AdmitsOne(e: Engine, e': Engine)
    requires Enabled(e, Admit(""))
  {
    var d := e.current.value;
    && AllOut(e') && e'.names == e.names + [e.opOffset + d.entries[d.position]]
    && e'.current == Some(d.(position := d.position + 1)) && e'.opOffset == e.opOffset
  }

  /** These limits and this amount let the next operation through, up to `n`. */
  ghost predicate Lets(limits: Limits, amount: string, n: nat) {
    forall e :: Poised(e, n) ==> AdmitsOne(e, Apply(e, limits, Admit(amount)))
  }

  lemma GenerousLets(limits: Limits, amount: string, n: nat)
    requires Generous(limits, amount, n)
    ensures Lets(limits, amount, n)
  {
    forall e | Poised(e, n)
      ensures AdmitsOne(e, Apply(e, limits, Admit(amount)))
    {
      BusyAdmits(limits, n, |e.names|);
      GenerousReserves(limits, amount, n, |e.names|);
      RecordOne(e, limits);
    }
  }

  lemma {:induction false} RunCons(e: Engine, limits: Limits, step: Step, rest: seq<Step>)
    requires Enabled(e, step) && IsRun(Apply(e, limits, step), limits, rest)
    ensures IsRun(e, limits, [step] + rest) && After(e, limits, [step] + rest) == After(Apply(e, limits, step), limits, rest)
    ensures Dispatches([step] + rest) == (if step.Begin? then [step.entries] else []) + Dispatches(rest)
  {
    assert ([step] + rest)[1..] == rest;
  }

  /** A dispatch of `entries` whose entries from `from` on have been admitted after `e`. */
  ghost predicate Admitted(e: Engine, from: nat, entries: seq<nat>, e': Engine) {
    && from <= |entries| && AllOut(e') && e'.names == e.names + Shift(entries[from..], e.opOffset)
    && e'.current.Some? && e'.current.value.entries == entries && e'.opOffset == e.opOffset
  }

  lemma AdmittedMore(e: Engine, next: Engine, last: Engine)
    requires Enabled(e, Admit("")) && AdmitsOne(e, next)
    requires Admitted(next, next.current.value.position, next.current.value.entries, last)
    ensures Admitted(e, e.current.value.position, e.current.value.entries, last)
  {
    var d := e.current.value;
    var op, later := e.opOffset + d.entries[d.position], Shift(d.entries[d.position + 1..], e.opOffset);
    ShiftFirst(d.entries, d.position, e.opOffset);
    Assoc(e.names, [op], later);
  }

  /** The rest of a dispatch, admitted to the end. */
  lemma {:induction false} AdmitRest(e: Engine, limits: Limits, amount: string, n: nat) returns (steps: seq<Step>, last: Engine)
    requires Lets(limits, amount, n) && AllOut(e) && e.current.Some? && e.current.value.position <= |e.current.value.entries|
    requires |e.names| + |e.current.value.entries| - e.current.value.position <= n
    ensures IsRun(e, limits, steps) && Dispatches(steps) == [] && After(e, limits, steps) == last
    ensures Admitted(e, e.current.value.position, e.current.value.entries, last)
    decreases |e.current.value.entries| - e.current.value.position
  {
    var d := e.current.value;
    if d.position == |d.entries| {
      steps, last := [], e;
      assert e.names + Shift(d.entries[d.position..], e.opOffset) == e.names;
    } else {
      assert Poised(e, n);
      var next := Apply(e, limits, Admit(amount));
      var rest;
      rest, last := AdmitRest(next, limits, amount, n);
      steps := [Admit(amount)] + rest;
      RunCons(e, limits, Admit(amount), rest);
      AdmittedMore(e, next, last);
    }
  }

  lemma {:induction false} DispatchesConcat(a: seq<Step>, b: seq<Step>)
    ensures Dispatches(a + b) == Dispatches(a) + Dispatches(b)
  {
    if a == [] {
      assert a + b == b;
    } else {
      assert (a + b)[1..] == a[1..] + b && (a + b)[0] == a[0];
      DispatchesConcat(a[1..], b);
      Assoc(if a[0].Begin? then [a[0].entries] else [], Dispatches(a[1..]), Dispatches(b));
    }
  }

  lemma {:induction false} RunConcat(e: Engine, limits: Limits, a: seq<Step>, b: seq<Step>)
    requires IsRun(e, limits, a) && IsRun(After(e, limits, a), limits, b)
    ensures IsRun(e, limits, a + b) && After(e, limits, a + b) == After(After(e, limits, a), limits, b)
    decreases |a|
  {
    if a == [] {
      assert a + b == b;
    } else {
      assert (a + b)[1..] == a[1..] + b && (a + b)[0] == a[0];
      RunConcat(Apply(e, limits, a[0]), limits, a[1..], b);
    }
  }

  lemma {:induction false} NumbersLength(dispatches: seq<seq<nat>>, offset: nat)
    requires dispatches != []
    ensures |Numbers(dispatches, offset)| == |dispatches[0]| + |Numbers(dispatches[1..], offset + |dispatches[0]|)|
  {
  }

  /** One whole dispatch. */
  ghost predicate Dispatched(e: Engine, numbers: seq<nat>, offset: nat, e': Engine) {
    AllOut(e') && e'.current.None? && e'.names == e.names + numbers && e'.opOffset == offset
  }

  lemma DispatchOne(e: Engine, limits: Limits, amount: string, n: nat, entries: seq<nat>) returns (steps: seq<Step>)
    requires Lets(limits, amount, n) && AllOut(e) && e.current.None? && |e.names| + |entries| <= n
    ensures IsRun(e, limits, steps) && Dispatches(steps) == [entries]
    ensures Dispatched(e, Shift(entries, e.opOffset), e.opOffset + |entries|, After(e, limits, steps))
  {
    var begun := Apply(e, limits, Begin(entries));
    var middle, full := AdmitRest(begun, limits, amount, n);
    assert entries[0..] == entries;
    RunCons(full, limits, End, []);
    RunConcat(begun, limits, middle, [End] + []);
    DispatchesConcat(middle, [End] + []);
    RunCons(e, limits, Begin(entries), middle + ([End] + []));
    steps := [Begin(entries)] + (middle + ([End] + []));
  }

  /** All dispatches in turn, everything admitted and nothing given back. */
  lemma {:induction false} DispatchAll(e: Engine, limits: Limits, amount: string, n: nat, dispatches: seq<seq<nat>>) returns (steps: seq<Step>)
    requires Lets(limits, amount, n) && AllOut(e) && e.current.None? && |e.names| + |Numbers(dispatches, e.opOffset)| <= n
    ensures IsRun(e, limits, steps) && Dispatches(steps) == dispatches
    ensures AllOut(After(e, limits, steps)) && After(e, limits, steps).names == e.names + Numbers(dispatches, e.opOffset)
    decreases |dispatches|
  {
    steps := [];
    if dispatches == [] {
      assert e.names + [] == e.names;
    } else {
      NumbersLength(dispatches, e.opOffset);
      var first := DispatchOne(e, limits, amount, n, dispatches[0]);
      var mid := After(e, limits, first);
      var rest := DispatchAll(mid, limits, amount, n, dispatches[1..]);
      RunConcat(e, limits, first, rest);
      DispatchesConcat(first, rest);
      steps := first + rest;
      NumbersCut(e.names, dispatches, e.opOffset);
    }
  }

  lemma NumbersCut(names: seq<nat>, dispatches: seq<seq<nat>>, offset: nat)
    requires dispatches != []
    ensures [dispatches[0]] + dispatches[1..] == dispatches
    ensures names + Shift(dispatches[0], offset) + Numbers(dispatches[1..], offset + |dispatches[0]|) == names + Numbers(dispatches, offset)
  {
    Assoc(names, Shift(dispatches[0], offset), Numbers(dispatches[1..], offset + |dispatches[0]|));
  }

  /** No run of these schedules ever pushes a reservation out of the map. */
  ghost predicate NeverLoses(dispatches: seq<seq<nat>>) {
    forall limits, steps :: IsRun(IDLE, limits, steps) && Dispatches(steps) == dispatches ==> After(IDLE, limits, steps).lost == []
  }

  /** Schedules are safe, whatever the limits and however runs go, if and only if their numbers never repeat. */
  lemma NeverLosesExactly(dispatches: seq<seq<nat>>)
    ensures NeverLoses(dispatches) <==> Distinct(Numbers(dispatches, 0))
  {
    if Distinct(Numbers(dispatches, 0)) {
      forall limits, steps | IsRun(IDLE, limits, steps) && Dispatches(steps) == dispatches
        ensures After(IDLE, limits, steps).lost == []
      {
        DistinctNumbersLoseNothing(limits, steps);
      }
    } else {
      var n := |Numbers(dispatches, 0)|;
      assert IDLE.names == [] && AllOut(IDLE);
      var limits, amount := GenerousLimits(n);
      GenerousLets(limits, amount, n);
      var steps := DispatchAll(IDLE, limits, amount, n, dispatches);
      assert [] + Numbers(dispatches, 0) == Numbers(dispatches, 0);
      assert After(IDLE, limits, steps).lost != [];
    }
  }

  // ------------------------------------------------------------ cohorts

  /** A synchronized cohort: how many entries, and the index of the first. */
  datatype Cohort = Cohort(count: nat, first: nat)

  function Entries(c: Cohort): seq<nat> {
    seq(c.count, i => c.first + i)
  }

  function AllEntries(cohorts: seq<Cohort>): seq<seq<nat>> {
    if cohorts == [] then [] else [Entries(cohorts[0])] + AllEntries(cohorts[1..])
  }

  /** The number of the first operation of the `i`-th cohort, when `offset` numbers are taken. */
  function First(cohorts: seq<Cohort>, offset: nat, i: nat): nat
    requires i < |cohorts|
  {
    if i == 0 then offset + cohorts[0].first else First(cohorts[1..], offset + cohorts[0].count, i - 1)
  }

  /** Two cohorts share a number. */
  predicate Overlap(cohorts: seq<Cohort>, offset: nat, i: nat, j: nat)
    requires i < |cohorts| && j < |cohorts|
  {
    && cohorts[i].count > 0 && cohorts[j].count > 0
    && First(cohorts, offset, i) < First(cohorts, offset, j) + cohorts[j].count
    && First(cohorts, offset, j) < First(cohorts, offset, i) + cohorts[i].count
  }

  ghost predicate NoOverlap(cohorts: seq<Cohort>, offset: nat) {
    forall i, j :: 0 <= i < j < |cohorts| ==> !Overlap(cohorts, offset, i, j)
  }

  predicate Holds(cohorts: seq<Cohort>, offset: nat, i: nat, x: nat)
    requires i < |cohorts|
  {
    First(cohorts, offset, i) <= x < First(cohorts, offset, i) + cohorts[i].count
  }

  lemma {:induction false} ShiftedEntries(c: Cohort, offset: nat, x: nat)
    ensures x in Shift(Entries(c), offset) <==> offset + c.first <= x < offset + c.first + c.count
    ensures Distinct(Shift(Entries(c), offset))
  {
    var s := Shift(Entries(c), offset);
    forall i | 0 <= i < |s|
      ensures s[i] == offset + c.first + i
    {
      ShiftAt(Entries(c), offset, i);
    }
    if offset + c.first <= x < offset + c.first + c.count {
      assert s[x - offset - c.first] == x;
    }
  }

  lemma {:induction false} NumbersHold(cohorts: seq<Cohort>, offset: nat, x: nat)
    ensures x in Numbers(AllEntries(cohorts), offset) <==> exists i :: 0 <= i < |cohorts| && Holds(cohorts, offset, i, x)
  {
    if cohorts != [] {
      var rest, after := cohorts[1..], offset + cohorts[0].count;
      NumbersHold(rest, after, x);
      ShiftedEntries(cohorts[0], offset, x);
      NumbersFirst(cohorts, offset);
      if x in Shift(Entries(cohorts[0]), offset) {
        assert Holds(cohorts, offset, 0, x);
      } else if x in Numbers(AllEntries(rest), after) {
        var i :| 0 <= i < |rest| && Holds(rest, after, i, x);
        assert Holds(cohorts, offset, i + 1, x);
      }
      forall i | 0 <= i < |cohorts| && Holds(cohorts, offset, i, x)
        ensures x in Numbers(AllEntries(cohorts), offset)
      {
        assert i > 0 ==> Holds(rest, after, i - 1, x);
      }
    }
  }

  /** A shared number makes the first cohort overlap one of the others. */
  lemma SharedOverlaps(cohorts: seq<Cohort>, offset: nat, x: nat) returns (j: nat)
    requires cohorts != [] && x in Shift(Entries(cohorts[0]), offset) && x in Numbers(AllEntries(cohorts[1..]), offset + cohorts[0].count)
    ensures 0 < j < |cohorts| && Overlap(cohorts, offset, 0, j)
  {
    var rest, after := cohorts[1..], offset + cohorts[0].count;
    ShiftedEntries(cohorts[0], offset, x);
    NumbersHold(rest, after, x);
    var i :| 0 <= i < |rest| && Holds(rest, after, i, x);
    j := i + 1;
  }

  /** And an overlap has a number to share. */
  lemma OverlapShares(cohorts: seq<Cohort>, offset: nat, j: nat) returns (x: nat)
    requires 0 < j < |cohorts| && Overlap(cohorts, offset, 0, j)
    ensures x in Shift(Entries(cohorts[0]), offset) && x in Numbers(AllEntries(cohorts[1..]), offset + cohorts[0].count)
  {
    var rest, after := cohorts[1..], offset + cohorts[0].count;
    x := Max(First(cohorts, offset, 0), First(cohorts, offset, j));
    ShiftedEntries(cohorts[0], offset, x);
    assert Holds(rest, after, j - 1, x);
    NumbersHold(rest, after, x);
  }

  ghost predicate FirstClear(cohorts: seq<Cohort>, offset: nat)
    requires cohorts != []
  {
    forall j :: 0 < j < |cohorts| ==> !Overlap(cohorts, offset, 0, j)
  }

  lemma {:induction false} FirstApart(cohorts: seq<Cohort>, offset: nat)
    requires cohorts != []
    ensures Apart(Shift(Entries(cohorts[0]), offset), Numbers(AllEntries(cohorts[1..]), offset + cohorts[0].count)) <==> FirstClear(cohorts, offset)
  {
    var mine, others := Shift(Entries(cohorts[0]), offset), Numbers(AllEntries(cohorts[1..]), offset + cohorts[0].count);
    if x :| x in mine && x in others {
      var j := SharedOverlaps(cohorts, offset, x);
    } else if j :| 0 < j < |cohorts| && Overlap(cohorts, offset, 0, j) {
      var x := OverlapShares(cohorts, offset, j);
    }
  }

  lemma OverlapLater(cohorts: seq<Cohort>, offset: nat, i: nat, j: nat)
    requires 0 < i < j < |cohorts|
    ensures Overlap(cohorts, offset, i, j) == Overlap(cohorts[1..], offset + cohorts[0].count, i - 1, j - 1)
  {
  }

  lemma {:induction false} NoOverlapSplit(cohorts: seq<Cohort>, offset: nat)
    requires cohorts != []
    ensures NoOverlap(cohorts, offset)
            <==> NoOverlap(cohorts[1..], offset + cohorts[0].count) && FirstClear(cohorts, offset)
  {
    var rest, after := cohorts[1..], offset + cohorts[0].count;
    if NoOverlap(cohorts, offset) {
      forall i, j | 0 <= i < j < |rest|
        ensures !Overlap(rest, after, i, j)
      {
        OverlapLater(cohorts, offset, i + 1, j + 1);
      }
    }
    if NoOverlap(rest, after) && FirstClear(cohorts, offset) {
      forall i, j | 0 <= i < j < |cohorts|
        ensures !Overlap(cohorts, offset, i, j)
      {
        if i > 0 {
          OverlapLater(cohorts, offset, i, j);
        }
      }
    }
  }

  lemma {:induction false} NumbersFirst(cohorts: seq<Cohort>, offset: nat)
    requires cohorts != []
    ensures Numbers(AllEntries(cohorts), offset)
         == Shift(Entries(cohorts[0]), offset) + Numbers(AllEntries(cohorts[1..]), offset + cohorts[0].count)
  {
    assert AllEntries(cohorts)[1..] == AllEntries(cohorts[1..]);
  }

  lemma {:induction false} CohortNumbersDistinct(cohorts: seq<Cohort>, offset: nat)
    ensures Distinct(Numbers(AllEntries(cohorts), offset)) <==> NoOverlap(cohorts, offset)
  {
    if cohorts != [] {
      var rest, after := cohorts[1..], offset + cohorts[0].count;
      CohortNumbersDistinct(rest, after);
      NumbersFirst(cohorts, offset);
      DistinctParts(Shift(Entries(cohorts[0]), offset), Numbers(AllEntries(rest), after));
      ShiftedEntries(cohorts[0], offset, 0);
      FirstApart(cohorts, offset);
      NoOverlapSplit(cohorts, offset);
    }
  }

  /** Cohorts are safe if and only if no two of them, shifted by the entries before them, share a number. */
  lemma CohortsSafeExactly(cohorts: seq<Cohort>)
    ensures NeverLoses(AllEntries(cohorts)) <==> NoOverlap(cohorts, 0)
  {
    NeverLosesExactly(AllEntries(cohorts));
    CohortNumbersDistinct(cohorts, 0);
  }

  lemma {:induction false} FirstsApart(cohorts: seq<Cohort>, offset: nat, first: nat, i: nat, j: nat)
    requires i < j < |cohorts| && forall k :: 0 <= k < |cohorts| ==> cohorts[k].first == first
    ensures First(cohorts, offset, i) + cohorts[i].count <= First(cohorts, offset, j)
  {
    if i > 0 {
      FirstsApart(cohorts[1..], offset + cohorts[0].count, first, i - 1, j - 1);
    } else {
      FirstAfter(cohorts[1..], offset + cohorts[0].count, first, j - 1);
    }
  }

  lemma {:induction false} FirstAfter(cohorts: seq<Cohort>, offset: nat, first: nat, j: nat)
    requires j < |cohorts| && forall k :: 0 <= k < |cohorts| ==> cohorts[k].first == first
    ensures First(cohorts, offset, j) >= offset + first
  {
    if j > 0 {
      FirstAfter(cohorts[1..], offset + cohorts[0].count, first, j - 1);
    }
  }

  /** The engine's own schedules, which all start at index zero, are safe; so is any common start. */
  lemma CommonStartSafe(cohorts: seq<Cohort>, first: nat)
    requires forall k :: 0 <= k < |cohorts| ==> cohorts[k].first == first
    ensures NeverLoses(AllEntries(cohorts))
  {
    forall i, j | 0 <= i < j < |cohorts|
      ensures !Overlap(cohorts, 0, i, j)
    {
      FirstsApart(cohorts, 0, first, i, j);
    }
    CohortsSafeExactly(cohorts);
  }

  /** Different starts need not be: after two entries numbered from one, two numbered from zero reuse a name. */
  lemma MixedStartsUnsafe()
    ensures !NeverLoses(AllEntries([Cohort(2, 1), Cohort(2, 0)]))
  {
    var cohorts := [Cohort(2, 1), Cohort(2, 0)];
    assert First(cohorts, 0, 0) == 1;
    assert First(cohorts[1..], 2, 0) == 2;
    assert First(cohorts, 0, 1) == 2;
    assert Overlap(cohorts, 0, 0, 1);
    CohortsSafeExactly(cohorts);
  }
}
