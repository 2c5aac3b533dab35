/**
 * Money reservations of the load harness: `Guards` in benchmarks/gum-load/src/guards.ts and the
 * engine that uses it, `Engine.dispatch` and `releaseFinishedReservations` in benchmarks/gum-load/src/run.ts.
 */
module Guards {
  import opened Prelude
  import opened Decimal
  import opened Amounts

  datatype Limits = Limits(maxRequests: int, maxAmount: string, maxGrossVolume: string, maxOutstandingPrincipal: string, maxConcurrentFunded: int)

  datatype Guard = Guard(paused: bool, stoppedReason: Option<string>, reserved: int, gross: int, outstanding: int, admitted: int)

  const OPEN := Guard(false, None, 0, 0, 0, 0)

  datatype Limit = GrossVolume | OutstandingPrincipal | Concurrency

  datatype Refusal = Malformed(text: AmountError) | AboveMaxAmount | LimitReached(limit: Limit)

  // ------------------------------------------------------------ one guard

  /** The language's truth of an optional string: the empty string counts as absent. */
  predicate Stopped(g: Guard) {
    g.stoppedReason.Some? && g.stoppedReason.value != ""
  }

  function Pause(g: Guard): Guard {
    g.(paused := true)
  }

  function Resume(g: Guard): Guard {
    if g.paused && !Stopped(g) then g.(paused := false) else g
  }

  function Stop(g: Guard, reason: string): Guard {
    if Stopped(g) then g else g.(stoppedReason := Some(reason), paused := true)
  }

  predicate CanAdmit(g: Guard, limits: Limits) {
    !Stopped(g) && !g.paused && g.admitted < limits.maxRequests
  }

  /** The reason a breach stops admission with. */
  function Breach(limits: Limits, limit: Limit): (reason: string)
    ensures reason != ""
  {
    match limit
    case GrossVolume => "guard: gross volume limit " + limits.maxGrossVolume + " reached"
    case OutstandingPrincipal => "guard: outstanding principal limit " + limits.maxOutstandingPrincipal + " reached"
    case Concurrency => "guard: concurrency limit " + (if limits.maxConcurrentFunded < 0 then "-" + Print(-limits.maxConcurrentFunded) else Print(limits.maxConcurrentFunded)) + " reached"
  }

  /** The parsed limits, or the first that is malformed. */
  datatype Bounds = Bounds(amount: nat, gross: nat, outstanding: nat)

  function ParseBounds(limits: Limits): Result<Bounds, AmountError> {
    var amount := DecimalToUnits(limits.maxAmount);
    var gross := DecimalToUnits(limits.maxGrossVolume);
    var outstanding := DecimalToUnits(limits.maxOutstandingPrincipal);
    if amount.Err? then Err(amount.error)
    else if gross.Err? then Err(gross.error)
    else if outstanding.Err? then Err(outstanding.error)
    else Ok(Bounds(amount.value, gross.value, outstanding.value))
  }

  /** What a reservation returns, once its amount and the limits are parsed. */
  function Decide(g: Guard, maxConcurrentFunded: int, units: Result<nat, AmountError>, bounds: Result<Bounds, AmountError>): Result<nat, Refusal> {
    if units.Err? then Err(Malformed(units.error))
    else if bounds.Err? then Err(Malformed(bounds.error))
    else if units.value > bounds.value.amount then Err(AboveMaxAmount)
    else if g.gross + units.value > bounds.value.gross then Err(LimitReached(GrossVolume))
    else if g.outstanding + units.value > bounds.value.outstanding then Err(LimitReached(OutstandingPrincipal))
    else if g.reserved >= maxConcurrentFunded then Err(LimitReached(Concurrency))
    else Ok(units.value)
  }

  function Reserve(g: Guard, limits: Limits, amount: string): Result<nat, Refusal> {
    Decide(g, limits.maxConcurrentFunded, DecimalToUnits(amount), ParseBounds(limits))
  }

  /** And what it does to the guard. */
  function AfterReserve(g: Guard, limits: Limits, r: Result<nat, Refusal>): Guard {
    match r
    case Ok(units) => g.(reserved := g.reserved + 1, admitted := g.admitted + 1, gross := g.gross + units, outstanding := g.outstanding + units)
    case Err(LimitReached(limit)) => Stop(g, Breach(limits, limit))
    case Err(_) => g
  }

  function Release(g: Guard, units: nat): Guard {
    g.(reserved := Max(0, g.reserved - 1), outstanding := if 0 > g.outstanding - units then 0 else g.outstanding - units)
  }

  /** The guard object. */
  class GuardBox {
    const limits: Limits
    var paused: bool
    var stoppedReason: Option<string>
    var reserved: int
    var grossUnits: int
    var outstandingUnits: int
    var admittedCount: int

    ghost function View(): Guard
      reads this
    {
      Guard(paused, stoppedReason, reserved, grossUnits, outstandingUnits, admittedCount)
    }

    constructor (limits: Limits)
      ensures View() == OPEN && this.limits == limits
    {
      this.limits := limits;
      paused := false;
      stoppedReason := None;
      reserved, grossUnits, outstandingUnits, admittedCount := 0, 0, 0, 0;
    }

    method PauseFor()
      modifies this
      ensures View() == Pause(old(View()))
    {
      if !paused {
        paused := true;
      }
    }

    method ResumeAdmission()
      modifies this
      ensures View() == Resume(old(View()))
    {
      if paused && !(stoppedReason.Some? && stoppedReason.value != "") {
        paused := false;
      }
    }

    method StopFor(reason: string)
      modifies this
      ensures View() == Stop(old(View()), reason)
    {
      if !(stoppedReason.Some? && stoppedReason.value != "") {
        stoppedReason := Some(reason);
        paused := true;
      }
    }

    method MayAdmit() returns (ok: bool)
      ensures ok == CanAdmit(View(), limits)
    {
      if stoppedReason.Some? && stoppedReason.value != "" {
        return false;
      }
      if paused {
        return false;
      }
      return !(admittedCount >= limits.maxRequests);
    }

    method Take(amount: string) returns (r: Result<nat, Refusal>)
      modifies this
      ensures r == Reserve(old(View()), limits, amount) && View() == AfterReserve(old(View()), limits, r)
    {
      var units := DecimalToUnits(amount);
      var bounds := ParseBounds(limits);
      r := TakeParsed(units, bounds);
    }

    method TakeParsed(units: Result<nat, AmountError>, bounds: Result<Bounds, AmountError>) returns (r: Result<nat, Refusal>)
      modifies this
      ensures r == Decide(old(View()), limits.maxConcurrentFunded, units, bounds) && View() == AfterReserve(old(View()), limits, r)
    {
      if units.Err? {
        return Err(Malformed(units.error));
      }
      if bounds.Err? {
        return Err(Malformed(bounds.error));
      }
      if units.value > bounds.value.amount {
        return Err(AboveMaxAmount);
      }
      if grossUnits + units.value > bounds.value.gross {
        StopFor(Breach(limits, GrossVolume));
        return Err(LimitReached(GrossVolume));
      }
      if outstandingUnits + units.value > bounds.value.outstanding {
        StopFor(Breach(limits, OutstandingPrincipal));
        return Err(LimitReached(OutstandingPrincipal));
      }
      if reserved >= limits.maxConcurrentFunded {
        StopFor(Breach(limits, Concurrency));
        return Err(LimitReached(Concurrency));
      }
      reserved := reserved + 1;
      admittedCount := admittedCount + 1;
      grossUnits := grossUnits + units.value;
      outstandingUnits := outstandingUnits + units.value;
      return Ok(units.value);
    }

    /** The closure a reservation carries. */
    method GiveBack(units: nat)
      modifies this
      ensures View() == Release(old(View()), units)
    {
      reserved := Max(0, reserved - 1);
      outstandingUnits := if 0 > outstandingUnits - units then 0 else outstandingUnits - units;
    }
  }

  // ------------------------------------------------------------ the engine

  /** A dispatch under way: the schedule's indices and how many are past. */
  datatype Dispatch = Dispatch(entries: seq<nat>, position: nat)

  datatype Engine = Engine(guard: Guard, reservations: map<nat, nat>, opOffset: nat, current: Option<Dispatch>,
                           names: seq<nat>, admitted: seq<nat>, returned: nat, lost: seq<nat>)

  const IDLE := Engine(OPEN, map[], 0, None, [], [], 0, [])

  datatype Step =
    | Begin(entries: seq<nat>)
    | Admit(amount: string)
    | End
    | Finished(op: nat)
    | PauseStep | ResumeStep | StopStep(reason: string)

  /** The name of an operation; the engine's maps are keyed by it, here by the number. */
  function OpName(i: nat): string {
    "op-" + Print(i)
  }

  lemma OpNameInjective(i: nat, j: nat)
    requires OpName(i) == OpName(j)
    ensures i == j
  {
    assert Print(i) == OpName(i)[3..] && Print(j) == OpName(j)[3..];
    PrintInjective(i, j);
  }

  predicate Enabled(e: Engine, step: Step) {
    match step
    case Begin(_) => e.current.None?
    case Admit(_) => e.current.Some? && e.current.value.position < |e.current.value.entries|
    case End => e.current.Some?
    case Finished(op) => op in e.reservations
    case _ => true
  }

  /** One turn of the dispatch loop: admitted, or admission over. */
  function AdmitNext(e: Engine, limits: Limits, amount: string): Engine
    requires e.current.Some? && e.current.value.position < |e.current.value.entries|
  {
    Record(e, limits, Reserve(e.guard, limits, amount))
  }

  /** The turn, given what the guard would answer. */
  function Record(e: Engine, limits: Limits, r: Result<nat, Refusal>): Engine
    requires e.current.Some? && e.current.value.position < |e.current.value.entries|
  {
    var d := e.current.value;
    var over := Some(d.(position := |d.entries|));
    if !CanAdmit(e.guard, limits) then e.(current := over)
    else
      var guard := AfterReserve(e.guard, limits, r);
      if r.Err? then e.(guard := guard, current := over)
      else
        var op := e.opOffset + d.entries[d.position];
        e.(guard := guard, reservations := e.reservations[op := r.value], current := Some(d.(position := d.position + 1)),
           names := e.names + [op], admitted := e.admitted + [r.value], lost := e.lost + Overwritten(e, op))
  }

  /** The reservation a new one of the same name pushes out of the map, never to be released. */
  function Overwritten(e: Engine, op: nat): seq<nat> {
    if op in e.reservations then [e.reservations[op]] else []
  }

  function Finish(e: Engine, op: nat): Engine
    requires op in e.reservations
  {
    e.(guard := Release(e.guard, e.reservations[op]), reservations := e.reservations - {op}, returned := e.returned + e.reservations[op])
  }

  function Apply(e: Engine, limits: Limits, step: Step): Engine
    requires Enabled(e, step)
  {
    match step
    case Begin(entries) => e.(current := Some(Dispatch(entries, 0)))
    case Admit(amount) => AdmitNext(e, limits, amount)
    case End => e.(opOffset := e.opOffset + |e.current.value.entries|, current := None)
    case Finished(op) => Finish(e, op)
    case PauseStep => e.(guard := Pause(e.guard))
    case ResumeStep => e.(guard := Resume(e.guard))
    case StopStep(reason) => e.(guard := Stop(e.guard, reason))
  }

  ghost predicate IsRun(e: Engine, limits: Limits, steps: seq<Step>)
    decreases |steps|
  {
    steps == [] || (Enabled(e, steps[0]) && IsRun(Apply(e, limits, steps[0]), limits, steps[1..]))
  }

  ghost function After(e: Engine, limits: Limits, steps: seq<Step>): Engine
    requires IsRun(e, limits, steps)
    decreases |steps|
  {
    if steps == [] then e else After(Apply(e, limits, steps[0]), limits, steps[1..])
  }

  // ------------------------------------------------------------ sums

  ghost function Sum(m: map<nat, nat>): nat
    decreases |m|
  {
    if m == map[] then 0
    else
      var op :| op in m;
      assert |m - {op}| < |m| by { SmallerMap(m, op); }
      m[op] + Sum(m - {op})
  }

  lemma SmallerMap(m: map<nat, nat>, op: nat)
    requires op in m
    ensures |m - {op}| == |m| - 1
  {
    assert m.Keys == (m - {op}).Keys + {op};
    assert |m.Keys| == |m| && |(m - {op}).Keys| == |m - {op}|;
  }

  /** The sum does not depend on the order the entries are taken in. */
  lemma {:induction false} SumRemove(m: map<nat, nat>, op: nat)
    requires op in m
    ensures Sum(m) == m[op] + Sum(m - {op})
    decreases |m|
  {
    var first :| first in m && Sum(m) == m[first] + Sum(m - {first});
    if first != op {
      SmallerMap(m, first);
      SmallerMap(m, op);
      SumRemove(m - {first}, op);
      SumRemove(m - {op}, first);
      assert m - {first} - {op} == m - {op} - {first};
    }
  }

  lemma SumPut(m: map<nat, nat>, op: nat, units: nat)
    ensures Sum(m[op := units]) + (if op in m then m[op] else 0) == Sum(m) + units
    ensures |m[op := units]| + (if op in m then 1 else 0) == |m| + 1
  {
    var put := m[op := units];
    SumRemove(put, op);
    SmallerMap(put, op);
    if op in m {
      SumRemove(m, op);
      SmallerMap(m, op);
      assert put - {op} == m - {op};
    } else {
      assert put - {op} == m;
    }
  }

  function Total(s: seq<nat>): nat {
    if s == [] then 0 else Total(s[..|s| - 1]) + s[|s| - 1]
  }

  // ------------------------------------------------------------ the invariant

  ghost predicate Schedule(e: Engine) {
    e.current.Some? ==> e.current.value.position <= |e.current.value.entries|
  }

  /**
   * Every unit is accounted for: what is out is what is reserved or was pushed out of the map,
   * and what was admitted is what is out or came back.
   */
  ghost predicate Conserved(e: Engine) {
    && e.guard.outstanding == Sum(e.reservations) + Total(e.lost)
    && e.guard.reserved == |e.reservations| + |e.lost|
    && e.guard.gross == Total(e.admitted)
    && e.guard.gross == e.guard.outstanding + e.returned
    && e.guard.admitted == |e.admitted|
  }

  ghost predicate WithinLimits(e: Engine, limits: Limits, bounds: Result<Bounds, AmountError>) {
    && e.guard.reserved <= Max(0, limits.maxConcurrentFunded)
    && e.guard.admitted <= Max(0, limits.maxRequests)
    && (e.admitted != [] ==>
          && bounds.Ok? && e.guard.gross <= bounds.value.gross && e.guard.outstanding <= bounds.value.outstanding
          && forall i :: 0 <= i < |e.admitted| ==> e.admitted[i] <= bounds.value.amount)
  }

  ghost predicate Sound(e: Engine, limits: Limits, bounds: Result<Bounds, AmountError>) {
    Schedule(e) && Conserved(e) && WithinLimits(e, limits, bounds)
  }

  ghost predicate Inv(e: Engine, limits: Limits) {
    Sound(e, limits, ParseBounds(limits))
  }

  lemma TotalAppend(s: seq<nat>, more: seq<nat>)
    requires |more| <= 1
    ensures Total(s + more) == Total(s) + (if more == [] then 0 else more[0])
  {
    if more == [] {
      assert s + more == s;
    } else {
      assert (s + more)[..|s|] == s;
    }
  }

  lemma AdmitConserves(e: Engine, limits: Limits, r: Result<nat, Refusal>)
    requires Conserved(e) && Enabled(e, Admit("")) && CanAdmit(e.guard, limits) && r.Ok?
    ensures Conserved(Record(e, limits, r))
  {
    var op := e.opOffset + e.current.value.entries[e.current.value.position];
    SumPut(e.reservations, op, r.value);
    TotalAppend(e.admitted, [r.value]);
    TotalAppend(e.lost, Overwritten(e, op));
  }

  lemma AdmitWithinLimits(e: Engine, limits: Limits, units: Result<nat, AmountError>, bounds: Result<Bounds, AmountError>)
    requires WithinLimits(e, limits, bounds) && Enabled(e, Admit("")) && CanAdmit(e.guard, limits)
    requires Decide(e.guard, limits.maxConcurrentFunded, units, bounds).Ok?
    ensures WithinLimits(Record(e, limits, Decide(e.guard, limits.maxConcurrentFunded, units, bounds)), limits, bounds)
  {
  }

  /** A refusal changes no figure. */
  lemma RefusalKeepsBooks(e: Engine, limits: Limits, r: Result<nat, Refusal>)
    requires Enabled(e, Admit("")) && (!CanAdmit(e.guard, limits) || r.Err?)
    ensures var e' := Record(e, limits, r);
            && e'.reservations == e.reservations && e'.admitted == e.admitted && e'.returned == e.returned && e'.lost == e.lost
            && e'.guard == e.guard.(paused := e'.guard.paused, stoppedReason := e'.guard.stoppedReason)
  {
  }

  lemma AdmitKeepsBooks(e: Engine, limits: Limits, units: Result<nat, AmountError>, bounds: Result<Bounds, AmountError>)
    requires Sound(e, limits, bounds) && Enabled(e, Admit(""))
    ensures var e' := Record(e, limits, Decide(e.guard, limits.maxConcurrentFunded, units, bounds));
            Conserved(e') && WithinLimits(e', limits, bounds)
  {
    var r := Decide(e.guard, limits.maxConcurrentFunded, units, bounds);
    if CanAdmit(e.guard, limits) && r.Ok? {
      AdmitConserves(e, limits, r);
      AdmitWithinLimits(e, limits, units, bounds);
    } else {
      RefusalKeepsBooks(e, limits, r);
    }
  }

  /** A release finds its reservation counted, so neither clamp fires. */
  lemma ClampsNeverFire(e: Engine, limits: Limits, bounds: Result<Bounds, AmountError>, op: nat)
    requires Sound(e, limits, bounds) && op in e.reservations
    ensures e.guard.reserved - 1 >= 0 && e.guard.outstanding - e.reservations[op] >= 0
    ensures Finish(e, op).guard == e.guard.(reserved := e.guard.reserved - 1, outstanding := e.guard.outstanding - e.reservations[op])
  {
    SumRemove(e.reservations, op);
    SmallerMap(e.reservations, op);
  }

  lemma FinishKeeps(e: Engine, limits: Limits, bounds: Result<Bounds, AmountError>, op: nat)
    requires Sound(e, limits, bounds) && op in e.reservations
    ensures Sound(Finish(e, op), limits, bounds)
  {
    ClampsNeverFire(e, limits, bounds, op);
    SumRemove(e.reservations, op);
    SmallerMap(e.reservations, op);
  }

  /** Neither the switches nor the ends of a dispatch touch the books. */
  lemma BooksKept(e: Engine, e': Engine, limits: Limits, bounds: Result<Bounds, AmountError>)
    requires Sound(e, limits, bounds) && Schedule(e')
    requires e'.reservations == e.reservations && e'.admitted == e.admitted && e'.returned == e.returned && e'.lost == e.lost
    requires e'.guard == e.guard.(paused := e'.guard.paused, stoppedReason := e'.guard.stoppedReason)
    ensures Sound(e', limits, bounds)
  {
  }

  lemma StepKeeps(e: Engine, limits: Limits, step: Step)
    requires Inv(e, limits) && Enabled(e, step)
    ensures Inv(Apply(e, limits, step), limits)
  {
    match step
    case Admit(amount) =>
      AdmitKeepsBooks(e, limits, DecimalToUnits(amount), ParseBounds(limits));
    case Finished(op) => FinishKeeps(e, limits, ParseBounds(limits), op);
    case _ => BooksKept(e, Apply(e, limits, step), limits, ParseBounds(limits));
  }

  lemma {:induction false} RunKeeps(e: Engine, limits: Limits, steps: seq<Step>)
    requires Inv(e, limits) && IsRun(e, limits, steps)
    ensures Inv(After(e, limits, steps), limits)
    decreases |steps|
  {
    if steps != [] {
      StepKeeps(e, limits, steps[0]);
      RunKeeps(Apply(e, limits, steps[0]), limits, steps[1..]);
    }
  }

  // ------------------------------------------------------------ every run

  lemma IdleConserved()
    ensures Conserved(IDLE) && Schedule(IDLE)
  {
    assert IDLE.reservations == map[] && IDLE.lost == [] && IDLE.admitted == [] && IDLE.current.None?;
  }

  lemma {:induction false} IdleSound(limits: Limits, bounds: Result<Bounds, AmountError>)
    ensures Sound(IDLE, limits, bounds)
  {
    IdleConserved();
    IdleWithin(limits, bounds);
  }

  lemma {:induction false} IdleWithin(limits: Limits, bounds: Result<Bounds, AmountError>)
    ensures WithinLimits(IDLE, limits, bounds)
  {
    assert IDLE.admitted == [];
    assert IDLE.guard.reserved == 0 && IDLE.guard.admitted == 0;
  }

  lemma {:induction false} Reached(limits: Limits, steps: seq<Step>)
    requires IsRun(IDLE, limits, steps)
    ensures Inv(After(IDLE, limits, steps), limits)
  {
    IdleSound(limits, ParseBounds(limits));
    RunKeeps(IDLE, limits, steps);
  }

  /**
   * Over every run and whatever the schedules: outstanding is the sum of what is reserved and of
   * what was pushed out of the map, gross is all that was admitted, and no limit is passed.
   */
  lemma MoneyConserved(limits: Limits, steps: seq<Step>)
    requires IsRun(IDLE, limits, steps)
    ensures Conserved(After(IDLE, limits, steps))
    ensures WithinLimits(After(IDLE, limits, steps), limits, ParseBounds(limits))
  {
    Reached(limits, steps);
  }

  /** The books agree with the map exactly when no reservation was ever pushed out of it. */
  lemma MapAgreesExactly(limits: Limits, steps: seq<Step>)
    requires IsRun(IDLE, limits, steps)
    ensures var e := After(IDLE, limits, steps);
            e.guard.outstanding == Sum(e.reservations) && e.guard.reserved == |e.reservations| <==> e.lost == []
  {
    Reached(limits, steps);
  }

  /** A release gives back exactly its reservation: neither clamp ever fires. */
  lemma ReleasedExactly(limits: Limits, steps: seq<Step>, op: nat)
    requires IsRun(IDLE, limits, steps) && op in After(IDLE, limits, steps).reservations
    ensures var e := After(IDLE, limits, steps);
            var e' := Apply(e, limits, Finished(op));
            && op !in e'.reservations
            && e'.guard.outstanding == e.guard.outstanding - e.reservations[op] >= 0
            && e'.guard.reserved == e.guard.reserved - 1 >= 0
  {
    Reached(limits, steps);
    ClampsNeverFire(After(IDLE, limits, steps), limits, ParseBounds(limits), op);
  }

  // ------------------------------------------------------------ stopping

  lemma {:induction false} StopStands(e: Engine, limits: Limits, steps: seq<Step>)
    requires Stopped(e.guard) && IsRun(e, limits, steps)
    ensures After(e, limits, steps).guard.stoppedReason == e.guard.stoppedReason
    ensures After(e, limits, steps).admitted == e.admitted && !CanAdmit(After(e, limits, steps).guard, limits)
    decreases |steps|
  {
    if steps != [] {
      StopStands(Apply(e, limits, steps[0]), limits, steps[1..]);
    }
  }

  /** The request count never goes down. */
  lemma {:induction false} FullStaysFull(e: Engine, limits: Limits, steps: seq<Step>)
    requires e.guard.admitted >= limits.maxRequests && IsRun(e, limits, steps)
    ensures !CanAdmit(After(e, limits, steps).guard, limits)
    decreases |steps|
  {
    if steps != [] {
      FullStaysFull(Apply(e, limits, steps[0]), limits, steps[1..]);
    }
  }

  ghost predicate NeverAdmits(e: Engine, limits: Limits) {
    forall steps :: IsRun(e, limits, steps) ==> !CanAdmit(After(e, limits, steps).guard, limits)
  }

  /**
   * No sequence of pauses, resumes, releases or dispatches undoes a stop, as long as it gave a
   * reason: an empty reason reads as none, and a resume then lifts it.
   */
  lemma StopIsFinalExactly(e: Engine, limits: Limits, reason: string)
    ensures NeverAdmits(Apply(e, limits, StopStep(reason)), limits)
            <==> reason != "" || Stopped(e.guard) || e.guard.admitted >= limits.maxRequests
  {
    var stopped := Apply(e, limits, StopStep(reason));
    if reason != "" || Stopped(e.guard) {
      forall steps | IsRun(stopped, limits, steps)
        ensures !CanAdmit(After(stopped, limits, steps).guard, limits)
      {
        StopStands(stopped, limits, steps);
      }
    } else if e.guard.admitted >= limits.maxRequests {
      forall steps | IsRun(stopped, limits, steps)
        ensures !CanAdmit(After(stopped, limits, steps).guard, limits)
      {
        FullStaysFull(stopped, limits, steps);
      }
    } else {
      var steps := [ResumeStep];
      assert IsRun(stopped, limits, steps) && After(stopped, limits, steps) == Apply(stopped, limits, ResumeStep);
      assert CanAdmit(After(stopped, limits, steps).guard, limits);
    }
  }

  // ------------------------------------------------------------ the engine object

  class EngineBox {
    const guards: GuardBox
    var reservations: map<nat, nat>
    var opOffset: nat
    var current: Option<Dispatch>
    ghost var names: seq<nat>
    ghost var admitted: seq<nat>
    ghost var returned: nat
    ghost var lost: seq<nat>

    ghost function View(): Engine
      reads this, guards
    {
      Engine(guards.View(), reservations, opOffset, current, names, admitted, returned, lost)
    }

    constructor (limits: Limits)
      ensures View() == IDLE && fresh(guards) && guards.limits == limits
    {
      guards := new GuardBox(limits);
      reservations := map[];
      opOffset := 0;
      current := None;
      names := [];
      admitted := [];
      returned := 0;
      lost := [];
    }

    /** One turn of the dispatch loop, between two awaits; false ends the loop. */
    method DispatchNext(amount: string) returns (more: bool)
      requires Enabled(View(), Admit(amount))
      modifies this, guards
      ensures View() == Apply(old(View()), guards.limits, Admit(amount))
    {
      var units := DecimalToUnits(amount);
      var bounds := ParseBounds(guards.limits);
      more := DispatchParsed(units, bounds);
    }

    method DispatchParsed(units: Result<nat, AmountError>, bounds: Result<Bounds, AmountError>) returns (more: bool)
      requires current.Some? && current.value.position < |current.value.entries|
      modifies this, guards
      ensures View() == Record(old(View()), guards.limits, Decide(old(guards.View()), guards.limits.maxConcurrentFunded, units, bounds))
    {
      var d := current.value;
      var ok := guards.MayAdmit();
      if !ok {
        current := Some(d.(position := |d.entries|));
        return false;
      }
      var op := opOffset + d.entries[d.position];
      var reservation := guards.TakeParsed(units, bounds);
      if reservation.Err? {
        current := Some(d.(position := |d.entries|));
        return false;
      }
      lost := lost + Overwritten(old(View()), op);
      reservations := reservations[op := reservation.value];
      current := Some(d.(position := d.position + 1));
      names := names + [op];
      admitted := admitted + [reservation.value];
      return true;
    }

    /** Release one reservation and forget it. */
    method ReleaseOne(op: nat, ghost bounds: Result<Bounds, AmountError>)
      requires op in reservations && Sound(View(), guards.limits, bounds)
      modifies this, guards
      ensures View() == Finish(old(View()), op) && Sound(View(), guards.limits, bounds)
    {
      FinishKeeps(View(), guards.limits, bounds, op);
      guards.GiveBack(reservations[op]);
      returned := returned + reservations[op];
      reservations := reservations - {op};
      assert View() == Finish(old(View()), op);
    }

    /** Release every reservation whose operation is finished, and only those; nothing else about the run changes. */
    method ReleaseFinished(finished: set<nat>, ghost bounds: Result<Bounds, AmountError>)
      requires Sound(View(), guards.limits, bounds)
      modifies this, guards
      ensures Sound(View(), guards.limits, bounds)
      ensures OnlyReleased(old(View()), View(), finished)
    {
      var todo := reservations.Keys;
      ghost var gone: set<nat> := {};
      while todo != {}
        invariant Sound(View(), guards.limits, bounds)
        invariant todo <= View().reservations.Keys
        invariant OnlyReleased(old(View()), View(), gone) && gone <= finished
        invariant forall op :: op in View().reservations && op in finished ==> op in todo
        decreases todo
      {
        var op :| op in todo;
        todo := todo - {op};
        if op in finished {
          ReleasedMore(old(View()), View(), gone, op);
          ReleaseOne(op, bounds);
          gone := gone + {op};
        }
      }
      ReleasedAll(old(View()), View(), gone, finished);
    }
  }

  /** The state after exactly these operations gave their reservations back. */
  ghost predicate OnlyReleased(before: Engine, after: Engine, gone: set<nat>) {
    && after.reservations == before.reservations - gone
    && after == before.(reservations := after.reservations, returned := after.returned,
                        guard := before.guard.(reserved := after.guard.reserved, outstanding := after.guard.outstanding))
  }

  lemma {:induction false} ReleasedMore(before: Engine, mid: Engine, gone: set<nat>, op: nat)
    requires OnlyReleased(before, mid, gone) && op in mid.reservations
    ensures OnlyReleased(before, Finish(mid, op), gone + {op})
    ensures Finish(mid, op).reservations.Keys == mid.reservations.Keys - {op}
  {
    assert before.reservations - (gone + {op}) == before.reservations - gone - {op};
  }

  lemma {:induction false} ReleasedAll(before: Engine, after: Engine, gone: set<nat>, finished: set<nat>)
    requires OnlyReleased(before, after, gone) && gone <= finished
    requires forall op :: op in after.reservations ==> op !in finished
    ensures OnlyReleased(before, after, finished)
  {
    assert before.reservations - finished == before.reservations - gone;
  }
}
