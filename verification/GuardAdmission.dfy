/** When the engine admits an operation, in terms of what was reserved and returned: benchmarks/gum-load/src/guards.ts. */
module GuardAdmission {
  import opened Prelude
  import opened Amounts
  import opened Guards

  /** Neither stopped for a reason nor paused, and requests left. */
  predicate Willing(e: Engine, limits: Limits) {
    && !e.guard.paused && (e.guard.stoppedReason == None || e.guard.stoppedReason == Some(""))
    && |e.admitted| < limits.maxRequests
  }

  /** The amounts read, and this one is not above the largest approved. */
  predicate Approved(units: Result<nat, AmountError>, most: Result<nat, AmountError>, gross: Result<nat, AmountError>, out: Result<nat, AmountError>) {
    units.Ok? && most.Ok? && gross.Ok? && out.Ok? && units.value <= most.value
  }

  /** No limit would be passed: on all that was ever admitted, on what is still out, and on how many are. */
  ghost predicate Fits(e: Engine, concurrent: int, units: nat, gross: nat, out: nat) {
    && Total(e.admitted) + units <= gross
    && Sum(e.reservations) + Total(e.lost) + units <= out
    && |e.reservations| + |e.lost| < concurrent
  }

  ghost predicate Room(e: Engine, limits: Limits, units: Result<nat, AmountError>, most: Result<nat, AmountError>, gross: Result<nat, AmountError>, out: Result<nat, AmountError>) {
    Willing(e, limits) && Approved(units, most, gross, out) && Fits(e, limits.maxConcurrentFunded, units.value, gross.value, out.value)
  }

  function BoundsFrom(most: Result<nat, AmountError>, gross: Result<nat, AmountError>, out: Result<nat, AmountError>): Result<Bounds, AmountError> {
    if most.Err? then Err(most.error)
    else if gross.Err? then Err(gross.error)
    else if out.Err? then Err(out.error)
    else Ok(Bounds(most.value, gross.value, out.value))
  }

  /**
   * What one turn of the dispatch loop does: with room the operation gets its number and its
   * reservation; otherwise the dispatch is over, and admission is stopped for a reason exactly if
   * it was a limit that stood in the way.
   */
  ghost predicate Turn(e: Engine, t: Engine, limits: Limits, units: Result<nat, AmountError>, most: Result<nat, AmountError>, gross: Result<nat, AmountError>, out: Result<nat, AmountError>)
    requires e.current.Some? && e.current.value.position < |e.current.value.entries|
  {
    var d, room := e.current.value, Room(e, limits, units, most, gross, out);
    && (if room then
          var op := e.opOffset + d.entries[d.position];
          && t.admitted == e.admitted + [units.value] && t.names == e.names + [op]
          && t.reservations == e.reservations[op := units.value] && t.current == Some(Dispatch(d.entries, d.position + 1))
        else
          && t.admitted == e.admitted && t.names == e.names && t.reservations == e.reservations
          && t.current == Some(Dispatch(d.entries, |d.entries|)))
    && (if !room && Willing(e, limits) && Approved(units, most, gross, out)
        then t.guard.paused && t.guard.stoppedReason.Some? && t.guard.stoppedReason.value != ""
        else t.guard.paused == e.guard.paused && t.guard.stoppedReason == e.guard.stoppedReason)
  }

  /** One turn, with the texts read. */
  lemma TurnExactly(e: Engine, limits: Limits, units: Result<nat, AmountError>, most: Result<nat, AmountError>, gross: Result<nat, AmountError>, out: Result<nat, AmountError>)
    requires Conserved(e) && Enabled(e, Admit(""))
    ensures Turn(e, Record(e, limits, Decide(e.guard, limits.maxConcurrentFunded, units, BoundsFrom(most, gross, out))), limits, units, most, gross, out)
  {
  }

  lemma ReadBounds(limits: Limits, most: Result<nat, AmountError>, gross: Result<nat, AmountError>, out: Result<nat, AmountError>)
    requires most == DecimalToUnits(limits.maxAmount)
    requires gross == DecimalToUnits(limits.maxGrossVolume) && out == DecimalToUnits(limits.maxOutstandingPrincipal)
    ensures ParseBounds(limits) == BoundsFrom(most, gross, out)
  {
  }

  lemma AdmitIsTurn(e: Engine, limits: Limits, amount: string, units: Result<nat, AmountError>, bounds: Result<Bounds, AmountError>)
    requires Enabled(e, Admit(amount)) && units == DecimalToUnits(amount) && bounds == ParseBounds(limits)
    ensures Apply(e, limits, Admit(amount)) == Record(e, limits, Decide(e.guard, limits.maxConcurrentFunded, units, bounds))
  {
  }

  lemma TurnFrom(e: Engine, t: Engine, limits: Limits, bounds: Result<Bounds, AmountError>, units: Result<nat, AmountError>, most: Result<nat, AmountError>,
                 gross: Result<nat, AmountError>, out: Result<nat, AmountError>)
    requires Conserved(e) && Enabled(e, Admit("")) && bounds == BoundsFrom(most, gross, out)
    requires t == Record(e, limits, Decide(e.guard, limits.maxConcurrentFunded, units, bounds))
    ensures Turn(e, t, limits, units, most, gross, out)
  {
    TurnExactly(e, limits, units, most, gross, out);
  }

  lemma {:induction false} Admits(e: Engine, limits: Limits, amount: string, units: Result<nat, AmountError>, most: Result<nat, AmountError>,
                                  gross: Result<nat, AmountError>, out: Result<nat, AmountError>)
    requires Conserved(e) && Enabled(e, Admit(amount)) && units == DecimalToUnits(amount) && ParseBounds(limits) == BoundsFrom(most, gross, out)
    ensures Turn(e, Apply(e, limits, Admit(amount)), limits, units, most, gross, out)
  {
    AdmitIsTurn(e, limits, amount, units, BoundsFrom(most, gross, out));
    TurnFrom(e, Apply(e, limits, Admit(amount)), limits, BoundsFrom(most, gross, out), units, most, gross, out);
  }

  /**
   * In every run an operation is admitted exactly when admission is open, its amount is approved
   * and no limit would be passed on what the run has admitted and not yet returned.
   */
  lemma {:induction false} AdmittedExactly(limits: Limits, steps: seq<Step>, e: Engine, amount: string, units: Result<nat, AmountError>,
                                           most: Result<nat, AmountError>, gross: Result<nat, AmountError>, out: Result<nat, AmountError>)
    requires IsRun(IDLE, limits, steps) && e == After(IDLE, limits, steps) && Enabled(e, Admit(amount))
    requires units == DecimalToUnits(amount) && most == DecimalToUnits(limits.maxAmount)
    requires gross == DecimalToUnits(limits.maxGrossVolume) && out == DecimalToUnits(limits.maxOutstandingPrincipal)
    ensures Turn(e, Apply(e, limits, Admit(amount)), limits, units, most, gross, out)
  {
    RunConserved(limits, steps, e);
    ReadBounds(limits, most, gross, out);
    Admits(e, limits, amount, units, most, gross, out);
  }

  lemma {:induction false} RunConserved(limits: Limits, steps: seq<Step>, e: Engine)
    requires IsRun(IDLE, limits, steps) && e == After(IDLE, limits, steps)
    ensures Conserved(e)
  {
    MoneyConserved(limits, steps);
  }

  /** From a pause until a resume nothing is admitted. */
  lemma {:induction false} PausedAdmitsNothing(e: Engine, limits: Limits, steps: seq<Step>)
    requires IsRun(e, limits, [PauseStep] + steps) && forall i :: 0 <= i < |steps| ==> !steps[i].ResumeStep?
    ensures After(e, limits, [PauseStep] + steps).admitted == e.admitted
  {
    assert ([PauseStep] + steps)[1..] == steps;
    PauseStands(Apply(e, limits, PauseStep), limits, steps);
  }

  lemma {:induction false} PauseStands(e: Engine, limits: Limits, steps: seq<Step>)
    requires e.guard.paused && IsRun(e, limits, steps) && forall i :: 0 <= i < |steps| ==> !steps[i].ResumeStep?
    ensures After(e, limits, steps).guard.paused && After(e, limits, steps).admitted == e.admitted
    decreases |steps|
  {
    if steps != [] {
      PauseOutlasts(e, limits, steps[0]);
      PauseStands(Apply(e, limits, steps[0]), limits, steps[1..]);
    }
  }

  lemma PauseOutlasts(e: Engine, limits: Limits, step: Step)
    requires e.guard.paused && Enabled(e, step) && !step.ResumeStep?
    ensures Apply(e, limits, step).guard.paused && Apply(e, limits, step).admitted == e.admitted
  {
  }
}
