/**
 * When operation names repeat: the run-wide numbering of `Engine.dispatch` in
 * benchmarks/gum-load/src/run.ts over the schedules of benchmarks/gum-load/src/scheduler.ts.
 */
module GuardNumbers {
  import opened Prelude
  import opened Amounts
  import opened Guards

  // ------------------------------------------------------------ the numbers of a run

  function Shift(entries: seq<nat>, offset: nat): (r: seq<nat>)
    ensures |r| == |entries|
  {
    if entries == [] then [] else [offset + entries[0]] + Shift(entries[1..], offset)
  }

  lemma {:induction false} ShiftAt(entries: seq<nat>, offset: nat, i: nat)
    requires i < |entries|
    ensures Shift(entries, offset)[i] == offset + entries[i]
  {
    if i > 0 {
      ShiftAt(entries[1..], offset, i - 1);
    }
  }

  lemma {:induction false} ShiftFirst(entries: seq<nat>, p: nat, offset: nat)
    requires p < |entries|
    ensures Shift(entries[p..], offset) == [offset + entries[p]] + Shift(entries[p + 1..], offset)
  {
    assert entries[p..][1..] == entries[p + 1..];
  }

  /** The operation numbers dispatches hand out in turn: each after the entries of those before it. */
  function Numbers(dispatches: seq<seq<nat>>, offset: nat): seq<nat> {
    if dispatches == [] then [] else Shift(dispatches[0], offset) + Numbers(dispatches[1..], offset + |dispatches[0]|)
  }

  /** The schedules a run dispatches. */
  function Dispatches(steps: seq<Step>): seq<seq<nat>> {
    if steps == [] then [] else (if steps[0].Begin? then [steps[0].entries] else []) + Dispatches(steps[1..])
  }

  /** The numbers still to come: the rest of the dispatch under way, then further dispatches. */
  function Coming(e: Engine, dispatches: seq<seq<nat>>): seq<nat> {
    if e.current.None? then Numbers(dispatches, e.opOffset) else RestNumbers(e) + LaterNumbers(e, dispatches)
  }

  function RestNumbers(e: Engine): seq<nat>
    requires e.current.Some?
  {
    var d := e.current.value;
    if d.position <= |d.entries| then Shift(d.entries[d.position..], e.opOffset) else []
  }

  function LaterNumbers(e: Engine, dispatches: seq<seq<nat>>): seq<nat>
    requires e.current.Some?
  {
    Numbers(dispatches, e.opOffset + |e.current.value.entries|)
  }

  /** Nothing is there twice. */
  ghost predicate Single(m: multiset<nat>) {
    forall x :: m[x] <= 1
  }

  lemma {:induction false} SingleIsDistinct(s: seq<nat>)
    ensures Single(multiset(s)) <==> Distinct(s)
  {
    if s != [] {
      var rest := s[1..];
      SingleIsDistinct(rest);
      SingleHead(s[0], multiset(rest));
      DistinctHead(s);
      assert s == [s[0]] + rest;
      assert multiset(s) == multiset{s[0]} + multiset(rest);
    }
  }

  lemma SingleHead(x: nat, rest: multiset<nat>)
    ensures Single(multiset{x} + rest) <==> Single(rest) && x !in rest
  {
    var all := multiset{x} + rest;
    if Single(all) {
      assert all[x] == rest[x] + 1;
      assert forall y :: rest[y] <= all[y];
    }
    if Single(rest) && x !in rest {
      assert forall y :: all[y] == if y == x then 1 else rest[y];
    }
  }

  lemma DistinctHead<T>(s: seq<T>)
    requires s != []
    ensures Distinct(s) <==> Distinct(s[1..]) && s[0] !in s[1..]
  {
    if Distinct(s) {
      assert forall i :: 0 <= i < |s[1..]| ==> s[1..][i] == s[i + 1];
    } else {
      assert forall i :: 0 < i < |s| ==> s[i] == s[1..][i - 1];
    }
  }

  /** The names given and to come. */
  ghost function Names(e: Engine, dispatches: seq<seq<nat>>): multiset<nat> {
    multiset(e.names) + multiset(Coming(e, dispatches))
  }

  /** They are all different, and nothing was pushed out of the map. */
  ghost predicate Clear(e: Engine, dispatches: seq<seq<nat>>) {
    Single(Names(e, dispatches)) && Held(e)
  }

  /** Only named operations hold reservations, and none was pushed out. */
  ghost predicate Held(e: Engine) {
    (forall op :: op in e.reservations ==> op in e.names) && e.lost == []
  }

  ghost predicate Apart<T>(a: seq<T>, b: seq<T>) {
    forall x :: x in a ==> x !in b
  }

  lemma DistinctParts<T>(a: seq<T>, b: seq<T>)
    ensures Distinct(a + b) <==> Distinct(a) && Distinct(b) && Apart(a, b)
  {
    var all := a + b;
    if Distinct(all) {
      assert forall i :: 0 <= i < |a| ==> a[i] == all[i];
      assert forall i :: 0 <= i < |b| ==> b[i] == all[|a| + i];
    }
    if Distinct(a) && Distinct(b) && Apart(a, b) {
      forall i, j | 0 <= i < j < |all|
        ensures all[i] != all[j]
      {
        assert all[i] == if i < |a| then a[i] else b[i - |a|];
        assert all[j] == if j < |a| then a[j] else b[j - |a|];
        assert (i < |a| ==> all[i] in a) && (j >= |a| ==> all[j] in b);
      }
    }
  }

  /** An admission moves the first number to come over to the names. */
  lemma {:induction false} AdmittedClear(e: Engine, limits: Limits, r: Result<nat, Refusal>, dispatches: seq<seq<nat>>)
    requires Clear(e, dispatches) && Enabled(e, Admit("")) && CanAdmit(e.guard, limits) && r.Ok?
    ensures Clear(Record(e, limits, r), dispatches)
  {
    ComingMoves(e, Record(e, limits, r), dispatches);
    NextIsNew(e, dispatches);
    AdmittedHeld(e, limits, r);
  }

  lemma AdmittedHeld(e: Engine, limits: Limits, r: Result<nat, Refusal>)
    requires Held(e) && Enabled(e, Admit("")) && CanAdmit(e.guard, limits) && r.Ok? && NextNumber(e) !in e.names
    ensures Held(Record(e, limits, r))
  {
    assert NextNumber(e) !in e.reservations;
  }

  /** The number of the entry to dispatch, and those after it in its dispatch. */
  function NextNumber(e: Engine): nat
    requires Enabled(e, Admit(""))
  {
    e.opOffset + e.current.value.entries[e.current.value.position]
  }

  function RestOfDispatch(e: Engine): seq<nat>
    requires Enabled(e, Admit(""))
  {
    Shift(e.current.value.entries[e.current.value.position + 1..], e.opOffset)
  }

  lemma {:induction false} ComingParts(e: Engine, dispatches: seq<seq<nat>>)
    requires Enabled(e, Admit(""))
    ensures Coming(e, dispatches) == ([NextNumber(e)] + RestOfDispatch(e)) + LaterNumbers(e, dispatches)
  {
    ShiftFirst(e.current.value.entries, e.current.value.position, e.opOffset);
  }

  lemma {:induction false} ComingNext(e: Engine, e': Engine, dispatches: seq<seq<nat>>)
    requires Enabled(e, Admit("")) && e'.opOffset == e.opOffset
    requires e'.current == Some(e.current.value.(position := e.current.value.position + 1))
    ensures Coming(e', dispatches) == RestOfDispatch(e) + LaterNumbers(e, dispatches)
  {
  }

  /** Moving a number from what is to come to the names changes nothing about them all. */
  lemma {:induction false} ComingMoves(e: Engine, e': Engine, dispatches: seq<seq<nat>>)
    requires Enabled(e, Admit("")) && e'.names == e.names + [NextNumber(e)] && e'.opOffset == e.opOffset
    requires e'.current == Some(e.current.value.(position := e.current.value.position + 1))
    ensures Names(e', dispatches) == Names(e, dispatches)
  {
    ComingParts(e, dispatches);
    ComingNext(e, e', dispatches);
  }

  /** The next number is new. */
  lemma {:induction false} NextIsNew(e: Engine, dispatches: seq<seq<nat>>)
    requires Enabled(e, Admit("")) && Single(Names(e, dispatches))
    ensures NextNumber(e) !in e.names
  {
    ComingParts(e, dispatches);
    assert Names(e, dispatches)[NextNumber(e)] >= multiset(e.names)[NextNumber(e)] + 1;
  }

  /** A turn that is refused drops the rest of its dispatch. */
  lemma {:induction false} RefusedClear(e: Engine, limits: Limits, r: Result<nat, Refusal>, dispatches: seq<seq<nat>>)
    requires Clear(e, dispatches) && Enabled(e, Admit("")) && !(CanAdmit(e.guard, limits) && r.Ok?)
    ensures Clear(Record(e, limits, r), dispatches)
  {
    var e' := Record(e, limits, r);
    ComingDropped(e, e', dispatches);
    Fewer(Names(e', dispatches), Names(e, dispatches));
  }

  lemma Fewer(a: multiset<nat>, b: multiset<nat>)
    requires a <= b && Single(b)
    ensures Single(a)
  {
  }

  /** Skipping to the end of a dispatch, or past it, drops the rest of its numbers. */
  lemma {:induction false} ComingDropped(e: Engine, e': Engine, dispatches: seq<seq<nat>>)
    requires e.current.Some? && e'.names == e.names
    requires || (e'.opOffset == e.opOffset && e'.current == Some(e.current.value.(position := |e.current.value.entries|)))
             || (e'.opOffset == e.opOffset + |e.current.value.entries| && e'.current.None?)
    ensures Names(e', dispatches) <= Names(e, dispatches)
  {
    ComingLater(e', LaterNumbers(e, dispatches), dispatches);
    MoreNumbers(e.names, RestNumbers(e), LaterNumbers(e, dispatches));
  }

  lemma MoreNumbers(names: seq<nat>, rest: seq<nat>, later: seq<nat>)
    ensures multiset(names) + multiset(later) <= multiset(names) + multiset(rest + later)
  {
    assert multiset(rest + later) == multiset(rest) + multiset(later);
  }

  lemma {:induction false} ComingLater(e: Engine, later: seq<nat>, dispatches: seq<seq<nat>>)
    requires || (e.current.None? && later == Numbers(dispatches, e.opOffset))
             || (e.current.Some? && e.current.value.position == |e.current.value.entries| && later == LaterNumbers(e, dispatches))
    ensures Coming(e, dispatches) == later
  {
  }

  lemma {:induction false} EndClear(e: Engine, limits: Limits, dispatches: seq<seq<nat>>)
    requires Clear(e, dispatches) && Enabled(e, End)
    ensures Clear(Apply(e, limits, End), dispatches)
  {
    var e' := Apply(e, limits, End);
    ComingDropped(e, e', dispatches);
    Fewer(Names(e', dispatches), Names(e, dispatches));
  }

  lemma {:induction false} BeginClear(e: Engine, limits: Limits, entries: seq<nat>, dispatches: seq<seq<nat>>)
    requires Clear(e, [entries] + dispatches) && e.current.None?
    ensures Clear(Apply(e, limits, Begin(entries)), dispatches)
  {
    assert ([entries] + dispatches)[1..] == dispatches;
    assert entries[0..] == entries;
    assert Coming(Apply(e, limits, Begin(entries)), dispatches) == Coming(e, [entries] + dispatches);
  }

  lemma {:induction false} StepClear(e: Engine, limits: Limits, step: Step, dispatches: seq<seq<nat>>)
    requires Enabled(e, step) && Clear(e, (if step.Begin? then [step.entries] else []) + dispatches)
    ensures Clear(Apply(e, limits, step), dispatches)
  {
    assert [] + dispatches == dispatches;
    match step
    case Begin(entries) => BeginClear(e, limits, entries, dispatches);
    case Admit(amount) =>
      var r := Reserve(e.guard, limits, amount);
      if CanAdmit(e.guard, limits) && r.Ok? {
        AdmittedClear(e, limits, r, dispatches);
      } else {
        RefusedClear(e, limits, r, dispatches);
      }
    case End => EndClear(e, limits, dispatches);
    case Finished(op) => SameClear(e, Finish(e, op), dispatches);
    case _ => SameClear(e, Apply(e, limits, step), dispatches);
  }

  lemma {:induction false} SameClear(e: Engine, e': Engine, dispatches: seq<seq<nat>>)
    requires Clear(e, dispatches) && e'.names == e.names && e'.current == e.current && e'.opOffset == e.opOffset && e'.lost == e.lost
    requires forall op :: op in e'.reservations ==> op in e.reservations
    ensures Clear(e', dispatches)
  {
    assert Coming(e', dispatches) == Coming(e, dispatches);
  }
}
