/** Which call gets which nonce, read off the steps of a run: `nextNonce` in benchmarks/gum-load/src/wallets.ts. */
module SubmissionNonces {
  import opened Prelude
  import opened SubmissionSlot

  /** The transaction counts the chain answered for a key during a run. */
  ghost function Counts(s: State, steps: seq<Step>, key: Key): seq<nat>
    requires IsRun(s, steps)
    decreases |steps|
  {
    if steps == [] then []
    else
      var rest := Counts(Apply(s, steps[0]), steps[1..], key);
      match steps[0]
      case ReadCount(t, count) => if s.calls[t].key == key then [count] + rest else rest
      case _ => rest
  }

  /** A key without nonces gets its first from the chain; a key with nonces is never asked for again. */
  lemma FirstNonceStep(s: State, step: Step, key: Key)
    requires Inv(s) && Enabled(s, step)
    ensures var a, b := Nonces(s.leases, key), Nonces(Apply(s, step).leases, key);
            if step.ReadCount? && s.calls[step.call].key == key then a == [] && b == [step.count]
            else (a == [] ==> b == []) && (a != [] ==> b != [] && b[0] == a[0])
  {
    assert OwnerRight(s, key);
    match step
    case Enter(t) =>
      if s.calls[t].key in s.owners {
        NoncesAppend(s.leases, Lease(t, s.calls[t].key, s.owners[s.calls[t].key]), key);
      }
    case ReadCount(t, count) =>
      NoncesAppend(s.leases, Lease(t, s.calls[t].key, count), key);
    case _ =>
  }

  lemma {:induction false} FirstNonceIsCount(s: State, steps: seq<Step>, key: Key)
    requires Inv(s) && IsRun(s, steps)
    ensures var a, b := Nonces(s.leases, key), Nonces(After(s, steps).leases, key);
            if a != [] then Counts(s, steps, key) == [] && b != [] && b[0] == a[0]
            else Counts(s, steps, key) == (if b == [] then [] else [b[0]])
    decreases |steps|
  {
    if steps != [] {
      FirstNonceStep(s, steps[0], key);
      StepKeeps(s, steps[0]);
      FirstNonceIsCount(Apply(s, steps[0]), steps[1..], key);
    }
  }

  /**
   * The chain is asked for a key's count at most once, and the nonces handed out for the key
   * are that count, the next, and so on: none is skipped and none is given twice.
   */
  lemma NoncesCountUpFromChain(steps: seq<Step>, key: Key)
    requires IsRun(INITIAL, steps)
    ensures var counts, nonces := Counts(INITIAL, steps, key), Nonces(After(INITIAL, steps).leases, key);
            && |counts| <= 1 && (counts == [] <==> nonces == [])
            && forall i :: 0 <= i < |nonces| ==> nonces[i] == counts[0] + i
  {
    InitialInv();
    FirstNonceIsCount(INITIAL, steps, key);
    NoncesConsecutive(steps, key);
  }

  // ------------------------------------------------------------ the call's own lease

  /** Leases are of calls that got past their gate, one each, and a call works with the nonce of its own. */
  ghost predicate LeasesRight(s: State) {
    && (forall i :: 0 <= i < |s.leases| ==> LeaseRight(s, s.leases[i]))
    && (forall i, j :: 0 <= i < j < |s.leases| ==> s.leases[i].call != s.leases[j].call)
    && (forall i, j :: 0 <= i < j < |s.leases| && s.leases[i].key == s.leases[j].key ==> s.leases[i].call < s.leases[j].call)
    && WorkersLeased(s)
  }

  ghost predicate WorkersLeased(s: State) {
    forall t :: 0 <= t < |s.calls| && s.calls[t].phase.Working? ==> Lease(t, s.calls[t].key, s.calls[t].phase.nonce) in s.leases
  }

  ghost predicate LeaseRight(s: State, lease: Lease) {
    && lease.call < |s.calls| && s.calls[lease.call].key == lease.key
    && (s.calls[lease.call].phase == Working(lease.nonce) || s.calls[lease.call].phase == Done)
  }

  /** A call with a lease of a key came before the one whose turn it is. */
  lemma LeasedEarlier(s: State, t: nat, lease: Lease)
    requires InTurn(s) && LeaseRight(s, lease) && t < |s.calls| && s.calls[t].key == lease.key
    requires s.calls[t].phase.Waiting? || s.calls[t].phase.Reading?
    ensures lease.call < t
  {
    assert DoneBefore(s, lease.call);
  }

  lemma LeaseNonceRight(s: State, t: nat, nonce: nat)
    requires InTurn(s) && LeasesRight(s) && t < |s.calls| && (s.calls[t].phase.Waiting? || s.calls[t].phase.Reading?)
    ensures LeasesRight(LeaseNonce(s, t, nonce))
  {
    var s' := LeaseNonce(s, t, nonce);
    var n := |s.leases|;
    forall i | 0 <= i < n
      ensures s'.leases[i] == s.leases[i] && LeaseRight(s', s'.leases[i]) && s.leases[i].call != t
      ensures s.leases[i].key == s.calls[t].key ==> s.leases[i].call < t
    {
      assert LeaseRight(s, s.leases[i]);
      if s.leases[i].key == s.calls[t].key {
        LeasedEarlier(s, t, s.leases[i]);
      }
    }
    WorkersStayLeased(s, t, nonce);
  }

  lemma WorkersStayLeased(s: State, t: nat, nonce: nat)
    requires WorkersLeased(s) && t < |s.calls|
    ensures WorkersLeased(LeaseNonce(s, t, nonce))
  {
    var s' := LeaseNonce(s, t, nonce);
    assert s'.leases[|s.leases|] == Lease(t, s.calls[t].key, nonce);
    assert forall lease :: lease in s.leases ==> lease in s'.leases;
  }

  lemma ReleaseRight(s: State, t: nat)
    requires LeasesRight(s) && t < |s.calls| && (s.calls[t].phase.Reading? || s.calls[t].phase.Working?)
    ensures LeasesRight(Release(s, t))
  {
    var s' := Release(s, t);
    forall i | 0 <= i < |s'.leases|
      ensures LeaseRight(s', s'.leases[i])
    {
      assert LeaseRight(s, s.leases[i]);
    }
  }

  lemma QuietRight(s: State, s': State)
    requires LeasesRight(s) && s'.leases == s.leases && |s.calls| <= |s'.calls|
    requires forall t :: 0 <= t < |s.calls| ==> s'.calls[t] == s.calls[t] || (s.calls[t].phase.Waiting? && !s'.calls[t].phase.Working?)
    requires forall t :: |s.calls| <= t < |s'.calls| ==> !s'.calls[t].phase.Working?
    ensures LeasesRight(s')
  {
    forall i | 0 <= i < |s'.leases|
      ensures LeaseRight(s', s'.leases[i])
    {
      assert LeaseRight(s, s.leases[i]);
    }
  }

  lemma LeasesStep(s: State, step: Step)
    requires Inv(s) && LeasesRight(s) && Enabled(s, step)
    ensures LeasesRight(Apply(s, step))
  {
    match step
    case Arrive(_) => QuietRight(s, Apply(s, step));
    case Enter(t) =>
      if s.calls[t].key in s.owners {
        LeaseNonceRight(s, t, s.owners[s.calls[t].key]);
        QuietRight(LeaseNonce(s, t, s.owners[s.calls[t].key]), Apply(s, step));
      } else {
        QuietRight(s, Apply(s, step));
      }
    case ReadCount(t, count) => LeaseNonceRight(s, t, count);
    case ReadFails(t) => ReleaseRight(s, t);
    case WorkEnds(t) => ReleaseRight(s, t);
  }

  lemma {:induction false} LeasesKept(s: State, steps: seq<Step>)
    requires Inv(s) && LeasesRight(s) && IsRun(s, steps)
    ensures LeasesRight(After(s, steps))
    decreases |steps|
  {
    if steps != [] {
      StepKeeps(s, steps[0]);
      LeasesStep(s, steps[0]);
      LeasesKept(Apply(s, steps[0]), steps[1..]);
    }
  }

  /** In every run a working call works with the nonce leased to it, and it was leased no other. */
  lemma OwnNonce(steps: seq<Step>, t: nat, i: nat)
    requires IsRun(INITIAL, steps)
    requires var s := After(INITIAL, steps);
             t < |s.calls| && s.calls[t].phase.Working? && i < |s.leases| && s.leases[i].call == t
    ensures var s := After(INITIAL, steps);
            s.leases[i] == Lease(t, s.calls[t].key, s.calls[t].phase.nonce)
  {
    InitialInv();
    LeasesKept(INITIAL, steps);
    assert LeaseRight(After(INITIAL, steps), After(INITIAL, steps).leases[i]);
  }

  /** Every working call has its lease, and the leases of a key went to its calls in arrival order. */
  lemma LeasedInOrder(steps: seq<Step>)
    requires IsRun(INITIAL, steps)
    ensures var s := After(INITIAL, steps);
            && (forall t :: 0 <= t < |s.calls| && s.calls[t].phase.Working? ==>
                  exists i :: 0 <= i < |s.leases| && s.leases[i] == Lease(t, s.calls[t].key, s.calls[t].phase.nonce))
            && (forall i, j :: 0 <= i < j < |s.leases| && s.leases[i].key == s.leases[j].key ==> s.leases[i].call < s.leases[j].call)
  {
    InitialInv();
    LeasesKept(INITIAL, steps);
  }
}
