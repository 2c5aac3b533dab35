/**
 * The per-wallet submission slot and its nonce sequence, as interleaved async calls:
 * `WalletPool.withSubmissionSlot` and `nextNonce` in benchmarks/gum-load/src/wallets.ts.
 * A call runs without interruption between its awaits; each step below is one such stretch.
 */
module SubmissionSlot {
  import opened Prelude

  /** A chain and a wallet. */
  type Key = string

  /** Where a call stands: behind its predecessor's gate, reading the nonce, working, or past its `finally`. */
  datatype Phase = Waiting | Reading | Working(nonce: nat) | Done

  /** A call and its gate; the gate is released exactly when the call is done. */
  datatype Call = Call(key: Key, previous: Option<nat>, phase: Phase)

  /** A nonce handed out: to which call, of which key. */
  datatype Lease = Lease(call: nat, key: Key, nonce: nat)

  datatype State = State(calls: seq<Call>, pending: map<Key, nat>, owners: map<Key, nat>,
                         entered: seq<nat>, leases: seq<Lease>)

  const INITIAL := State([], map[], map[], [], [])

  /** The stretches; work may end by returning or by throwing, and its `finally` block runs either way. */
  datatype Step =
    | Arrive(key: Key)
    | Enter(call: nat)
    | ReadCount(call: nat, count: nat)
    | ReadFails(call: nat)
    | WorkEnds(call: nat)

  predicate Enabled(s: State, step: Step) {
    match step
    case Arrive(_) => true
    case Enter(t) =>
      && t < |s.calls| && s.calls[t].phase.Waiting?
      && (s.calls[t].previous.Some? ==> s.calls[t].previous.value < |s.calls| && s.calls[s.calls[t].previous.value].phase.Done?)
    case ReadCount(t, _) => t < |s.calls| && s.calls[t].phase.Reading?
    case ReadFails(t) => t < |s.calls| && s.calls[t].phase.Reading?
    case WorkEnds(t) => t < |s.calls| && s.calls[t].phase.Working?
  }

  function Lookup(m: map<Key, nat>, key: Key): Option<nat> {
    if key in m then Some(m[key]) else None
  }

  function SetPhase(s: State, t: nat, phase: Phase): State
    requires t < |s.calls|
  {
    s.(calls := s.calls[t := s.calls[t].(phase := phase)])
  }

  /** Hand the owned nonce to the call and move the sequence on. */
  function LeaseNonce(s: State, t: nat, nonce: nat): State
    requires t < |s.calls|
  {
    var key := s.calls[t].key;
    SetPhase(s, t, Working(nonce)).(owners := s.owners[key := nonce + 1], leases := s.leases + [Lease(t, key, nonce)])
  }

  /** The `finally` block: open the gate, and drop the map entry if no later call replaced it. */
  function Release(s: State, t: nat): State
    requires t < |s.calls|
  {
    var key := s.calls[t].key;
    SetPhase(s, t, Done).(pending := if Lookup(s.pending, key) == Some(t) then s.pending - {key} else s.pending)
  }

  function Apply(s: State, step: Step): State
    requires Enabled(s, step)
  {
    match step
    case Arrive(key) =>
      s.(calls := s.calls + [Call(key, Lookup(s.pending, key), Waiting)], pending := s.pending[key := |s.calls|])
    case Enter(t) =>
      var key := s.calls[t].key;
      var inside := s.(entered := s.entered + [t]);
      if key in s.owners then LeaseNonce(inside, t, s.owners[key]) else SetPhase(inside, t, Reading)
    case ReadCount(t, count) => LeaseNonce(s, t, count)
    case ReadFails(t) => Release(s, t)
    case WorkEnds(t) => Release(s, t)
  }

  ghost predicate IsRun(s: State, steps: seq<Step>)
    decreases |steps|
  {
    steps == [] || (Enabled(s, steps[0]) && IsRun(Apply(s, steps[0]), steps[1..]))
  }

  ghost function After(s: State, steps: seq<Step>): State
    requires IsRun(s, steps)
    decreases |steps|
  {
    if steps == [] then s else After(Apply(s, steps[0]), steps[1..])
  }

  // ------------------------------------------------------------ the code

  /** The pool's two maps, with the local state of every call in flight. */
  class WalletPool {
    var pending: map<Key, nat>
    var nonceOwners: map<Key, nat>
    var calls: seq<Call>
    ghost var entered: seq<nat>
    ghost var leases: seq<Lease>

    ghost function View(): State
      reads this
    {
      State(calls, pending, nonceOwners, entered, leases)
    }

    constructor ()
      ensures View() == INITIAL
    {
      pending := map[];
      nonceOwners := map[];
      calls := [];
      entered := [];
      leases := [];
    }

    /** From the call to its first await. */
    method Begin(key: Key) returns (gate: nat)
      modifies this
      ensures View() == Apply(old(View()), Arrive(key)) && gate == |old(calls)|
    {
      var previous := if key in pending then Some(pending[key]) else None;
      gate := |calls|;
      calls := calls + [Call(key, previous, Waiting)];
      pending := pending[key := gate];
    }

    /** The nonce sequence: true when a nonce was at hand, false when the chain must be asked. */
    method TryLease(t: nat) returns (leased: bool)
      requires t < |calls|
      modifies this
      ensures leased <==> old(calls[t].key in nonceOwners)
      ensures View() == if leased then LeaseNonce(old(View()), t, old(nonceOwners[calls[t].key])) else old(View())
    {
      var key := calls[t].key;
      leased := key in nonceOwners;
      if leased {
        var nonce := nonceOwners[key];
        nonceOwners := nonceOwners[key := nonce + 1];
        calls := calls[t := calls[t].(phase := Working(nonce))];
        leases := leases + [Lease(t, key, nonce)];
      }
    }

    /** Past the predecessor's gate, up to the next await. */
    method Proceed(t: nat)
      requires Enabled(View(), Enter(t))
      modifies this
      ensures View() == Apply(old(View()), Enter(t))
    {
      entered := entered + [t];
      var leased := TryLease(t);
      if !leased {
        calls := calls[t := calls[t].(phase := Reading)];
      }
    }

    /** The chain answered with the wallet's transaction count. */
    method Counted(t: nat, count: nat)
      requires Enabled(View(), ReadCount(t, count))
      modifies this
      ensures View() == Apply(old(View()), ReadCount(t, count))
    {
      var key := calls[t].key;
      nonceOwners := nonceOwners[key := count];
      var leased := TryLease(t);
      assert nonceOwners == old(nonceOwners)[key := count + 1];
    }

    /** The `finally` block, after the count or the work returned or threw. */
    method Finish(t: nat)
      requires Enabled(View(), WorkEnds(t)) || Enabled(View(), ReadFails(t))
      modifies this
      ensures old(Enabled(View(), WorkEnds(t))) ==> View() == Apply(old(View()), WorkEnds(t))
      ensures old(Enabled(View(), ReadFails(t))) ==> View() == Apply(old(View()), ReadFails(t))
    {
      var key := calls[t].key;
      calls := calls[t := calls[t].(phase := Done)];
      var current := if key in pending then Some(pending[key]) else None;
      var tail := if current == Some(t) then None else current;
      if tail.None? {
        pending := pending - {key};
      } else {
        pending := pending[key := tail.value];
      }
      assert key in old(pending) && tail.Some? ==> pending == old(pending);
      assert key !in old(pending) ==> pending == old(pending);
    }
  }

  // ------------------------------------------------------------ the invariant

  /** Every call links to the call of its key just before it, unless that one and all before it were done. */
  ghost predicate Linked(s: State) {
    forall t :: 0 <= t < |s.calls| ==>
      match s.calls[t].previous
      case Some(p) => p < t && s.calls[p].key == s.calls[t].key && NoneBetween(s, p, t)
      case None => DoneBefore(s, t)
  }

  ghost predicate NoneBetween(s: State, p: nat, t: nat)
    requires t < |s.calls|
  {
    forall u :: p < u < t ==> s.calls[u].key != s.calls[t].key
  }

  /** All earlier calls of the same key are past their `finally`. */
  ghost predicate DoneBefore(s: State, t: nat)
    requires t < |s.calls|
  {
    forall u :: 0 <= u < t && s.calls[u].key == s.calls[t].key ==> s.calls[u].phase.Done?
  }

  ghost predicate InTurn(s: State) {
    forall t :: 0 <= t < |s.calls| && !s.calls[t].phase.Waiting? ==> DoneBefore(s, t)
  }

  /** The map names the last call of a key as long as some call of the key is not done. */
  ghost predicate PendingRight(s: State) {
    && (forall key :: key in s.pending ==> IsTail(s, key, s.pending[key]))
    && (forall t :: 0 <= t < |s.calls| && !s.calls[t].phase.Done? ==> s.calls[t].key in s.pending)
  }

  ghost predicate IsTail(s: State, key: Key, t: nat) {
    && t < |s.calls| && s.calls[t].key == key && !s.calls[t].phase.Done?
    && forall u :: t < u < |s.calls| ==> s.calls[u].key != key
  }

  /** The calls that got past their gate are on record, in turn. */
  ghost predicate EntryOrder(s: State) {
    && (forall i :: 0 <= i < |s.entered| ==> s.entered[i] < |s.calls| && !s.calls[s.entered[i]].phase.Waiting?)
    && (forall i, j :: 0 <= i < j < |s.entered| && s.calls[s.entered[i]].key == s.calls[s.entered[j]].key ==> s.entered[i] < s.entered[j])
  }

  function Nonces(leases: seq<Lease>, key: Key): seq<nat> {
    if leases == [] then []
    else Nonces(leases[..|leases| - 1], key) + if leases[|leases| - 1].key == key then [leases[|leases| - 1].nonce] else []
  }

  ghost predicate Consecutive(nonces: seq<nat>) {
    forall i :: 0 <= i < |nonces| ==> nonces[i] == nonces[0] + i
  }

  ghost predicate OwnerRight(s: State, key: Key) {
    var nonces := Nonces(s.leases, key);
    && Consecutive(nonces)
    && (key in s.owners <==> nonces != [])
    && (key in s.owners ==> s.owners[key] == nonces[0] + |nonces|)
  }

  ghost predicate NonceOrder(s: State) {
    && (forall key :: OwnerRight(s, key))
    && (forall t :: 0 <= t < |s.calls| && s.calls[t].phase.Reading? ==> s.calls[t].key !in s.owners)
  }

  ghost predicate Inv(s: State) {
    Linked(s) && InTurn(s) && PendingRight(s) && EntryOrder(s) && NonceOrder(s)
  }

  /** Only the phase of one call differs, and a done call stays done. */
  ghost predicate OnlyPhase(s: State, s': State, t: nat, phase: Phase) {
    t < |s.calls| && s'.calls == s.calls[t := s.calls[t].(phase := phase)] && (s.calls[t].phase.Done? ==> phase.Done?)
  }

  lemma DoneBeforeKept(s: State, s': State, t: nat, phase: Phase, u: nat)
    requires OnlyPhase(s, s', t, phase) && u < |s.calls| && DoneBefore(s, u)
    ensures DoneBefore(s', u)
  {
  }

  lemma LinkedKept(s: State, s': State, t: nat, phase: Phase)
    requires OnlyPhase(s, s', t, phase) && Linked(s)
    ensures Linked(s')
  {
    forall u | 0 <= u < |s'.calls|
      ensures match s'.calls[u].previous
              case Some(p) => p < u && s'.calls[p].key == s'.calls[u].key && NoneBetween(s', p, u)
              case None => DoneBefore(s', u)
    {
      assert s'.calls[u].previous == s.calls[u].previous;
    }
  }

  lemma InTurnKept(s: State, s': State, t: nat, phase: Phase)
    requires OnlyPhase(s, s', t, phase) && InTurn(s) && DoneBefore(s, t)
    ensures InTurn(s')
  {
    forall u | 0 <= u < |s'.calls| && !s'.calls[u].phase.Waiting?
      ensures DoneBefore(s', u)
    {
      DoneBeforeKept(s, s', t, phase, u);
    }
  }

  /** A call whose gate opens finds all earlier calls of its key done. */
  lemma GateMeansTurn(s: State, t: nat)
    requires Inv(s) && Enabled(s, Enter(t))
    ensures DoneBefore(s, t)
  {
    if s.calls[t].previous.Some? {
      var p := s.calls[t].previous.value;
      assert DoneBefore(s, p);
      assert NoneBetween(s, p, t);
    }
  }

  lemma ArriveLinked(s: State, key: Key)
    requires Inv(s)
    ensures Linked(Apply(s, Arrive(key))) && InTurn(Apply(s, Arrive(key)))
  {
    var s' := Apply(s, Arrive(key));
    var n := |s.calls|;
    forall t | 0 <= t < n
      ensures s'.calls[t] == s.calls[t] && (DoneBefore(s, t) ==> DoneBefore(s', t))
      ensures forall p: nat :: NoneBetween(s, p, t) ==> NoneBetween(s', p, t)
    {
    }
    if key in s.pending {
      assert IsTail(s, key, s.pending[key]);
      assert NoneBetween(s', s.pending[key], n);
    } else {
      assert DoneBefore(s', n);
    }
  }

  lemma ArriveKeeps(s: State, key: Key)
    requires Inv(s)
    ensures Inv(Apply(s, Arrive(key)))
  {
    ArriveLinked(s, key);
    var s' := Apply(s, Arrive(key));
    forall k | k in s'.pending
      ensures IsTail(s', k, s'.pending[k])
    {
      assert k != key ==> IsTail(s, k, s.pending[k]);
    }
    forall k
      ensures OwnerRight(s', k)
    {
      assert OwnerRight(s, k);
    }
  }

  lemma PendingKept(s: State, s': State, t: nat, phase: Phase)
    requires OnlyPhase(s, s', t, phase) && PendingRight(s) && s'.pending == s.pending && !phase.Done?
    ensures PendingRight(s')
  {
    forall key | key in s'.pending
      ensures IsTail(s', key, s'.pending[key])
    {
      assert IsTail(s, key, s.pending[key]);
    }
  }

  /** When the tail is released no call of its key is left; otherwise the tail stays. */
  lemma PendingReleased(s: State, t: nat)
    requires Inv(s) && t < |s.calls| && DoneBefore(s, t) && !s.calls[t].phase.Done?
    ensures PendingRight(Release(s, t))
  {
    var s' := Release(s, t);
    var key := s.calls[t].key;
    assert IsTail(s, key, s.pending[key]);
    forall k | k in s'.pending
      ensures IsTail(s', k, s'.pending[k])
    {
      assert IsTail(s, k, s.pending[k]);
    }
  }

  lemma NoncesAppend(leases: seq<Lease>, lease: Lease, key: Key)
    ensures Nonces(leases + [lease], key) == Nonces(leases, key) + if lease.key == key then [lease.nonce] else []
  {
    assert (leases + [lease])[..|leases|] == leases;
  }

  lemma OwnersLeased(s: State, t: nat, nonce: nat)
    requires NonceOrder(s) && t < |s.calls|
    requires s.calls[t].key in s.owners ==> s.owners[s.calls[t].key] == nonce
    ensures forall key :: OwnerRight(LeaseNonce(s, t, nonce), key)
  {
    var s' := LeaseNonce(s, t, nonce);
    forall key
      ensures OwnerRight(s', key)
    {
      assert OwnerRight(s, key);
      NoncesAppend(s.leases, Lease(t, s.calls[t].key, nonce), key);
    }
  }

  /** No other call of a key is reading while one is in its turn. */
  lemma ReadersAlone(s: State, t: nat, u: nat)
    requires InTurn(s) && t < |s.calls| && u < |s.calls| && u != t && s.calls[u].key == s.calls[t].key
    requires DoneBefore(s, t) && !s.calls[t].phase.Done?
    ensures s.calls[u].phase.Waiting? || s.calls[u].phase.Done?
  {
    assert !s.calls[u].phase.Waiting? ==> DoneBefore(s, u);
  }

  lemma NonceOrderLeased(s: State, t: nat, nonce: nat)
    requires NonceOrder(s) && InTurn(s) && t < |s.calls| && DoneBefore(s, t) && !s.calls[t].phase.Done?
    requires s.calls[t].key in s.owners ==> s.owners[s.calls[t].key] == nonce
    ensures NonceOrder(LeaseNonce(s, t, nonce))
  {
    OwnersLeased(s, t, nonce);
    var s' := LeaseNonce(s, t, nonce);
    forall u | 0 <= u < |s'.calls| && s'.calls[u].phase.Reading?
      ensures s'.calls[u].key !in s'.owners
    {
      assert u != t && s.calls[u].phase.Reading?;
      if s.calls[u].key == s.calls[t].key {
        ReadersAlone(s, t, u);
      }
    }
  }

  lemma EntryKept(s: State, s': State, t: nat, phase: Phase)
    requires OnlyPhase(s, s', t, phase) && EntryOrder(s) && s'.entered == s.entered && !phase.Waiting?
    ensures EntryOrder(s')
  {
  }

  lemma EntryEntered(s: State, s': State, t: nat, phase: Phase)
    requires OnlyPhase(s, s', t, phase) && EntryOrder(s) && InTurn(s) && s.calls[t].phase.Waiting? && !phase.Waiting?
    requires s'.entered == s.entered + [t]
    ensures EntryOrder(s')
  {
    forall i | 0 <= i < |s.entered| && s.calls[s.entered[i]].key == s.calls[t].key
      ensures s.entered[i] < t
    {
      assert DoneBefore(s, s.entered[i]);
    }
  }

  lemma EnterKeeps(s: State, t: nat)
    requires Inv(s) && Enabled(s, Enter(t))
    ensures Inv(Apply(s, Enter(t)))
  {
    var s' := Apply(s, Enter(t));
    var inside := s.(entered := s.entered + [t]);
    var phase := s'.calls[t].phase;
    GateMeansTurn(s, t);
    LinkedKept(s, s', t, phase);
    InTurnKept(s, s', t, phase);
    PendingKept(s, s', t, phase);
    EntryEntered(s, s', t, phase);
    assert NonceOrder(inside) && InTurn(inside) && DoneBefore(inside, t) by {
      SameBooks(s, inside);
    }
    if s.calls[t].key in s.owners {
      NonceOrderLeased(inside, t, s.owners[s.calls[t].key]);
    } else {
      SameOwners(inside, s');
    }
  }

  lemma SameBooks(s: State, s': State)
    requires s' == s.(entered := s'.entered)
    ensures NonceOrder(s) ==> NonceOrder(s')
    ensures InTurn(s) ==> InTurn(s')
    ensures forall t: nat :: t < |s.calls| && DoneBefore(s, t) ==> DoneBefore(s', t)
  {
    if NonceOrder(s) {
      forall key
        ensures OwnerRight(s', key)
      {
        assert OwnerRight(s, key);
      }
    }
    if InTurn(s) {
      forall t | 0 <= t < |s'.calls| && !s'.calls[t].phase.Waiting?
        ensures DoneBefore(s', t)
      {
        assert DoneBefore(s, t);
      }
    }
  }

  /** The nonce books hold as long as owners and leases do and nobody new reads an owned sequence. */
  lemma SameOwners(s: State, s': State)
    requires NonceOrder(s) && s'.owners == s.owners && s'.leases == s.leases
    requires forall t :: 0 <= t < |s'.calls| && s'.calls[t].phase.Reading? ==>
               s'.calls[t].key !in s.owners || (t < |s.calls| && s.calls[t] == s'.calls[t])
    ensures NonceOrder(s')
  {
    forall key
      ensures OwnerRight(s', key)
    {
      assert OwnerRight(s, key);
    }
  }

  lemma CountKeeps(s: State, t: nat, count: nat)
    requires Inv(s) && Enabled(s, ReadCount(t, count))
    ensures Inv(Apply(s, ReadCount(t, count)))
  {
    var s' := Apply(s, ReadCount(t, count));
    assert DoneBefore(s, t);
    LinkedKept(s, s', t, Working(count));
    InTurnKept(s, s', t, Working(count));
    PendingKept(s, s', t, Working(count));
    EntryKept(s, s', t, Working(count));
    NonceOrderLeased(s, t, count);
  }

  lemma ReleaseKeeps(s: State, t: nat)
    requires Inv(s) && t < |s.calls| && (s.calls[t].phase.Reading? || s.calls[t].phase.Working?)
    ensures Inv(Release(s, t))
  {
    var s' := Release(s, t);
    assert DoneBefore(s, t);
    LinkedKept(s, s', t, Done);
    InTurnKept(s, s', t, Done);
    PendingReleased(s, t);
    EntryKept(s, s', t, Done);
    SameOwners(s, s');
  }

  lemma StepKeeps(s: State, step: Step)
    requires Inv(s) && Enabled(s, step)
    ensures Inv(Apply(s, step))
  {
    match step
    case Arrive(key) => ArriveKeeps(s, key);
    case Enter(t) => EnterKeeps(s, t);
    case ReadCount(t, count) => CountKeeps(s, t, count);
    case ReadFails(t) => ReleaseKeeps(s, t);
    case WorkEnds(t) => ReleaseKeeps(s, t);
  }

  lemma {:induction false} RunKeeps(s: State, steps: seq<Step>)
    requires Inv(s) && IsRun(s, steps)
    ensures Inv(After(s, steps))
    decreases |steps|
  {
    if steps != [] {
      StepKeeps(s, steps[0]);
      RunKeeps(Apply(s, steps[0]), steps[1..]);
    }
  }

  lemma InitialInv()
    ensures Inv(INITIAL)
  {
    assert forall key :: OwnerRight(INITIAL, key);
  }

  // ------------------------------------------------------------ every interleaving

  predicate Inside(s: State, t: nat) {
    t < |s.calls| && (s.calls[t].phase.Reading? || s.calls[t].phase.Working?)
  }

  lemma Reached(steps: seq<Step>)
    requires IsRun(INITIAL, steps)
    ensures Inv(After(INITIAL, steps))
  {
    InitialInv();
    RunKeeps(INITIAL, steps);
  }

  /** At most one call per chain and wallet is inside its slot. */
  lemma OneInside(steps: seq<Step>, t: nat, u: nat)
    requires IsRun(INITIAL, steps)
    requires Inside(After(INITIAL, steps), t) && Inside(After(INITIAL, steps), u)
    requires After(INITIAL, steps).calls[t].key == After(INITIAL, steps).calls[u].key
    ensures t == u
  {
    Reached(steps);
    var s := After(INITIAL, steps);
    assert DoneBefore(s, t) && DoneBefore(s, u);
  }

  /** Calls of a key get past their gates in the order they came, once each, and never before all earlier ones ended. */
  lemma ArrivalOrder(steps: seq<Step>)
    requires IsRun(INITIAL, steps)
    ensures var s := After(INITIAL, steps);
            && Distinct(s.entered)
            && (forall i :: 0 <= i < |s.entered| ==> s.entered[i] < |s.calls|)
            && (forall i, j :: 0 <= i < j < |s.entered| && s.calls[s.entered[i]].key == s.calls[s.entered[j]].key ==>
                  s.entered[i] < s.entered[j] && s.calls[s.entered[i]].phase.Done?)
  {
    Reached(steps);
    var s := After(INITIAL, steps);
    forall j | 0 <= j < |s.entered|
      ensures DoneBefore(s, s.entered[j])
    {
    }
  }

  /** The map has no entry for a key exactly when every gate of the key is open. */
  lemma PendingExactly(steps: seq<Step>, key: Key)
    requires IsRun(INITIAL, steps)
    ensures var s := After(INITIAL, steps);
            key !in s.pending <==> forall t :: 0 <= t < |s.calls| && s.calls[t].key == key ==> s.calls[t].phase.Done?
  {
    Reached(steps);
    var s := After(INITIAL, steps);
    assert key in s.pending ==> IsTail(s, key, s.pending[key]);
  }

  /** The nonces handed out for a key count up from the first, without gap or repeat. */
  lemma NoncesConsecutive(steps: seq<Step>, key: Key)
    requires IsRun(INITIAL, steps)
    ensures Consecutive(Nonces(After(INITIAL, steps).leases, key)) && Distinct(Nonces(After(INITIAL, steps).leases, key))
  {
    Reached(steps);
    assert OwnerRight(After(INITIAL, steps), key);
  }

  // ------------------------------------------------------------ no call is stuck

  /** Calls keep their keys, and done calls stay done. */
  ghost predicate Extends(s: State, s': State) {
    |s.calls| == |s'.calls| && forall t :: 0 <= t < |s.calls| ==>
      s'.calls[t].key == s.calls[t].key && (s.calls[t].phase.Done? ==> s'.calls[t].phase.Done?)
  }

  lemma {:induction false} RunConcat(s: State, a: seq<Step>, b: seq<Step>)
    requires IsRun(s, a) && IsRun(After(s, a), b)
    ensures IsRun(s, a + b) && After(s, a + b) == After(After(s, a), b)
    decreases |a|
  {
    if a == [] {
      assert a + b == b;
    } else {
      assert (a + b)[1..] == a[1..] + b;
      RunConcat(Apply(s, a[0]), a[1..], b);
    }
  }

  /** A call whose turn has come can run to its end, whether or not the chain answers. */
  lemma FinishInTurn(s: State, t: nat) returns (steps: seq<Step>)
    requires Inv(s) && t < |s.calls| && DoneBefore(s, t)
    ensures IsRun(s, steps) && Extends(s, After(s, steps)) && After(s, steps).calls[t].phase.Done?
  {
    if s.calls[t].phase.Done? {
      steps := [];
    } else if s.calls[t].phase.Waiting? {
      assert Linked(s);
      var s' := Apply(s, Enter(t));
      StepKeeps(s, Enter(t));
      assert DoneBefore(s', t);
      var rest := FinishInside(s', t);
      steps := [Enter(t)] + rest;
    } else {
      steps := FinishInside(s, t);
    }
  }

  lemma FinishInside(s: State, t: nat) returns (steps: seq<Step>)
    requires Inside(s, t)
    ensures IsRun(s, steps) && Extends(s, After(s, steps)) && After(s, steps).calls[t].phase.Done?
  {
    var step := if s.calls[t].phase.Reading? then ReadFails(t) else WorkEnds(t);
    steps := [step];
    assert steps[1..] == [];
    assert After(s, steps) == Apply(s, step);
  }

  ghost predicate AllDone(s: State, key: Key, n: nat) {
    forall t :: 0 <= t < n && t < |s.calls| && s.calls[t].key == key ==> s.calls[t].phase.Done?
  }

  /** One more call of the key brought to its end. */
  lemma FinishNext(s: State, key: Key, n: nat) returns (steps: seq<Step>)
    requires Inv(s) && n < |s.calls| && AllDone(s, key, n)
    ensures IsRun(s, steps) && Extends(s, After(s, steps)) && AllDone(After(s, steps), key, n + 1)
  {
    if s.calls[n].key == key {
      steps := FinishInTurn(s, n);
    } else {
      steps := [];
    }
  }

  lemma {:induction false} FinishUpTo(s: State, key: Key, n: nat) returns (steps: seq<Step>)
    requires Inv(s) && n <= |s.calls|
    ensures IsRun(s, steps) && Extends(s, After(s, steps)) && AllDone(After(s, steps), key, n)
  {
    steps := [];
    if n > 0 {
      var first := FinishUpTo(s, key, n - 1);
      RunKeeps(s, first);
      var more := FinishNext(After(s, first), key, n - 1);
      RunConcat(s, first, more);
      steps := first + more;
    }
  }

  /** From every reachable state, however calls failed before, every call can still come to its end. */
  lemma NoCallIsStuck(steps: seq<Step>, t: nat) returns (more: seq<Step>)
    requires IsRun(INITIAL, steps) && t < |After(INITIAL, steps).calls|
    ensures IsRun(INITIAL, steps + more) && t < |After(INITIAL, steps + more).calls| && After(INITIAL, steps + more).calls[t].phase.Done?
  {
    Reached(steps);
    var s := After(INITIAL, steps);
    more := FinishUpTo(s, s.calls[t].key, t + 1);
    RunConcat(INITIAL, steps, more);
  }
}
