/** The transfer total of an accepted proof. */
module ProofFunding {
  import opened Prelude
  import opened Hashing
  import opened Codec
  import opened Attribution
  import opened Invoice
  import opened Proof
  import opened ProofBinding

  type Check = Transfer -> Result<Credit, ProofError>

  ghost predicate AllPass(check: Check, ts: seq<Transfer>) {
    forall i :: 0 <= i < |ts| ==> check(ts[i]).Ok?
  }

  /** The distinct events a list of transfers names. */
  ghost function EventsOf(check: Check, ts: seq<Transfer>): set<EventId> {
    set i | 0 <= i < |ts| && check(ts[i]).Ok? :: check(ts[i]).value.id
  }

  /** The amount of an event's first listing. */
  function FirstAmount(check: Check, ts: seq<Transfer>, id: EventId): nat {
    if ts == [] then 0
    else if check(ts[0]).Ok? && check(ts[0]).value.id == id then check(ts[0]).value.amount
    else FirstAmount(check, ts[1..], id)
  }

  ghost function SumOver(ids: set<EventId>, amount: EventId -> nat): nat {
    if ids == {} then 0
    else
      var x :| x in ids;
      amount(x) + SumOver(ids - {x}, amount)
  }

  /** What the transfers are worth: each distinct event once, at its first-listed amount. */
  ghost function Credited(check: Check, ts: seq<Transfer>): nat {
    SumOver(EventsOf(check, ts), id => FirstAmount(check, ts, id))
  }

  lemma {:induction false} SumOverAdd(ids: set<EventId>, amount: EventId -> nat, y: EventId)
    requires y in ids
    ensures SumOver(ids, amount) == amount(y) + SumOver(ids - {y}, amount)
    decreases |ids|
  {
    var x :| x in ids && SumOver(ids, amount) == amount(x) + SumOver(ids - {x}, amount);
    if x != y {
      SumOverAdd(ids - {x}, amount, y);
      SumOverAdd(ids - {y}, amount, x);
      assert ids - {x} - {y} == ids - {y} - {x};
    }
  }

  lemma {:induction false} SumOverSame(ids: set<EventId>, f: EventId -> nat, g: EventId -> nat)
    requires forall x :: x in ids ==> f(x) == g(x)
    ensures SumOver(ids, f) == SumOver(ids, g)
    decreases |ids|
  {
    if ids != {} {
      var x :| x in ids;
      SumOverAdd(ids, f, x);
      SumOverAdd(ids, g, x);
      SumOverSame(ids - {x}, f, g);
    }
  }

  lemma {:induction false} FirstAmountAppend(check: Check, ts: seq<Transfer>, t: Transfer, id: EventId)
    ensures FirstAmount(check, ts + [t], id) ==
            if id in EventsOf(check, ts) then FirstAmount(check, ts, id)
            else if check(t).Ok? && check(t).value.id == id then check(t).value.amount else 0
  {
    if ts == [] {
      assert ts + [t] == [t] && [t][1..] == [];
      assert FirstAmount(check, [], id) == 0;
    } else {
      assert (ts + [t])[1..] == ts[1..] + [t];
      FirstAmountAppend(check, ts[1..], t, id);
      assert id in EventsOf(check, ts) <==>
             (check(ts[0]).Ok? && check(ts[0]).value.id == id) || id in EventsOf(check, ts[1..]) by {
        assert forall i :: 0 <= i < |ts| - 1 ==> ts[1..][i] == ts[i + 1];
        assert forall i :: 0 < i < |ts| ==> ts[i] == ts[1..][i - 1];
      }
    }
  }

  lemma EventsAppend(check: Check, ts: seq<Transfer>, t: Transfer)
    ensures EventsOf(check, ts + [t]) == EventsOf(check, ts) + (if check(t).Ok? then {check(t).value.id} else {})
  {
    assert forall i :: 0 <= i < |ts| ==> (ts + [t])[i] == ts[i];
    assert (ts + [t])[|ts|] == t;
  }

  /** One more transfer adds its amount exactly when its event is new. */
  lemma CreditedAppend(check: Check, ts: seq<Transfer>, t: Transfer)
    requires check(t).Ok?
    ensures Credited(check, ts + [t]) ==
            Credited(check, ts) + (if check(t).value.id in EventsOf(check, ts) then 0 else check(t).value.amount)
  {
    var ids, id := EventsOf(check, ts), check(t).value.id;
    var f: EventId -> nat := x => FirstAmount(check, ts, x);
    var g: EventId -> nat := x => FirstAmount(check, ts + [t], x);
    EventsAppend(check, ts, t);
    forall x | x in ids
      ensures f(x) == g(x)
    {
      FirstAmountAppend(check, ts, t, x);
    }
    SumOverSame(ids, f, g);
    FirstAmountAppend(check, ts, t, id);
    if id in ids {
      assert EventsOf(check, ts + [t]) == ids;
    } else {
      SumOverAdd(ids + {id}, g, id);
      assert ids + {id} - {id} == ids;
    }
  }

  ghost predicate Right(check: Check, ts: seq<Transfer>, r: Result<Tally, ProofError>) {
    && (r.Ok? <==> AllPass(check, ts) && Credited(check, ts) < U256_LIMIT)
    && (r.Ok? ==> r.value.seen == EventsOf(check, ts) && r.value.total == Credited(check, ts))
  }

  /** One round of the loop keeps it right. */
  lemma RoundIsRight(check: Check, before: seq<Transfer>, t: Transfer, tally: Tally, credit: Credit)
    requires Right(check, before, Ok(tally)) && check(t) == Ok(credit)
    ensures Right(check, before + [t], AddCredit(tally, credit))
  {
    EventsAppend(check, before, t);
    CreditedAppend(check, before, t);
    assert AllPass(check, before + [t]) by {
      assert forall i :: 0 <= i < |before| ==> (before + [t])[i] == before[i];
    }
    assert credit.id in tally.seen ==> EventsOf(check, before + [t]) == tally.seen;
  }

  /** A failed prefix or a failed transfer fails the whole. */
  lemma FailureIsRight(check: Check, before: seq<Transfer>, t: Transfer, e: ProofError)
    requires check(t).Err? || (Right(check, before, Err(e)) && check(t).Ok?)
    ensures Right(check, before + [t], Err(e))
  {
    var ts := before + [t];
    assert ts[|before|] == t;
    assert AllPass(check, ts) ==> AllPass(check, before) by {
      assert forall i :: 0 <= i < |before| ==> ts[i] == before[i];
    }
    if check(t).Ok? {
      CreditedAppend(check, before, t);
    }
  }

  /**
   * The loop is right: it succeeds exactly when every transfer passes and the
   * distinct events fit in 256 bits, and then its total is their sum.
   */
  lemma {:induction false} TallyIsCredited(check: Check, ts: seq<Transfer>)
    ensures TallyOf(check, ts).Ok? <==> AllPass(check, ts) && Credited(check, ts) < U256_LIMIT
    ensures TallyOf(check, ts).Ok? ==>
              TallyOf(check, ts).value.seen == EventsOf(check, ts) && TallyOf(check, ts).value.total == Credited(check, ts)
    decreases |ts|
  {
    if ts == [] {
      assert EventsOf(check, ts) == {};
    } else {
      var before, t := ts[..|ts| - 1], ts[|ts| - 1];
      assert ts == before + [t];
      TallyIsCredited(check, before);
      var r := TallyOf(check, before);
      assert Right(check, before, r);
      if r.Ok? && check(t).Ok? {
        RoundIsRight(check, before, t, r.value, check(t).value);
      } else if r.Err? {
        FailureIsRight(check, before, t, r.error);
      } else {
        FailureIsRight(check, before, t, check(t).error);
      }
    }
  }

  /** Listing an event again never changes the verdict, the total, or the error. */
  lemma {:induction false} CopiesChangeNothing(check: Check, ts: seq<Transfer>, copies: seq<Transfer>)
    requires forall i :: 0 <= i < |copies| ==> copies[i] in ts
    ensures TallyOf(check, ts + copies) == TallyOf(check, ts)
    decreases |copies|
  {
    if copies == [] {
      assert ts + copies == ts;
    } else {
      var fewer, t := copies[..|copies| - 1], copies[|copies| - 1];
      CopiesChangeNothing(check, ts, fewer);
      assert (ts + copies)[..|ts + copies| - 1] == ts + fewer;
      TallyIsCredited(check, ts);
      var k :| 0 <= k < |ts| && ts[k] == t;
    }
  }

  /** So appending copies of listed transfers leaves the whole verification as it was. */
  lemma AppendedCopiesKeepVerdict(c: Codec, p: ProofOfPayment, copies: seq<Transfer>, a: Option<seq<Byte>>, trusted: seq<Address>)
    requires forall i :: 0 <= i < |copies| ==> copies[i] in p.transfers
    ensures VerifySpec(c, p.(transfers := p.transfers + copies), a, trusted) == VerifySpec(c, p, a, trusted)
  {
    var q := p.(transfers := p.transfers + copies);
    SameChecks(c, p, q, a, trusted);
    if CheckCommitment(c, p).Ok? {
      var m := CheckCommitment(c, p).value;
      CopiesChangeNothing(Checker(c, FundingOf(p, m)), p.transfers, copies);
      SameTransfers(c, p, q, m);
    }
  }

  lemma SameTransfers(c: Codec, p: ProofOfPayment, q: ProofOfPayment, m: Commitment)
    requires q == p.(transfers := q.transfers) && FundingOf(q, m) == FundingOf(p, m)
    requires TallyOf(Checker(c, FundingOf(p, m)), q.transfers) == TallyOf(Checker(c, FundingOf(p, m)), p.transfers)
    ensures CheckTransfers(c, q, m) == CheckTransfers(c, p, m)
  {
  }

  /** No step before the transfer loop looks at the transfers. */
  lemma SameChecks(c: Codec, p: ProofOfPayment, q: ProofOfPayment, a: Option<seq<Byte>>, trusted: seq<Address>)
    requires q == p.(transfers := q.transfers)
    ensures CheckCommitment(c, q) == CheckCommitment(c, p)
    ensures CheckAttachment(c, q, a) == CheckAttachment(c, p, a)
    ensures CheckCommitment(c, p).Ok? ==>
              && CheckAttestation(c, q, CheckCommitment(c, p).value, trusted) == CheckAttestation(c, p, CheckCommitment(c, p).value, trusted)
              && FundingOf(q, CheckCommitment(c, p).value) == FundingOf(p, CheckCommitment(c, p).value)
  {
    SameCommitment(c, p, q);
    if CheckCommitment(c, p).Ok? {
      SameAttestation(c, p, q, CheckCommitment(c, p).value, trusted);
    }
  }

  lemma SameCommitment(c: Codec, p: ProofOfPayment, q: ProofOfPayment)
    requires q == p.(transfers := q.transfers)
    ensures CheckCommitment(c, q) == CheckCommitment(c, p)
  {
    assert CheckVersions(q) == CheckVersions(p);
    SameNetwork(c, p, q);
    forall scope, n, h
      ensures CheckAttested(c, q, scope, n, h) == CheckAttested(c, p, scope, n, h)
    {
    }
    forall n, salt
      ensures CheckAddress(c, q, n, salt) == CheckAddress(c, p, n, salt)
    {
      SameAddress(c, p, q, n, salt);
    }
  }

  lemma SameNetwork(c: Codec, p: ProofOfPayment, q: ProofOfPayment)
    requires q == p.(transfers := q.transfers)
    ensures CheckNetwork(c, q) == CheckNetwork(c, p)
  {
  }

  lemma SameAddress(c: Codec, p: ProofOfPayment, q: ProofOfPayment, n: NetworkTerms, salt: Word)
    requires q == p.(transfers := q.transfers)
    ensures CheckAddress(c, q, n, salt) == CheckAddress(c, p, n, salt)
  {
  }

  lemma SameAttestation(c: Codec, p: ProofOfPayment, q: ProofOfPayment, m: Commitment, trusted: seq<Address>)
    requires q == p.(transfers := q.transfers)
    ensures CheckAttestation(c, q, m, trusted) == CheckAttestation(c, p, m, trusted)
  {
    SamePayload(c, p, q, m);
  }

  lemma SamePayload(c: Codec, p: ProofOfPayment, q: ProofOfPayment, m: Commitment)
    requires q == p.(transfers := q.transfers)
    ensures CheckPayloadCommitment(c, q, m) == CheckPayloadCommitment(c, p, m)
  {
  }

  /** A transfer the wallet stands behind: its own, or a signed, receipt-verified fill of its payment. */
  ghost predicate FromWallet(c: Codec, wallet: Address, fills: seq<Fill>, t: Transfer) {
    || c.parseAddress(t.sender) == Some(wallet)
    || (&& t.relay.Some? && t.relay.value.attributionSource == "receipt"
        && c.parseAddress(t.relay.value.originSender) == Some(wallet)
        && Fill(t.transactionHash, t.logIndex, t.relay.value) in fills)
  }

  lemma PassingTransfer(c: Codec, f: Funding, t: Transfer)
    requires CheckTransfer(c, f, t).Ok?
    ensures c.parseAddress(t.recipient) == Some(f.address)
    ensures c.parseWord(t.transactionHash) == Some(CheckTransfer(c, f, t).value.id.transaction)
    ensures c.parseU64(t.logIndex) == Some(CheckTransfer(c, f, t).value.id.logIndex)
    ensures c.parseU256(t.amountBaseUnits) == Some(CheckTransfer(c, f, t).value.amount)
    ensures f.scope == WalletAttributed && f.wallet.Some? ==> FromWallet(c, f.wallet.value, f.fills, t)
  {
  }

  /**
   * Soundness of the total: in an accepted proof the distinct events, each at
   * its first-listed amount, cover the request without overflow; every
   * transfer went to the address; and in the wallet scope each came from the
   * attested wallet or is a fill the attestation signed.
   */
  lemma AcceptedIsFunded(c: Codec, p: ProofOfPayment, a: Option<seq<Byte>>, trusted: seq<Address>, v: Verification)
    requires VerifySpec(c, p, a, trusted) == Ok(v)
    ensures CheckCommitment(c, p).Ok?
    ensures var m := CheckCommitment(c, p).value;
            var worth := Credited(Checker(c, FundingOf(p, m)), p.transfers);
            m.terms.amount <= worth < U256_LIMIT
    ensures forall i :: 0 <= i < |p.transfers| ==> c.parseAddress(p.transfers[i].recipient) == Some(v.paymentAddress)
    ensures v.scope == WalletAttributed ==>
              && v.payerWallet.Some?
              && forall i :: 0 <= i < |p.transfers| ==>
                               FromWallet(c, v.payerWallet.value, p.verification.payload.relayFills, p.transfers[i])
    ensures c.recover(p.verification.signature, AttestationDigest(p.verification.payload)) == Some(v.attestationSigner)
  {
    AcceptedMeans(c, p, a, trusted, v);
    var m := CheckCommitment(c, p).value;
    CommitmentMeans(c, p);
    var f := FundingOf(p, m);
    TallyIsCredited(Checker(c, f), p.transfers);
    forall i | 0 <= i < |p.transfers|
      ensures c.parseAddress(p.transfers[i].recipient) == Some(v.paymentAddress)
      ensures v.scope == WalletAttributed ==> FromWallet(c, v.payerWallet.value, f.fills, p.transfers[i])
    {
      assert Checker(c, f)(p.transfers[i]).Ok?;
      PassingTransfer(c, f, p.transfers[i]);
    }
  }
}
