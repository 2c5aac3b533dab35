/** Honestly issued, bound, paid and signed requests have proofs that verify. */
module ProofCompleteness {
  import opened Prelude
  import opened Hashing
  import opened Codec
  import opened Attribution
  import opened DeterministicAddress
  import opened Invoice
  import opened Proof
  import opened ProofFunding
  import PA = PayerAttestation
  import Decimal

  /** The arguments of `Invoice::issue`. */
  datatype Request = Request(currency: Currency, networks: seq<NetworkTerms>, beneficiary: Address, recovery: Address,
                             amount: U256, expiration: U64, snapshot: Snapshot, nonce: Word)

  function IssueRequest(c: Codec, r: Request): Result<Invoice, IssueError> {
    Issue(c, r.currency, r.networks, r.beneficiary, r.recovery, r.amount, r.expiration, r.snapshot, r.nonce)
  }

  /** The binding the request's add-ons call for. */
  function BindRequest(c: Codec, inv: Invoice, chainId: U64, attestation: PA.WalletAttestation): Result<Binding, BindError> {
    if inv.snapshot.payerVerification.walletAttestation then BindPayerWallet(c, inv, chainId, attestation)
    else BindNetwork(c, inv, chainId)
  }

  /** Where a relayed payment really came from. */
  datatype Origin = Origin(requestId: Word, chainId: U64, transaction: Word, sender: Address)

  /** A transfer as it happened on chain. */
  datatype Paid = Paid(id: EventId, sender: Address, amount: U256, block: U64, origin: Option<Origin>)

  function RelayOf(c: Codec, o: Origin): Relay {
    Relay(c.printWord(o.requestId), Decimal.Print(o.chainId), c.printWord(o.transaction), c.printAddress(o.sender), "receipt")
  }

  function TransferOf(c: Codec, address: Address, p: Paid): Transfer {
    Transfer(c.printWord(p.id.transaction), Decimal.Print(p.id.logIndex), c.printAddress(p.sender), c.printAddress(address),
             Decimal.Print(p.amount), Decimal.Print(p.block), if p.origin.Some? then Some(RelayOf(c, p.origin.value)) else None)
  }

  function TransfersOf(c: Codec, address: Address, ps: seq<Paid>): (r: seq<Transfer>)
    ensures |r| == |ps|
  {
    seq(|ps|, i requires 0 <= i < |ps| => TransferOf(c, address, ps[i]))
  }

  /** The scope's rule on who may have paid. */
  ghost predicate Allowed(c: Codec, b: Binding, fills: seq<Fill>, p: Paid) {
    b.wallet.Some? ==>
      || p.sender == b.wallet.value.payerWallet
      || (&& p.origin.Some? && p.origin.value.sender == b.wallet.value.payerWallet
          && Fill(c.printWord(p.id.transaction), Decimal.Print(p.id.logIndex), RelayOf(c, p.origin.value)) in fills)
  }

  /** The payload Gum signs for a bound request. */
  function PayloadFor(c: Codec, inv: Invoice, b: Binding, walletNonce: Word, paymentId: string, at: string, facts: seq<Fact>, fills: seq<Fill>): Payload {
    var wallet := b.wallet.Some?;
    Payload(ATTESTATION_VERSION, paymentId, if inv.snapshot.payerVerification.walletAttestation then WalletAttributed else Settlement,
            c.printWord(inv.attributionHash), c.printWord(inv.issuanceNonce),
            Decimal.Print(b.network.chainId), c.printAddress(b.paymentAddress),
            if wallet then Some(c.printAddress(b.wallet.value.payerWallet)) else None,
            if wallet then Some(c.printWord(walletNonce)) else None,
            if inv.snapshot.payerVerification.expectedEmail.Some? || inv.snapshot.payerVerification.payerReference.Some? then "approved" else "not_required",
            Some(at), if wallet then Some(at) else None, facts, fills)
  }

  /** The proof assembled from an invoice, its binding, and the evidence. */
  function ProofFor(c: Codec, inv: Invoice, b: Binding, ps: seq<Paid>, settlement: Word, signed: Signed): ProofOfPayment {
    ProofOfPayment(PROOF_VERSION, signed.payload.paymentId, RequiredScope(inv.snapshot), inv.snapshot, CANONICALIZATION,
                   c.printWord(inv.attributionHash), c.printWord(inv.issuanceNonce),
                   if b.wallet.Some? then Some(b.wallet.value.attestation) else None,
                   c.printWord(b.salt), Decimal.Print(b.network.chainId), c.printAddress(b.network.factory),
                   c.printAddress(b.paymentAddress), c.printAddress(b.network.token), c.printAddress(b.recovery),
                   c.printWord(settlement), TransfersOf(c, b.paymentAddress, ps), signed)
  }

  /** What the attestation in a binding verified to. */
  function VerifiedIn(c: Codec, inv: Invoice, b: Binding): Option<PA.Verified> {
    if b.wallet.None? then None
    else
      var v := PA.Verify(c, b.wallet.value.attestation, ScopeFor(inv, b.network));
      if v.Ok? then Some(v.value) else None
  }

  /** A request that was issued, and a binding one of the bind functions made for it. */
  ghost predicate Honest(c: Codec, r: Request, inv: Invoice, b: Binding, chainId: U64, attestation: PA.WalletAttestation) {
    RoundTrips(c) && IssueRequest(c, r) == Ok(inv) && BindRequest(c, inv, chainId, attestation) == Ok(b)
  }

  /** What issuing leaves for the verifier to find. */
  ghost predicate InvoiceReady(c: Codec, inv: Invoice) {
    && inv.attributionHash == AttributionHash(inv.snapshot)
    && inv.snapshot.schema == SNAPSHOT_SCHEMA && inv.snapshot.canonicalization == CANONICALIZATION
    && Networks(c, inv.snapshot.networks) == Some(inv.networks)
    && c.parseAddress(inv.snapshot.receiverAddress) == Some(inv.beneficiary)
    && c.parseU256(inv.snapshot.amountBaseUnits) == Some(inv.amount)
    && c.parseU64(inv.snapshot.expirationTimestamp) == Some(inv.expiration)
  }

  /** And what binding adds. */
  ghost predicate BindingReady(c: Codec, inv: Invoice, b: Binding) {
    && NetworkFor(inv.networks, b.network.chainId) == Some(b.network)
    && c.parseAddress(inv.snapshot.recoveryAddress) == Some(b.recovery)
    && (b.wallet.Some? <==> inv.snapshot.payerVerification.walletAttestation)
    && (b.wallet.Some? ==>
          && PA.Verify(c, b.wallet.value.attestation, ScopeFor(inv, b.network)).Ok?
          && VerifiedIn(c, inv, b).value.wallet == b.wallet.value.payerWallet)
    && b.salt == Salt(inv.issuanceNonce, inv.attributionHash, DigestOf(VerifiedIn(c, inv, b)))
    && b.paymentAddress == PaymentAddress(BoundTerms(inv, b.network, b.recovery, b.salt))
  }

  ghost predicate Ready(c: Codec, inv: Invoice, b: Binding) {
    InvoiceReady(c, inv) && BindingReady(c, inv, b)
  }

  lemma IssuedIsReady(c: Codec, r: Request, inv: Invoice)
    requires RoundTrips(c) && IssueRequest(c, r) == Ok(inv)
    ensures InvoiceReady(c, inv) && inv.amount == r.amount
  {
    IssuedMeans(c, r.currency, r.networks, r.beneficiary, r.recovery, r.amount, r.expiration, r.snapshot, r.nonce);
  }

  lemma BoundIsReady(c: Codec, inv: Invoice, b: Binding, chainId: U64, attestation: PA.WalletAttestation)
    requires BindRequest(c, inv, chainId, attestation) == Ok(b)
    ensures BindingReady(c, inv, b)
  {
  }

  lemma HonestIsReady(c: Codec, r: Request, inv: Invoice, b: Binding, chainId: U64, attestation: PA.WalletAttestation)
    requires Honest(c, r, inv, b, chainId, attestation)
    ensures Ready(c, inv, b) && inv.amount == r.amount
  {
    IssuedIsReady(c, r, inv);
    BoundIsReady(c, inv, b, chainId, attestation);
  }

  /** The commitment a ready binding's proof is found to make. */
  function CommitmentFor(c: Codec, inv: Invoice, b: Binding): Commitment {
    Commitment(RequiredScope(inv.snapshot), inv.attributionHash, inv.issuanceNonce, b.network, VerifiedIn(c, inv, b),
               BoundTerms(inv, b.network, b.recovery, b.salt), b.paymentAddress)
  }

  lemma NetworkAccepted(c: Codec, inv: Invoice, b: Binding, p: ProofOfPayment)
    requires RoundTrips(c) && Ready(c, inv, b) && p.snapshot == inv.snapshot
    requires p.chainId == Decimal.Print(b.network.chainId) && p.factoryAddress == c.printAddress(b.network.factory)
    requires p.tokenAddress == c.printAddress(b.network.token)
    ensures CheckNetwork(c, p) == Ok(b.network)
  {
    assert c.parseU64(Decimal.Print(b.network.chainId)) == Some(b.network.chainId);
    assert c.parseAddress(c.printAddress(b.network.factory)) == Some(b.network.factory);
    assert c.parseAddress(c.printAddress(b.network.token)) == Some(b.network.token);
  }

  lemma AddressAccepted(c: Codec, inv: Invoice, b: Binding, p: ProofOfPayment)
    requires RoundTrips(c) && Ready(c, inv, b) && p.snapshot == inv.snapshot
    requires p.recoveryAddress == c.printAddress(b.recovery) && p.paymentAddress == c.printAddress(b.paymentAddress)
    ensures CheckAddress(c, p, b.network, b.salt) == Ok(BoundTerms(inv, b.network, b.recovery, b.salt))
  {
    assert c.parseAddress(c.printAddress(b.recovery)) == Some(b.recovery);
    assert c.parseAddress(c.printAddress(b.paymentAddress)) == Some(b.paymentAddress);
  }

  lemma CommitmentAccepted(c: Codec, inv: Invoice, b: Binding, ps: seq<Paid>, settlement: Word, signed: Signed)
    requires RoundTrips(c) && Ready(c, inv, b)
    ensures CheckCommitment(c, ProofFor(c, inv, b, ps, settlement, signed)) == Ok(CommitmentFor(c, inv, b))
  {
    var p := ProofFor(c, inv, b, ps, settlement, signed);
    NetworkAccepted(c, inv, b, p);
    AddressAccepted(c, inv, b, p);
    assert CheckVersions(p) == Ok(RequiredScope(inv.snapshot));
    assert c.parseWord(c.printWord(inv.attributionHash)) == Some(inv.attributionHash);
    assert c.parseWord(c.printWord(inv.issuanceNonce)) == Some(inv.issuanceNonce);
    assert c.parseWord(c.printWord(b.salt)) == Some(b.salt);
    assert CheckAttested(c, p, RequiredScope(inv.snapshot), b.network, inv.attributionHash) == Ok(VerifiedIn(c, inv, b));
  }

  /** The payload Gum signs for the binding, with the nonce the payer's attestation carries. */
  function HonestPayload(c: Codec, inv: Invoice, b: Binding, paymentId: string, at: string, facts: seq<Fact>, fills: seq<Fill>): Payload {
    var v := VerifiedIn(c, inv, b);
    PayloadFor(c, inv, b, if v.Some? then v.value.nonce else inv.issuanceNonce, paymentId, at, facts, fills)
  }

  ghost predicate WalletFactPresent(b: Binding, facts: seq<Fact>) {
    b.wallet.Some? ==> exists i :: 0 <= i < |facts| && facts[i].kind == "wallet"
  }

  lemma PayloadAccepted(c: Codec, inv: Invoice, b: Binding, p: ProofOfPayment, paymentId: string, at: string, facts: seq<Fact>, fills: seq<Fill>)
    requires RoundTrips(c) && Ready(c, inv, b) && p.snapshot == inv.snapshot
    requires p.chainId == Decimal.Print(b.network.chainId)
    requires p.verification.payload == HonestPayload(c, inv, b, paymentId, at, facts, fills)
    requires WalletFactPresent(b, facts)
    ensures CheckPayloadCommitment(c, p, CommitmentFor(c, inv, b)) == Ok(true)
  {
    var payload := p.verification.payload;
    var m := CommitmentFor(c, inv, b);
    if b.wallet.Some? {
      var v := m.attested.value;
      assert c.parseAddress(c.printAddress(v.wallet)) == Some(v.wallet);
      assert c.parseWord(c.printWord(v.nonce)) == Some(v.nonce);
    }
    assert CheckPayloadWallet(c, payload, m.attested) == Ok(true);
    assert c.parseWord(c.printWord(inv.attributionHash)) == Some(inv.attributionHash);
    assert c.parseWord(c.printWord(inv.issuanceNonce)) == Some(inv.issuanceNonce);
    assert c.parseAddress(c.printAddress(b.paymentAddress)) == Some(b.paymentAddress);
  }

  /** Whom a funding rule lets pay. */
  ghost predicate MayPay(c: Codec, f: Funding, p: Paid) {
    f.scope == WalletAttributed && f.wallet.Some? ==>
      || p.sender == f.wallet.value
      || (&& p.origin.Some? && p.origin.value.sender == f.wallet.value
          && Fill(c.printWord(p.id.transaction), Decimal.Print(p.id.logIndex), RelayOf(c, p.origin.value)) in f.fills)
  }

  lemma ProvenanceAccepted(c: Codec, f: Funding, paid: Paid)
    requires RoundTrips(c) && MayPay(c, f, paid)
    ensures CheckProvenance(c, f, TransferOf(c, f.address, paid)) == Ok(true)
  {
    assert c.parseAddress(c.printAddress(paid.sender)) == Some(paid.sender);
    if paid.origin.Some? {
      RelayAccepted(c, paid.origin.value);
    }
  }

  lemma TransferAccepted(c: Codec, f: Funding, paid: Paid)
    requires RoundTrips(c) && MayPay(c, f, paid)
    ensures CheckTransfer(c, f, TransferOf(c, f.address, paid)) == Ok(Credit(paid.id, paid.amount))
  {
    ProvenanceAccepted(c, f, paid);
    assert c.parseWord(c.printWord(paid.id.transaction)) == Some(paid.id.transaction);
    assert c.parseU64(Decimal.Print(paid.id.logIndex)) == Some(paid.id.logIndex);
    assert c.parseAddress(c.printAddress(f.address)) == Some(f.address);
    assert c.parseU256(Decimal.Print(paid.amount)) == Some(paid.amount);
    assert c.parseU64(Decimal.Print(paid.block)) == Some(paid.block);
  }

  lemma RelayAccepted(c: Codec, o: Origin)
    requires RoundTrips(c)
    ensures CheckRelayShape(c, RelayOf(c, o)) == Ok(o.sender)
  {
    assert c.parseWord(c.printWord(o.requestId)) == Some(o.requestId);
    assert c.parseWord(c.printWord(o.transaction)) == Some(o.transaction);
    assert c.parseU64(Decimal.Print(o.chainId)) == Some(o.chainId);
    assert c.parseAddress(c.printAddress(o.sender)) == Some(o.sender);
  }

  /** What the payments are worth, each event once at its first amount. */
  ghost function Worth(ps: seq<Paid>): nat {
    SumOver(set i | 0 <= i < |ps| :: ps[i].id, id => FirstPaid(ps, id))
  }

  function FirstPaid(ps: seq<Paid>, id: EventId): nat {
    if ps == [] then 0 else if ps[0].id == id then ps[0].amount else FirstPaid(ps[1..], id)
  }

  lemma {:induction false} FirstPaidRendered(check: Check, ts: seq<Transfer>, ps: seq<Paid>, id: EventId)
    requires |ts| == |ps| && forall i :: 0 <= i < |ps| ==> check(ts[i]) == Ok(Credit(ps[i].id, ps[i].amount))
    ensures FirstAmount(check, ts, id) == FirstPaid(ps, id)
  {
    if ps != [] {
      FirstPaidRendered(check, ts[1..], ps[1..], id);
    }
  }

  lemma WorthRendered(check: Check, ts: seq<Transfer>, ps: seq<Paid>)
    requires |ts| == |ps| && forall i :: 0 <= i < |ps| ==> check(ts[i]) == Ok(Credit(ps[i].id, ps[i].amount))
    ensures Credited(check, ts) == Worth(ps)
  {
    var ids := set i | 0 <= i < |ps| :: ps[i].id;
    assert EventsOf(check, ts) == ids;
    forall id | id in ids
      ensures FirstAmount(check, ts, id) == FirstPaid(ps, id)
    {
      FirstPaidRendered(check, ts, ps, id);
    }
    SumOverSame(ids, id => FirstAmount(check, ts, id), id => FirstPaid(ps, id));
  }

  lemma TallyAccepted(c: Codec, f: Funding, ps: seq<Paid>)
    requires RoundTrips(c) && (forall i :: 0 <= i < |ps| ==> MayPay(c, f, ps[i])) && Worth(ps) < U256_LIMIT
    ensures var r := TallyOf(Checker(c, f), TransfersOf(c, f.address, ps));
            r.Ok? && r.value.total == Worth(ps)
  {
    var check, ts := Checker(c, f), TransfersOf(c, f.address, ps);
    forall i | 0 <= i < |ps|
      ensures check(ts[i]) == Ok(Credit(ps[i].id, ps[i].amount))
    {
      TransferAccepted(c, f, ps[i]);
    }
    WorthRendered(check, ts, ps);
    TallyIsCredited(check, ts);
  }

  lemma AllowedMayPay(c: Codec, inv: Invoice, b: Binding, fills: seq<Fill>, p: ProofOfPayment, paid: Paid)
    requires Ready(c, inv, b) && p.verification.payload.relayFills == fills && Allowed(c, b, fills, paid)
    ensures MayPay(c, FundingOf(p, CommitmentFor(c, inv, b)), paid)
  {
  }

  lemma TransfersAccepted(c: Codec, inv: Invoice, b: Binding, p: ProofOfPayment, ps: seq<Paid>, settlement: Word)
    requires RoundTrips(c) && Ready(c, inv, b)
    requires p.transfers == TransfersOf(c, b.paymentAddress, ps) && p.settlementTransactionHash == c.printWord(settlement)
    requires forall i :: 0 <= i < |ps| ==> Allowed(c, b, p.verification.payload.relayFills, ps[i])
    requires inv.amount <= Worth(ps) < U256_LIMIT
    ensures CheckTransfers(c, p, CommitmentFor(c, inv, b)) == Ok(Worth(ps))
  {
    var f := FundingOf(p, CommitmentFor(c, inv, b));
    forall i | 0 <= i < |ps|
      ensures MayPay(c, f, ps[i])
    {
      AllowedMayPay(c, inv, b, p.verification.payload.relayFills, p, ps[i]);
    }
    TallyAccepted(c, f, ps);
    assert c.parseWord(c.printWord(settlement)) == Some(settlement);
  }

  ghost predicate AttachmentHeld(c: Codec, s: Snapshot, attachment: Option<seq<Byte>>) {
    attachment.Some? ==>
      && s.attachment.Some? && s.attachment.value.byteLength == Decimal.Print(|attachment.value|)
      && c.parseWord(s.attachment.value.sha256) == Some(Sha256Of(attachment.value))
  }

  lemma AttestationAccepted(c: Codec, inv: Invoice, b: Binding, p: ProofOfPayment, trusted: seq<Address>, paymentId: string, at: string,
                            facts: seq<Fact>, signer: Address)
    requires RoundTrips(c) && Ready(c, inv, b) && p.snapshot == inv.snapshot && p.paymentId == paymentId
    requires p.chainId == Decimal.Print(b.network.chainId)
    requires p.verification.payload == HonestPayload(c, inv, b, paymentId, at, facts, p.verification.payload.relayFills)
    requires WalletFactPresent(b, facts)
    requires p.verification.signer == c.printAddress(signer)
    requires c.recover(p.verification.signature, AttestationDigest(p.verification.payload)) == Some(signer)
    requires trusted == [] || signer in trusted
    ensures CheckAttestation(c, p, CommitmentFor(c, inv, b), trusted) == Ok(signer)
  {
    PayloadAccepted(c, inv, b, p, paymentId, at, facts, p.verification.payload.relayFills);
    assert c.parseAddress(c.printAddress(signer)) == Some(signer);
  }

  /**
   * Completeness: any issued invoice, bound by whichever function its add-ons
   * call for, with an honestly signed payload and covering payments from
   * allowed senders, yields a proof that verifies and returns the binding's
   * own salt, address and wallet.
   */
  lemma HonestProofVerifies(c: Codec, r: Request, inv: Invoice, b: Binding, chainId: U64, attestation: PA.WalletAttestation,
                            ps: seq<Paid>, settlement: Word, paymentId: string, at: string, facts: seq<Fact>, fills: seq<Fill>,
                            signer: Address, signature: string, attachment: Option<seq<Byte>>, trusted: seq<Address>)
    requires Honest(c, r, inv, b, chainId, attestation)
    requires forall i :: 0 <= i < |ps| ==> Allowed(c, b, fills, ps[i])
    requires r.amount <= Worth(ps) < U256_LIMIT
    requires WalletFactPresent(b, facts)
    requires c.recover(signature, AttestationDigest(HonestPayload(c, inv, b, paymentId, at, facts, fills))) == Some(signer)
    requires trusted == [] || signer in trusted
    requires AttachmentHeld(c, inv.snapshot, attachment)
    ensures var signed := Signed(HonestPayload(c, inv, b, paymentId, at, facts, fills), c.printAddress(signer), signature);
            VerifySpec(c, ProofFor(c, inv, b, ps, settlement, signed), attachment, trusted) ==
            Ok(VerdictFor(c, inv, b, signer, attachment.Some?))
  {
    var signed := Signed(HonestPayload(c, inv, b, paymentId, at, facts, fills), c.printAddress(signer), signature);
    HonestIsReady(c, r, inv, b, chainId, attestation);
    ReadyProofVerifies(c, inv, b, ps, settlement, paymentId, at, facts, signer, signed, attachment, trusted);
  }

  /** The verdict on a proof with this binding's own salt, address and wallet. */
  function VerdictFor(c: Codec, inv: Invoice, b: Binding, signer: Address, attached: bool): Verification {
    Verification(inv.attributionHash, RequiredScope(inv.snapshot), if b.wallet.Some? then Some(b.wallet.value.payerWallet) else None,
                 DigestOf(VerifiedIn(c, inv, b)), b.salt, b.paymentAddress, signer, attached)
  }

  lemma ReadyProofVerifies(c: Codec, inv: Invoice, b: Binding, ps: seq<Paid>, settlement: Word, paymentId: string, at: string,
                           facts: seq<Fact>, signer: Address, signed: Signed, attachment: Option<seq<Byte>>, trusted: seq<Address>)
    requires RoundTrips(c) && Ready(c, inv, b)
    requires forall i :: 0 <= i < |ps| ==> Allowed(c, b, signed.payload.relayFills, ps[i])
    requires inv.amount <= Worth(ps) < U256_LIMIT
    requires WalletFactPresent(b, facts) && AttachmentHeld(c, inv.snapshot, attachment)
    requires signed.payload == HonestPayload(c, inv, b, paymentId, at, facts, signed.payload.relayFills) && signed.signer == c.printAddress(signer)
    requires c.recover(signed.signature, AttestationDigest(signed.payload)) == Some(signer)
    requires trusted == [] || signer in trusted
    ensures VerifySpec(c, ProofFor(c, inv, b, ps, settlement, signed), attachment, trusted) == Ok(VerdictFor(c, inv, b, signer, attachment.Some?))
  {
    ChecksPass(c, inv, b, ps, settlement, paymentId, at, facts, signer, signed, attachment, trusted);
    AllChecksPass(c, ProofFor(c, inv, b, ps, settlement, signed), attachment, trusted, CommitmentFor(c, inv, b), signer);
  }

  /** The four checks on the proof of a ready binding. */
  lemma ChecksPass(c: Codec, inv: Invoice, b: Binding, ps: seq<Paid>, settlement: Word, paymentId: string, at: string,
                   facts: seq<Fact>, signer: Address, signed: Signed, attachment: Option<seq<Byte>>, trusted: seq<Address>)
    requires RoundTrips(c) && Ready(c, inv, b)
    requires forall i :: 0 <= i < |ps| ==> Allowed(c, b, signed.payload.relayFills, ps[i])
    requires inv.amount <= Worth(ps) < U256_LIMIT
    requires WalletFactPresent(b, facts) && AttachmentHeld(c, inv.snapshot, attachment)
    requires signed.payload == HonestPayload(c, inv, b, paymentId, at, facts, signed.payload.relayFills) && signed.signer == c.printAddress(signer)
    requires c.recover(signed.signature, AttestationDigest(signed.payload)) == Some(signer)
    requires trusted == [] || signer in trusted
    ensures var p, m := ProofFor(c, inv, b, ps, settlement, signed), CommitmentFor(c, inv, b);
            && CheckCommitment(c, p) == Ok(m) && CheckAttachment(c, p, attachment) == Ok(attachment.Some?)
            && CheckAttestation(c, p, m, trusted) == Ok(signer) && CheckTransfers(c, p, m).Ok?
  {
    var p := ProofFor(c, inv, b, ps, settlement, signed);
    CommitmentAccepted(c, inv, b, ps, settlement, signed);
    AttestationAccepted(c, inv, b, p, trusted, paymentId, at, facts, signer);
    TransfersAccepted(c, inv, b, p, ps, settlement);
    AttachmentAccepted(c, p, attachment);
  }

  lemma AttachmentAccepted(c: Codec, p: ProofOfPayment, attachment: Option<seq<Byte>>)
    requires AttachmentHeld(c, p.snapshot, attachment)
    ensures CheckAttachment(c, p, attachment) == Ok(attachment.Some?)
  {
  }

  lemma AllChecksPass(c: Codec, p: ProofOfPayment, attachment: Option<seq<Byte>>, trusted: seq<Address>, m: Commitment, signer: Address)
    requires CheckCommitment(c, p) == Ok(m) && CheckAttachment(c, p, attachment) == Ok(attachment.Some?)
    requires CheckAttestation(c, p, m, trusted) == Ok(signer) && CheckTransfers(c, p, m).Ok?
    ensures VerifySpec(c, p, attachment, trusted) ==
            Ok(Verification(m.hash, m.scope, if m.attested.Some? then Some(m.attested.value.wallet) else None,
                            DigestOf(m.attested), m.terms.salt, m.address, signer, attachment.Some?))
  {
  }
}
