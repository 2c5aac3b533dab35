/** Proof of Payment verification: crates/gum-core/src/proof.rs. */
module Proof {
  import opened Prelude
  import opened Hashing
  import opened Codec
  import opened Json
  import opened Attribution
  import opened DeterministicAddress
  import opened Invoice
  import PA = PayerAttestation
  import Decimal

  const PROOF_VERSION := "gum.proof.v5"
  const ATTESTATION_VERSION := "gum.attestation.v5"
  const ATTESTATION_DOMAIN := "GUM_VERIFICATION_ATTESTATION_V5"

  datatype ProofScope = Settlement | WalletAttributed

  datatype Relay = Relay(requestId: string, originChainId: string, originTransactionHash: string, originSender: string, attributionSource: string)

  datatype Transfer = Transfer(transactionHash: string, logIndex: string, sender: string, recipient: string,
                               amountBaseUnits: string, blockNumber: string, relay: Option<Relay>)

  datatype Fill = Fill(transactionHash: string, logIndex: string, relay: Relay)

  datatype Fact = Fact(kind: string, provider: string, at: string)

  datatype Payload = Payload(
    version: string, paymentId: string, scope: ProofScope, attributionHash: string, issuanceNonce: string, chainId: string,
    paymentAddress: string, payerWallet: Option<string>, walletNonce: Option<string>, result: string,
    verifiedAt: Option<string>, walletBoundAt: Option<string>, facts: seq<Fact>, relayFills: seq<Fill>)

  datatype Signed = Signed(payload: Payload, signer: string, signature: string)

  datatype ProofOfPayment = ProofOfPayment(
    version: string, paymentId: string, scope: ProofScope, snapshot: Snapshot, canonicalization: string,
    attributionHash: string, issuanceNonce: string, payerWallet: Option<PA.WalletAttestation>, salt: string,
    chainId: string, factoryAddress: string, paymentAddress: string, tokenAddress: string, recoveryAddress: string,
    settlementTransactionHash: string, transfers: seq<Transfer>, verification: Signed)

  datatype Verification = Verification(
    attributionHash: Word, scope: ProofScope, payerWallet: Option<Address>, attestationDigest: Option<Word>,
    salt: Word, paymentAddress: Address, attestationSigner: Address, attachmentVerified: bool)

  /** What a version check is about. */
  datatype Marker = ProofVersion | CanonicalizationName | InvoiceSchema | AttestationVersion

  /** The field a text that does not parse stood in. */
  datatype ProofField =
    | ChainIdField | SnapshotNetworksField | FactoryAddressField | TokenAddressField | RecoveryAddressField | AmountBaseUnitsField
    | ReceiverAddressField | ExpirationTimestampField | PaymentAddressField | AttributionHashField | IssuanceNonceField
    | SaltField | AttachmentSha256Field | PayloadPayerWalletField | PayloadWalletNonceField | PayloadAttributionHashField
    | PayloadIssuanceNonceField | PayloadPaymentAddressField | AttestationSignerField | RelayRequestIdField
    | RelayOriginTransactionHashField | RelayOriginChainIdField | RelayOriginSenderField | TransferSenderField
    | TransferTransactionHashField | TransferLogIndexField | TransferRecipientField | TransferAmountBaseUnitsField
    | TransferBlockNumberField | SettlementTransactionHashField | PayerWalletField | RelayAttributionSourceField

  datatype ProofError =
    | Unsupported(what: Marker)
    | Malformed(field: ProofField)
    | PayerAttestationError(error: PA.AttestationError)
    | AttributionHashMismatch
    | SaltMismatch
    | ChainParametersMismatch
    | ChainNotOffered
    | ScopeMismatch
    | RecoveryAddressMismatch
    | PaymentAddressMismatch
    | AttachmentNotCommitted
    | AttachmentLengthMismatch
    | AttachmentHashMismatch
    | AttestationSignatureInvalid
    | AttestationSignerMismatch
    | UntrustedAttestor
    | AttestationPaymentIdMismatch
    | AttestationScopeMismatch
    | AttestationNotPassed
    | AttestationCommitmentMismatch
    | AttestationWalletFactMissing
    | TransferRecipientMismatch
    | TransferSenderMismatch
    | RelayFillNotAttested
    | RelayOriginNotVerified
    | TransfersBelowInvoiceAmount

  function Field<T>(v: Option<T>, field: ProofField): Result<T, ProofError> {
    if v.Some? then Ok(v.value) else Err(Malformed(field))
  }

  // ------------------------------------------------------------ the signed attestation

  function ScopeText(s: ProofScope): string {
    if s == Settlement then "settlement" else "wallet_attributed"
  }

  function FactJson(f: Fact): Json {
    Obj([Member("at", Str(f.at)), Member("kind", Str(f.kind)), Member("provider", Str(f.provider))])
  }

  function FillJson(f: Fill): Json {
    Obj([Member("attribution_source", Str(f.relay.attributionSource)), Member("log_index", Str(f.logIndex)),
         Member("origin_chain_id", Str(f.relay.originChainId)), Member("origin_sender", Str(f.relay.originSender)),
         Member("origin_transaction_hash", Str(f.relay.originTransactionHash)), Member("request_id", Str(f.relay.requestId)),
         Member("transaction_hash", Str(f.transactionHash))])
  }

  function FactsJson(fs: seq<Fact>): (r: seq<Json>)
    ensures |r| == |fs|
  {
    seq(|fs|, i requires 0 <= i < |fs| => FactJson(fs[i]))
  }

  function FillsJson(fs: seq<Fill>): (r: seq<Json>)
    ensures |r| == |fs|
  {
    seq(|fs|, i requires 0 <= i < |fs| => FillJson(fs[i]))
  }

  function OptStr(v: Option<string>): Option<Json> {
    if v.Some? then Some(Str(v.value)) else None
  }

  function PayloadTail(p: Payload): seq<Member> {
    [Member("result", Str(p.result)), Member("scope", Str(ScopeText(p.scope))), Member("verified_at", Opt(p.verifiedAt)),
     Member("version", Str(p.version))]
    + (Skip("wallet_bound_at", OptStr(p.walletBoundAt)) + (Skip("wallet_nonce", OptStr(p.walletNonce)) + []))
  }

  function PayloadMiddle(p: Payload): seq<Member> {
    [Member("payment_address", Str(p.paymentAddress)), Member("payment_id", Str(p.paymentId))]
    + (Skip("relay_fills", if p.relayFills == [] then None else Some(Arr(FillsJson(p.relayFills)))) + PayloadTail(p))
  }

  function PayloadJson(p: Payload): Json {
    Obj([Member("attribution_hash", Str(p.attributionHash)), Member("chain_id", Str(p.chainId)),
         Member("facts", Arr(FactsJson(p.facts))), Member("issuance_nonce", Str(p.issuanceNonce))]
        + (Skip("payer_wallet", OptStr(p.payerWallet)) + PayloadMiddle(p)))
  }

  /** `attestation_digest`: what the attestation key signs. */
  function AttestationDigest(p: Payload): Word {
    KeccakOf(Text(ATTESTATION_DOMAIN) + Text(Write(PayloadJson(p))))
  }

  // ------------------------------------------------------------ steps 0 to 5: the commitment chain

  datatype Commitment = Commitment(scope: ProofScope, hash: Word, nonce: Word, network: NetworkTerms, attested: Option<PA.Verified>,
                                   terms: Terms, address: Address)

  function RequiredScope(s: Snapshot): ProofScope {
    if s.payerVerification.walletAttestation then WalletAttributed else Settlement
  }

  function CheckVersions(p: ProofOfPayment): Result<ProofScope, ProofError> {
    if p.version != PROOF_VERSION then Err(Unsupported(ProofVersion))
    else if p.canonicalization != CANONICALIZATION || p.snapshot.canonicalization != CANONICALIZATION then Err(Unsupported(CanonicalizationName))
    else if p.snapshot.schema != SNAPSHOT_SCHEMA then Err(Unsupported(InvoiceSchema))
    else if p.scope != RequiredScope(p.snapshot) then Err(ScopeMismatch)
    else Ok(p.scope)
  }

  /** Step 2: the chosen network is offered, and the restated factory and token are its. */
  function CheckNetwork(c: Codec, p: ProofOfPayment): Result<NetworkTerms, ProofError> {
    var chainId :- Field(c.parseU64(p.chainId), ChainIdField);
    var networks :- Field(Networks(c, p.snapshot.networks), SnapshotNetworksField);
    var found := NetworkFor(networks, chainId);
    if found.None? then Err(ChainNotOffered)
    else
      var factory :- Field(c.parseAddress(p.factoryAddress), FactoryAddressField);
      if factory != found.value.factory then Err(ChainParametersMismatch)
      else
        var token :- Field(c.parseAddress(p.tokenAddress), TokenAddressField);
        if token != found.value.token then Err(ChainParametersMismatch) else Ok(found.value)
  }

  /** Step 3: a wallet attestation exactly in the wallet-attributed scope. */
  function CheckAttested(c: Codec, p: ProofOfPayment, scope: ProofScope, network: NetworkTerms, hash: Word): Result<Option<PA.Verified>, ProofError> {
    if (scope == WalletAttributed) != p.payerWallet.Some? then Err(Malformed(PayerWalletField))
    else if p.payerWallet.None? then Ok(None)
    else
      var v := PA.Verify(c, p.payerWallet.value, PA.Scope(network.chainId, network.factory, hash));
      if v.Err? then Err(PayerAttestationError(v.error)) else Ok(Some(v.value))
  }

  function DigestOf(v: Option<PA.Verified>): Option<Word> {
    if v.Some? then Some(v.value.digest) else None
  }

  /** Step 5: the committed terms, the address they derive, and the stated address. */
  function CheckAddress(c: Codec, p: ProofOfPayment, network: NetworkTerms, salt: Word): Result<Terms, ProofError> {
    var recovery :- Field(c.parseAddress(p.recoveryAddress), RecoveryAddressField);
    var committed :- Field(c.parseAddress(p.snapshot.recoveryAddress), RecoveryAddressField);
    if recovery != committed then Err(RecoveryAddressMismatch)
    else
      var amount :- Field(c.parseU256(p.snapshot.amountBaseUnits), AmountBaseUnitsField);
      var receiver :- Field(c.parseAddress(p.snapshot.receiverAddress), ReceiverAddressField);
      var expiration :- Field(c.parseU64(p.snapshot.expirationTimestamp), ExpirationTimestampField);
      var terms := Terms(network.factory, network.token, amount, receiver, expiration, recovery, salt, network.chainId);
      var stated :- Field(c.parseAddress(p.paymentAddress), PaymentAddressField);
      if PaymentAddress(terms) != stated then Err(PaymentAddressMismatch) else Ok(terms)
  }

  function CheckCommitment(c: Codec, p: ProofOfPayment): Result<Commitment, ProofError> {
    var scope :- CheckVersions(p);
    var hash := AttributionHash(p.snapshot);
    var stated :- Field(c.parseWord(p.attributionHash), AttributionHashField);
    if hash != stated then Err(AttributionHashMismatch)
    else
      var nonce :- Field(c.parseWord(p.issuanceNonce), IssuanceNonceField);
      var network :- CheckNetwork(c, p);
      var attested :- CheckAttested(c, p, scope, network, hash);
      var salt := Salt(nonce, hash, DigestOf(attested));
      var statedSalt :- Field(c.parseWord(p.salt), SaltField);
      if salt != statedSalt then Err(SaltMismatch)
      else
        var terms :- CheckAddress(c, p, network, salt);
        Ok(Commitment(scope, hash, nonce, network, attested, terms, PaymentAddress(terms)))
  }

  // ------------------------------------------------------------ steps 6 and 7

  function CheckAttachment(c: Codec, p: ProofOfPayment, attachment: Option<seq<Byte>>): Result<bool, ProofError> {
    if attachment.None? then Ok(false)
    else if p.snapshot.attachment.None? then Err(AttachmentNotCommitted)
    else if p.snapshot.attachment.value.byteLength != Decimal.Print(|attachment.value|) then Err(AttachmentLengthMismatch)
    else
      var committed :- Field(c.parseWord(p.snapshot.attachment.value.sha256), AttachmentSha256Field);
      if Sha256Of(attachment.value) != committed then Err(AttachmentHashMismatch) else Ok(true)
  }

  predicate IsGated(v: PayerVerification) {
    v.expectedEmail.Some? || v.payerReference.Some?
  }

  function PassedResult(s: Snapshot): string {
    if IsGated(s.payerVerification) then "approved" else "not_required"
  }

  /** Whether the signed payload names the attested wallet and its nonce, or neither is claimed. */
  function CheckPayloadWallet(c: Codec, payload: Payload, attested: Option<PA.Verified>): Result<bool, ProofError> {
    if payload.payerWallet.Some? != attested.Some? then Err(AttestationCommitmentMismatch)
    else if attested.None? then Ok(true)
    else
      var wallet :- Field(c.parseAddress(payload.payerWallet.value), PayloadPayerWalletField);
      if wallet != attested.value.wallet then Ok(false)
      else if payload.walletNonce.None? then Err(AttestationCommitmentMismatch)
      else
        var nonce :- Field(c.parseWord(payload.walletNonce.value), PayloadWalletNonceField);
        Ok(nonce == attested.value.nonce)
  }

  function CheckPayloadCommitment(c: Codec, p: ProofOfPayment, m: Commitment): Result<bool, ProofError> {
    var payload := p.verification.payload;
    var walletMatches :- CheckPayloadWallet(c, payload, m.attested);
    if !walletMatches then Err(AttestationCommitmentMismatch)
    else
      var hash :- Field(c.parseWord(payload.attributionHash), PayloadAttributionHashField);
      if hash != m.hash then Err(AttestationCommitmentMismatch)
      else
        var nonce :- Field(c.parseWord(payload.issuanceNonce), PayloadIssuanceNonceField);
        if nonce != m.nonce then Err(AttestationCommitmentMismatch)
        else
          var address :- Field(c.parseAddress(payload.paymentAddress), PayloadPaymentAddressField);
          if address != m.address || payload.chainId != p.chainId then Err(AttestationCommitmentMismatch)
          else if m.scope == WalletAttributed && !(exists i :: 0 <= i < |payload.facts| && payload.facts[i].kind == "wallet")
          then Err(AttestationWalletFactMissing)
          else Ok(true)
  }

  /** Step 7, returning the key the attestation was signed with. */
  function CheckAttestation(c: Codec, p: ProofOfPayment, m: Commitment, trusted: seq<Address>): Result<Address, ProofError> {
    var signed := p.verification;
    var recovered := c.recover(signed.signature, AttestationDigest(signed.payload));
    if recovered.None? then Err(AttestationSignatureInvalid)
    else
      var signer :- Field(c.parseAddress(signed.signer), AttestationSignerField);
      if recovered.value != signer then Err(AttestationSignerMismatch)
      else if trusted != [] && recovered.value !in trusted then Err(UntrustedAttestor)
      else if signed.payload.version != ATTESTATION_VERSION then Err(Unsupported(AttestationVersion))
      else if signed.payload.paymentId != p.paymentId then Err(AttestationPaymentIdMismatch)
      else if signed.payload.scope != m.scope then Err(AttestationScopeMismatch)
      else if signed.payload.result != PassedResult(p.snapshot) then Err(AttestationNotPassed)
      else
        var _ :- CheckPayloadCommitment(c, p, m);
        Ok(recovered.value)
  }

  // ------------------------------------------------------------ step 8: the transfers

  datatype EventId = EventId(transaction: Word, logIndex: U64)
  datatype Credit = Credit(id: EventId, amount: U256)

  /** What a proof of this scope, wallet, address and signed fills asks of a transfer. */
  datatype Funding = Funding(scope: ProofScope, wallet: Option<Address>, address: Address, fills: seq<Fill>)

  function CheckRelayShape(c: Codec, r: Relay): Result<Address, ProofError> {
    var _ :- Field(c.parseWord(r.requestId), RelayRequestIdField);
    var _ :- Field(c.parseWord(r.originTransactionHash), RelayOriginTransactionHashField);
    var _ :- Field(c.parseU64(r.originChainId), RelayOriginChainIdField);
    Field(c.parseAddress(r.originSender), RelayOriginSenderField)
  }

  predicate Vouched(fills: seq<Fill>, t: Transfer, r: Relay) {
    exists i :: 0 <= i < |fills| && fills[i] == Fill(t.transactionHash, t.logIndex, r)
  }

  /** The sender rule of the wallet-attributed scope. */
  function CheckSender(c: Codec, wallet: Address, fills: seq<Fill>, t: Transfer): Result<bool, ProofError> {
    var sender :- Field(c.parseAddress(t.sender), TransferSenderField);
    if sender == wallet then Ok(true)
    else if t.relay.None? then Err(TransferSenderMismatch)
    else if t.relay.value.attributionSource != "receipt" then Err(RelayOriginNotVerified)
    else
      var origin :- CheckRelayShape(c, t.relay.value);
      if origin != wallet then Err(TransferSenderMismatch)
      else if !Vouched(fills, t, t.relay.value) then Err(RelayFillNotAttested)
      else Ok(true)
  }

  function CheckProvenance(c: Codec, f: Funding, t: Transfer): Result<bool, ProofError> {
    if f.scope == WalletAttributed && f.wallet.Some? then CheckSender(c, f.wallet.value, f.fills, t)
    else if t.relay.None? then Ok(true)
    else
      var _ :- CheckRelayShape(c, t.relay.value);
      if t.relay.value.attributionSource == "" then Err(Malformed(RelayAttributionSourceField)) else Ok(true)
  }

  function CheckTransfer(c: Codec, f: Funding, t: Transfer): Result<Credit, ProofError> {
    var hash :- Field(c.parseWord(t.transactionHash), TransferTransactionHashField);
    var logIndex :- Field(c.parseU64(t.logIndex), TransferLogIndexField);
    var recipient :- Field(c.parseAddress(t.recipient), TransferRecipientField);
    if recipient != f.address then Err(TransferRecipientMismatch)
    else
      var _ :- CheckProvenance(c, f, t);
      var amount :- Field(c.parseU256(t.amountBaseUnits), TransferAmountBaseUnitsField);
      var _ :- Field(c.parseU64(t.blockNumber), TransferBlockNumberField);
      Ok(Credit(EventId(hash, logIndex), amount))
  }

  /** The per-transfer check of one proof, as the loop applies it. */
  function Checker(c: Codec, f: Funding): Transfer -> Result<Credit, ProofError> {
    t => CheckTransfer(c, f, t)
  }

  datatype Tally = Tally(seen: set<EventId>, total: U256)

  /** One round of the transfer loop. */
  function AddCredit(t: Tally, credit: Credit): Result<Tally, ProofError> {
    if credit.id in t.seen then Ok(t)
    else if t.total + credit.amount >= U256_LIMIT then Err(Malformed(TransferAmountBaseUnitsField))
    else Ok(Tally(t.seen + {credit.id}, t.total + credit.amount))
  }

  function TallyOf(check: Transfer -> Result<Credit, ProofError>, ts: seq<Transfer>): Result<Tally, ProofError> {
    if ts == [] then Ok(Tally({}, 0))
    else
      var before :- TallyOf(check, ts[..|ts| - 1]);
      var credit :- check(ts[|ts| - 1]);
      AddCredit(before, credit)
  }

  /** The loop itself: a running total and a set of events already credited. */
  method SumTransfers(check: Transfer -> Result<Credit, ProofError>, ts: seq<Transfer>) returns (r: Result<U256, ProofError>)
    ensures r.Ok? <==> TallyOf(check, ts).Ok?
    ensures r.Ok? ==> r.value == TallyOf(check, ts).value.total
    ensures r.Err? ==> r.error == TallyOf(check, ts).error
  {
    var total: nat := 0;
    var seen: set<EventId> := {};
    for i := 0 to |ts|
      invariant total < U256_LIMIT
      invariant TallyOf(check, ts[..i]) == Ok(Tally(seen, total))
    {
      assert ts[..i + 1][..i] == ts[..i];
      var credit := check(ts[i]);
      if credit.Err? {
        PrefixError(check, ts, i + 1);
        return Err(credit.error);
      }
      if credit.value.id !in seen {
        if total + credit.value.amount >= U256_LIMIT {
          PrefixError(check, ts, i + 1);
          return Err(Malformed(TransferAmountBaseUnitsField));
        }
        seen, total := seen + {credit.value.id}, total + credit.value.amount;
      }
    }
    assert ts[..|ts|] == ts;
    return Ok(total);
  }

  /** The first failing transfer decides the error. */
  lemma {:induction false} PrefixError(check: Transfer -> Result<Credit, ProofError>, ts: seq<Transfer>, n: nat)
    requires n <= |ts| && TallyOf(check, ts[..n]).Err?
    ensures TallyOf(check, ts) == TallyOf(check, ts[..n])
    decreases |ts|
  {
    if n == |ts| {
      assert ts[..n] == ts;
    } else {
      assert ts[..|ts| - 1][..n] == ts[..n];
      PrefixError(check, ts[..|ts| - 1], n);
    }
  }

  function FundingOf(p: ProofOfPayment, m: Commitment): Funding {
    Funding(m.scope, if m.attested.Some? then Some(m.attested.value.wallet) else None, m.address, p.verification.payload.relayFills)
  }

  function CheckTransfers(c: Codec, p: ProofOfPayment, m: Commitment): Result<U256, ProofError> {
    var _ :- Field(c.parseWord(p.settlementTransactionHash), SettlementTransactionHashField);
    var tally :- TallyOf(Checker(c, FundingOf(p, m)), p.transfers);
    if tally.total < m.terms.amount then Err(TransfersBelowInvoiceAmount) else Ok(tally.total)
  }

  function VerifySpec(c: Codec, p: ProofOfPayment, attachment: Option<seq<Byte>>, trusted: seq<Address>): Result<Verification, ProofError> {
    var m :- CheckCommitment(c, p);
    Verdict(m, CheckAttachment(c, p, attachment), CheckAttestation(c, p, m, trusted), CheckTransfers(c, p, m))
  }

  /** The first of the remaining checks that fails, or what is returned. */
  function Verdict(m: Commitment, attachment: Result<bool, ProofError>, attestation: Result<Address, ProofError>,
                   total: Result<U256, ProofError>): Result<Verification, ProofError>
  {
    var attachmentVerified :- attachment;
    var signer :- attestation;
    var _ :- total;
    Ok(Verification(m.hash, m.scope, if m.attested.Some? then Some(m.attested.value.wallet) else None,
                    DigestOf(m.attested), m.terms.salt, m.address, signer, attachmentVerified))
  }

  /** `verify_proof`. */
  method VerifyProof(c: Codec, p: ProofOfPayment, attachment: Option<seq<Byte>>, trusted: seq<Address>) returns (r: Result<Verification, ProofError>)
    ensures r == VerifySpec(c, p, attachment, trusted)
  {
    var m :- CheckCommitment(c, p);
    var attachmentVerified :- CheckAttachment(c, p, attachment);
    var signer :- CheckAttestation(c, p, m, trusted);
    var _ :- Field(c.parseWord(p.settlementTransactionHash), SettlementTransactionHashField);
    var total := SumTransfers(Checker(c, FundingOf(p, m)), p.transfers);
    if total.Err? {
      return Err(total.error);
    }
    if total.value < m.terms.amount {
      return Err(TransfersBelowInvoiceAmount);
    }
    return Ok(Verification(m.hash, m.scope, if m.attested.Some? then Some(m.attested.value.wallet) else None,
                           DigestOf(m.attested), m.terms.salt, m.address, signer, attachmentVerified));
  }
}
