/** When `verify_proof` accepts, in terms of the document's own fields. */
module ProofAcceptance {
  import opened Prelude
  import opened Hashing
  import opened Codec
  import opened Attribution
  import opened DeterministicAddress
  import opened Invoice
  import opened Proof
  import opened ProofBinding
  import opened ProofFunding
  import PA = PayerAttestation
  import Decimal

  // ------------------------------------------------------------ what each part of the document must say

  ghost predicate MarkersRight(p: ProofOfPayment) {
    && p.version == PROOF_VERSION && p.canonicalization == CANONICALIZATION
    && p.snapshot.canonicalization == CANONICALIZATION && p.snapshot.schema == SNAPSHOT_SCHEMA
    && p.scope == (if p.snapshot.payerVerification.walletAttestation then WalletAttributed else Settlement)
  }

  /** A network entry of the snapshot, read. */
  ghost predicate Reads(c: Codec, n: SnapshotNetwork, t: NetworkTerms) {
    c.parseU64(n.chainId) == Some(t.chainId) && c.parseAddress(n.tokenAddress) == Some(t.token) && c.parseAddress(n.factoryAddress) == Some(t.factory)
  }

  ghost predicate AllRead(c: Codec, offers: seq<SnapshotNetwork>) {
    forall i :: 0 <= i < |offers| ==>
      c.parseU64(offers[i].chainId).Some? && c.parseAddress(offers[i].tokenAddress).Some? && c.parseAddress(offers[i].factoryAddress).Some?
  }

  /** The entry at `i` is these terms, and the first of their chain. */
  ghost predicate FirstOffer(c: Codec, offers: seq<SnapshotNetwork>, t: NetworkTerms, i: int) {
    0 <= i < |offers| && Reads(c, offers[i], t) && forall j :: 0 <= j < i ==> c.parseU64(offers[j].chainId) != Some(t.chainId)
  }

  /** The network stated is the first that the request offers on its chain, and every offer reads. */
  ghost predicate NetworkRight(c: Codec, p: ProofOfPayment, t: NetworkTerms) {
    && c.parseU64(p.chainId) == Some(t.chainId)
    && c.parseAddress(p.factoryAddress) == Some(t.factory) && c.parseAddress(p.tokenAddress) == Some(t.token)
    && AllRead(c, p.snapshot.networks) && exists i :: FirstOffer(c, p.snapshot.networks, t, i)
  }

  /** A wallet attestation is there exactly when the request calls for one, and it is for this request on this network. */
  ghost predicate WalletRight(c: Codec, p: ProofOfPayment, network: NetworkTerms, hash: Word, attested: Option<PA.Verified>) {
    && (p.payerWallet.Some? <==> p.scope == WalletAttributed)
    && (attested.Some? <==> p.payerWallet.Some?)
    && (attested.Some? ==> PA.Attests(c, p.payerWallet.value, PA.Scope(network.chainId, network.factory, hash), attested.value))
  }

  /** The terms are the snapshot's on that network, and they derive the stated address. */
  ghost predicate TermsRight(c: Codec, p: ProofOfPayment, network: NetworkTerms, t: Terms) {
    && t.factory == network.factory && t.token == network.token && t.chainId == network.chainId
    && c.parseU256(p.snapshot.amountBaseUnits) == Some(t.amount)
    && c.parseAddress(p.snapshot.receiverAddress) == Some(t.receiver)
    && c.parseU64(p.snapshot.expirationTimestamp) == Some(t.expiration)
    && c.parseAddress(p.snapshot.recoveryAddress) == Some(t.recovery) && c.parseAddress(p.recoveryAddress) == Some(t.recovery)
    && c.parseAddress(p.paymentAddress) == Some(PaymentAddress(t))
  }

  ghost predicate CommitmentRight(c: Codec, p: ProofOfPayment, m: Commitment) {
    && MarkersRight(p) && m.scope == p.scope
    && m.hash == AttributionHash(p.snapshot) && c.parseWord(p.attributionHash) == Some(m.hash)
    && c.parseWord(p.issuanceNonce) == Some(m.nonce)
    && NetworkRight(c, p, m.network) && WalletRight(c, p, m.network, m.hash, m.attested)
    && m.terms.salt == Salt(m.nonce, m.hash, if m.attested.Some? then Some(m.attested.value.digest) else None)
    && c.parseWord(p.salt) == Some(m.terms.salt)
    && TermsRight(c, p, m.network, m.terms) && m.address == PaymentAddress(m.terms)
  }

  /** A file handed in is the one committed to: the length in decimal, and the digest. */
  ghost predicate AttachmentRight(c: Codec, s: Snapshot, file: Option<seq<Byte>>) {
    file.Some? ==>
      && s.attachment.Some? && s.attachment.value.byteLength == Decimal.Print(|file.value|)
      && c.parseWord(s.attachment.value.sha256) == Some(Sha256Of(file.value))
  }

  /** The outcome the signed payload must report: approval if an identity add-on gates the request. */
  ghost predicate ResultRight(v: PayerVerification, result: string) {
    result == (if v.expectedEmail.Some? || v.payerReference.Some? then "approved" else "not_required")
  }

  /** The signed payload names the attested wallet and its nonce and records the fact, or names no wallet. */
  ghost predicate PayloadWalletRight(c: Codec, payload: Payload, attested: Option<PA.Verified>) {
    && (payload.payerWallet.Some? <==> attested.Some?)
    && (attested.Some? ==>
          && c.parseAddress(payload.payerWallet.value) == Some(attested.value.wallet)
          && payload.walletNonce.Some? && c.parseWord(payload.walletNonce.value) == Some(attested.value.nonce))
  }

  ghost predicate PayloadRight(c: Codec, p: ProofOfPayment, m: Commitment) {
    var payload := p.verification.payload;
    && payload.version == ATTESTATION_VERSION && payload.paymentId == p.paymentId && payload.scope == m.scope
    && ResultRight(p.snapshot.payerVerification, payload.result)
    && PayloadWalletRight(c, payload, m.attested)
    && c.parseWord(payload.attributionHash) == Some(m.hash) && c.parseWord(payload.issuanceNonce) == Some(m.nonce)
    && c.parseAddress(payload.paymentAddress) == Some(m.address) && payload.chainId == p.chainId
    && (m.scope == WalletAttributed ==> exists i :: 0 <= i < |payload.facts| && payload.facts[i].kind == "wallet")
  }

  ghost predicate SignatureRight(c: Codec, signed: Signed, trusted: seq<Address>, signer: Address) {
    && c.recover(signed.signature, AttestationDigest(signed.payload)) == Some(signer)
    && c.parseAddress(signed.signer) == Some(signer)
    && (trusted == [] || signer in trusted)
  }

  /** A relay block whose identifiers read. */
  ghost predicate RelayReads(c: Codec, r: Relay) {
    && c.parseWord(r.requestId).Some? && c.parseWord(r.originTransactionHash).Some?
    && c.parseU64(r.originChainId).Some? && c.parseAddress(r.originSender).Some?
  }

  /** Who may have sent a transfer: in the wallet scope the wallet, itself or through a fill that was signed. */
  ghost predicate SenderRight(c: Codec, f: Funding, t: Transfer) {
    if f.scope == WalletAttributed && f.wallet.Some? then
      && c.parseAddress(t.sender).Some?
      && (|| c.parseAddress(t.sender) == f.wallet
          || (&& t.relay.Some? && t.relay.value.attributionSource == "receipt" && RelayReads(c, t.relay.value)
              && c.parseAddress(t.relay.value.originSender) == f.wallet
              && Fill(t.transactionHash, t.logIndex, t.relay.value) in f.fills))
    else t.relay.Some? ==> RelayReads(c, t.relay.value) && t.relay.value.attributionSource != ""
  }

  ghost predicate TransferRight(c: Codec, f: Funding, t: Transfer) {
    && c.parseWord(t.transactionHash).Some? && c.parseU64(t.logIndex).Some? && c.parseU256(t.amountBaseUnits).Some?
    && c.parseU64(t.blockNumber).Some? && c.parseAddress(t.recipient) == Some(f.address)
    && SenderRight(c, f, t)
  }

  /** The event a transfer names and its amount, as its texts read. */
  function Stated(c: Codec): Check {
    (t: Transfer) =>
      var hash, index, amount := c.parseWord(t.transactionHash), c.parseU64(t.logIndex), c.parseU256(t.amountBaseUnits);
      if hash.Some? && index.Some? && amount.Some? then Ok(Credit(EventId(hash.value, index.value), amount.value))
      else Err(Malformed(TransferTransactionHashField))
  }

  /** Every transfer is right, and the distinct events, each at its first-listed amount, cover the request. */
  ghost predicate FundingRight(c: Codec, p: ProofOfPayment, m: Commitment) {
    var f := Funding(m.scope, if m.attested.Some? then Some(m.attested.value.wallet) else None, m.address, p.verification.payload.relayFills);
    && c.parseWord(p.settlementTransactionHash).Some?
    && (forall i :: 0 <= i < |p.transfers| ==> TransferRight(c, f, p.transfers[i]))
    && m.terms.amount <= Credited(Stated(c), p.transfers) < U256_LIMIT
  }

  // ------------------------------------------------------------ each check is exactly that

  lemma MarkersExactly(p: ProofOfPayment)
    ensures CheckVersions(p).Ok? <==> MarkersRight(p)
    ensures CheckVersions(p).Ok? ==> CheckVersions(p).value == p.scope
  {
  }

  lemma {:induction false} OffersRead(c: Codec, ns: seq<SnapshotNetwork>)
    ensures Networks(c, ns).Some? <==> AllRead(c, ns)
  {
    if ns != [] {
      OffersRead(c, ns[1..]);
      assert forall i :: 0 <= i < |ns| - 1 ==> ns[1..][i] == ns[i + 1];
      assert forall i :: 0 < i < |ns| ==> ns[i] == ns[1..][i - 1];
    }
  }

  /** The network at `i` is the first of its chain. */
  ghost predicate FirstAt(ns: seq<NetworkTerms>, t: NetworkTerms, i: int) {
    0 <= i < |ns| && ns[i] == t && forall j :: 0 <= j < i ==> ns[j].chainId != t.chainId
  }

  lemma FirstAtRest(ns: seq<NetworkTerms>, t: NetworkTerms, i: int)
    requires ns != [] && ns[0].chainId != t.chainId
    ensures FirstAt(ns, t, i) <==> FirstAt(ns[1..], t, i - 1)
  {
    assert forall j :: 0 <= j < |ns| - 1 ==> ns[1..][j] == ns[j + 1];
    assert forall j :: 0 < j < |ns| ==> ns[j] == ns[1..][j - 1];
  }

  lemma {:induction false} FirstOfChain(ns: seq<NetworkTerms>, t: NetworkTerms)
    ensures NetworkFor(ns, t.chainId) == Some(t) <==> exists i :: FirstAt(ns, t, i)
  {
    if ns != [] {
      if ns[0].chainId == t.chainId {
        assert ns[0] == t ==> FirstAt(ns, t, 0);
      } else {
        FirstOfChain(ns[1..], t);
        if i :| FirstAt(ns[1..], t, i) {
          FirstAtRest(ns, t, i + 1);
        }
        if i :| FirstAt(ns, t, i) {
          FirstAtRest(ns, t, i);
        }
      }
    }
  }

  lemma ReadsExactly(c: Codec, n: SnapshotNetwork, t: NetworkTerms)
    ensures TermsOf(c, n) == Some(t) <==> Reads(c, n, t)
    ensures TermsOf(c, n).Some? ==> c.parseU64(n.chainId) == Some(TermsOf(c, n).value.chainId)
  {
  }

  lemma FirstExactly(c: Codec, offers: seq<SnapshotNetwork>, ns: seq<NetworkTerms>, t: NetworkTerms, i: int)
    requires |ns| == |offers| && forall j :: 0 <= j < |ns| ==> TermsOf(c, offers[j]) == Some(ns[j])
    ensures FirstAt(ns, t, i) <==> FirstOffer(c, offers, t, i)
  {
    forall j | 0 <= j < |ns|
      ensures ns[j] == t <==> Reads(c, offers[j], t)
      ensures c.parseU64(offers[j].chainId) == Some(ns[j].chainId)
    {
      ReadsExactly(c, offers[j], t);
    }
  }

  lemma OffersExactly(c: Codec, offers: seq<SnapshotNetwork>, t: NetworkTerms)
    ensures (Networks(c, offers).Some? && NetworkFor(Networks(c, offers).value, t.chainId) == Some(t)) <==>
            (AllRead(c, offers) && exists i :: FirstOffer(c, offers, t, i))
  {
    OffersRead(c, offers);
    if Networks(c, offers).Some? {
      var ns := Networks(c, offers).value;
      FirstOfChain(ns, t);
      forall i
        ensures FirstAt(ns, t, i) <==> FirstOffer(c, offers, t, i)
      {
        FirstExactly(c, offers, ns, t, i);
      }
    }
  }

  lemma NetworkExactly(c: Codec, p: ProofOfPayment, t: NetworkTerms)
    ensures CheckNetwork(c, p) == Ok(t) <==> NetworkRight(c, p, t)
  {
    OffersExactly(c, p.snapshot.networks, t);
  }

  lemma WalletExactly(c: Codec, p: ProofOfPayment, network: NetworkTerms, hash: Word, attested: Option<PA.Verified>)
    ensures CheckAttested(c, p, p.scope, network, hash) == Ok(attested) <==> WalletRight(c, p, network, hash, attested)
  {
    if p.payerWallet.Some? && attested.Some? {
      PA.VerifiedExactly(c, p.payerWallet.value, PA.Scope(network.chainId, network.factory, hash), attested.value);
    }
  }

  lemma TermsExactly(c: Codec, p: ProofOfPayment, network: NetworkTerms, t: Terms)
    ensures CheckAddress(c, p, network, t.salt) == Ok(t) <==> TermsRight(c, p, network, t)
  {
  }

  lemma AttachmentExactly(c: Codec, p: ProofOfPayment, file: Option<seq<Byte>>)
    ensures CheckAttachment(c, p, file).Ok? <==> AttachmentRight(c, p.snapshot, file)
    ensures CheckAttachment(c, p, file).Ok? ==> CheckAttachment(c, p, file).value == file.Some?
  {
  }

  lemma PayloadWalletExactly(c: Codec, payload: Payload, attested: Option<PA.Verified>)
    ensures CheckPayloadWallet(c, payload, attested) == Ok(true) <==> PayloadWalletRight(c, payload, attested)
  {
  }

  lemma TransferExactly(c: Codec, f: Funding, t: Transfer)
    ensures CheckTransfer(c, f, t).Ok? <==> TransferRight(c, f, t)
    ensures CheckTransfer(c, f, t).Ok? ==> CheckTransfer(c, f, t) == Stated(c)(t)
  {
    SenderExactly(c, f, t);
  }

  lemma RelayExactly(c: Codec, r: Relay)
    ensures CheckRelayShape(c, r).Ok? <==> RelayReads(c, r)
    ensures CheckRelayShape(c, r).Ok? ==> c.parseAddress(r.originSender) == Some(CheckRelayShape(c, r).value)
  {
  }

  lemma SenderExactly(c: Codec, f: Funding, t: Transfer)
    ensures CheckProvenance(c, f, t).Ok? <==> SenderRight(c, f, t)
  {
    if t.relay.Some? {
      RelayExactly(c, t.relay.value);
    }
  }

  lemma PayloadExactly(c: Codec, p: ProofOfPayment, m: Commitment, trusted: seq<Address>, signer: Address)
    ensures CheckAttestation(c, p, m, trusted) == Ok(signer) <==> PayloadRight(c, p, m) && SignatureRight(c, p.verification, trusted, signer)
  {
    StatementsExactly(c, p, m);
  }

  /** The part of the payload that repeats the commitment. */
  ghost predicate StatementsRight(c: Codec, p: ProofOfPayment, m: Commitment) {
    var payload := p.verification.payload;
    && PayloadWalletRight(c, payload, m.attested)
    && c.parseWord(payload.attributionHash) == Some(m.hash) && c.parseWord(payload.issuanceNonce) == Some(m.nonce)
    && c.parseAddress(payload.paymentAddress) == Some(m.address) && payload.chainId == p.chainId
    && (m.scope == WalletAttributed ==> exists i :: 0 <= i < |payload.facts| && payload.facts[i].kind == "wallet")
  }

  lemma StatementsExactly(c: Codec, p: ProofOfPayment, m: Commitment)
    ensures CheckPayloadCommitment(c, p, m).Ok? <==> StatementsRight(c, p, m)
  {
    PayloadWalletExactly(c, p.verification.payload, m.attested);
  }

  lemma FundingExactly(c: Codec, p: ProofOfPayment, m: Commitment)
    ensures CheckTransfers(c, p, m).Ok? <==> FundingRight(c, p, m)
  {
    var f := FundingOf(p, m);
    var check := Checker(c, f);
    TallyIsCredited(check, p.transfers);
    forall i | 0 <= i < |p.transfers|
      ensures check(p.transfers[i]).Ok? <==> TransferRight(c, f, p.transfers[i])
      ensures check(p.transfers[i]).Ok? ==> check(p.transfers[i]) == Stated(c)(p.transfers[i])
    {
      TransferExactly(c, f, p.transfers[i]);
    }
    if AllPass(check, p.transfers) {
      SameCredits(check, Stated(c), p.transfers);
    }
  }

  /** The sum asks a check for the event and the amount only. */
  lemma SameCredits(a: Check, b: Check, ts: seq<Transfer>)
    requires forall i :: 0 <= i < |ts| ==> a(ts[i]) == b(ts[i])
    ensures Credited(a, ts) == Credited(b, ts)
  {
    assert EventsOf(a, ts) == EventsOf(b, ts);
    forall id
      ensures FirstAmount(a, ts, id) == FirstAmount(b, ts, id)
    {
      SameFirst(a, b, ts, id);
    }
    SumOverSame(EventsOf(a, ts), id => FirstAmount(a, ts, id), id => FirstAmount(b, ts, id));
  }

  lemma {:induction false} SameFirst(a: Check, b: Check, ts: seq<Transfer>, id: EventId)
    requires forall i :: 0 <= i < |ts| ==> a(ts[i]) == b(ts[i])
    ensures FirstAmount(a, ts, id) == FirstAmount(b, ts, id)
  {
    if ts != [] {
      assert forall i :: 0 <= i < |ts| - 1 ==> ts[1..][i] == ts[i + 1];
      SameFirst(a, b, ts[1..], id);
    }
  }

  /** The commitment chain, link by link. */
  ghost predicate Links(c: Codec, p: ProofOfPayment, m: Commitment) {
    && CheckVersions(p) == Ok(m.scope)
    && m.hash == AttributionHash(p.snapshot) && c.parseWord(p.attributionHash) == Some(m.hash)
    && c.parseWord(p.issuanceNonce) == Some(m.nonce)
    && CheckNetwork(c, p) == Ok(m.network) && CheckAttested(c, p, m.scope, m.network, m.hash) == Ok(m.attested)
    && m.terms.salt == Salt(m.nonce, m.hash, DigestOf(m.attested)) && c.parseWord(p.salt) == Some(m.terms.salt)
    && CheckAddress(c, p, m.network, m.terms.salt) == Ok(m.terms) && m.address == PaymentAddress(m.terms)
  }

  lemma LinkedPasses(c: Codec, p: ProofOfPayment, m: Commitment)
    requires Links(c, p, m)
    ensures CheckCommitment(c, p) == Ok(m)
  {
  }

  lemma PassedLinks(c: Codec, p: ProofOfPayment, m: Commitment)
    requires CheckCommitment(c, p) == Ok(m)
    ensures Links(c, p, m)
  {
    CommitmentHead(c, p, m);
    CommitmentStated(c, p);
    SaltStated(c, p);
    AddressMeans(c, p, m.network, Salt(m.nonce, m.hash, DigestOf(m.attested)), m.terms);
  }

  lemma CommitmentExactly(c: Codec, p: ProofOfPayment, m: Commitment)
    ensures CheckCommitment(c, p) == Ok(m) <==> CommitmentRight(c, p, m)
  {
    if CheckCommitment(c, p) == Ok(m) {
      PassedLinks(c, p, m);
    } else if Links(c, p, m) {
      LinkedPasses(c, p, m);
    }
    MarkersExactly(p);
    NetworkExactly(c, p, m.network);
    WalletExactly(c, p, m.network, m.hash, m.attested);
    TermsExactly(c, p, m.network, m.terms);
  }

  // ------------------------------------------------------------ the whole

  /** A proof is genuine when every part of it is right, and this is what is learned from it. */
  ghost predicate Genuine(c: Codec, p: ProofOfPayment, file: Option<seq<Byte>>, trusted: seq<Address>, m: Commitment, v: Verification) {
    && CommitmentRight(c, p, m) && AttachmentRight(c, p.snapshot, file)
    && PayloadRight(c, p, m) && SignatureRight(c, p.verification, trusted, v.attestationSigner) && FundingRight(c, p, m)
    && v.attributionHash == m.hash && v.scope == m.scope && v.salt == m.terms.salt && v.paymentAddress == m.address
    && v.payerWallet == (if m.attested.Some? then Some(m.attested.value.wallet) else None)
    && v.attestationDigest == (if m.attested.Some? then Some(m.attested.value.digest) else None)
    && v.attachmentVerified == file.Some?
  }

  /** The verifier accepts exactly the genuine proofs. */
  lemma AcceptedExactly(c: Codec, p: ProofOfPayment, file: Option<seq<Byte>>, trusted: seq<Address>, v: Verification)
    ensures VerifySpec(c, p, file, trusted) == Ok(v) <==> exists m :: Genuine(c, p, file, trusted, m, v)
  {
    forall m
      ensures (CheckCommitment(c, p) == Ok(m) && VerifySpec(c, p, file, trusted) == Ok(v)) <==> Genuine(c, p, file, trusted, m, v)
    {
      GenuineExactly(c, p, file, trusted, m, v);
    }
    if VerifySpec(c, p, file, trusted) == Ok(v) {
      assert CheckCommitment(c, p).Ok?;
    }
  }

  lemma GenuineExactly(c: Codec, p: ProofOfPayment, file: Option<seq<Byte>>, trusted: seq<Address>, m: Commitment, v: Verification)
    ensures (CheckCommitment(c, p) == Ok(m) && VerifySpec(c, p, file, trusted) == Ok(v)) <==> Genuine(c, p, file, trusted, m, v)
  {
    CommitmentExactly(c, p, m);
    AttachmentExactly(c, p, file);
    PayloadExactly(c, p, m, trusted, v.attestationSigner);
    FundingExactly(c, p, m);
  }
}
