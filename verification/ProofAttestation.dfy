/** Neither signature of an accepted proof can be moved to another request, and its attachment is the committed one. */
module ProofAttestation {
  import opened Prelude
  import opened Hashing
  import opened Codec
  import opened Attribution
  import opened Proof
  import opened ProofBinding
  import PA = PayerAttestation

  /** What the signed payload of an accepted proof says about the request it came with. */
  lemma AttestedCommitment(c: Codec, p: ProofOfPayment, m: Commitment, trusted: seq<Address>, signer: Address)
    requires CheckAttestation(c, p, m, trusted) == Ok(signer)
    ensures var payload := p.verification.payload;
            && c.recover(p.verification.signature, AttestationDigest(payload)) == Some(signer)
            && (trusted == [] || signer in trusted)
            && payload.paymentId == p.paymentId && payload.scope == m.scope && payload.result == PassedResult(p.snapshot)
            && c.parseWord(payload.attributionHash) == Some(m.hash) && c.parseWord(payload.issuanceNonce) == Some(m.nonce)
            && c.parseAddress(payload.paymentAddress) == Some(m.address) && payload.chainId == p.chainId
  {
  }

  /** Everything an accepted proof states about itself is what verification recomputed. */
  lemma AcceptedStatesTheTruth(c: Codec, p: ProofOfPayment, a: Option<seq<Byte>>, ts: seq<Address>, v: Verification)
    requires VerifySpec(c, p, a, ts) == Ok(v)
    ensures p.version == PROOF_VERSION && p.canonicalization == p.snapshot.canonicalization == CANONICALIZATION
    ensures p.snapshot.schema == SNAPSHOT_SCHEMA && p.verification.payload.version == ATTESTATION_VERSION
    ensures p.scope == v.scope == RequiredScope(p.snapshot)
    ensures c.parseWord(p.attributionHash) == Some(v.attributionHash) && v.attributionHash == AttributionHash(p.snapshot)
    ensures c.parseWord(p.salt) == Some(v.salt) && c.parseAddress(p.paymentAddress) == Some(v.paymentAddress)
    ensures c.parseAddress(p.verification.signer) == Some(v.attestationSigner) && (ts == [] || v.attestationSigner in ts)
    ensures c.parseWord(p.settlementTransactionHash).Some? && (v.attachmentVerified <==> a.Some?)
  {
    AcceptedMeans(c, p, a, ts, v);
    CommitmentMeans(c, p);
    CommitmentStated(c, p);
    SaltStated(c, p);
  }

  /**
   * Gum's attestation cannot be transplanted: two accepted proofs whose payloads have one digest
   * are about the same request, address, payment and wallet.
   */
  lemma AttestationNotTransplanted(c: Codec, p: ProofOfPayment, v: Verification, q: ProofOfPayment, w: Verification,
                                   a: Option<seq<Byte>>, b: Option<seq<Byte>>, ts: seq<Address>, us: seq<Address>)
    requires VerifySpec(c, p, a, ts) == Ok(v) && VerifySpec(c, q, b, us) == Ok(w)
    requires AttestationDigest(p.verification.payload) == AttestationDigest(q.verification.payload)
    ensures p.snapshot == q.snapshot && p.paymentId == q.paymentId && p.chainId == q.chainId
    ensures v.paymentAddress == w.paymentAddress && v.payerWallet == w.payerWallet && v.scope == w.scope && v.salt == w.salt
  {
    AcceptedMeans(c, p, a, ts, v);
    AcceptedMeans(c, q, b, us, w);
    AttestationDigestInjective(p.verification.payload, q.verification.payload);
    AttestedCommitment(c, p, CheckCommitment(c, p).value, ts, v.attestationSigner);
    AttestedCommitment(c, q, CheckCommitment(c, q).value, us, w.attestationSigner);
    AcceptedProofsAgree(c, p, v, q, w, a, b, ts, us);
  }

  /**
   * Nor can the payer's: one wallet attestation accepted in two proofs is the same wallet's, for
   * the same request on the same chain and factory.
   */
  lemma WalletAttestationNotTransplanted(c: Codec, p: ProofOfPayment, v: Verification, q: ProofOfPayment, w: Verification,
                                         a: Option<seq<Byte>>, b: Option<seq<Byte>>, ts: seq<Address>, us: seq<Address>)
    requires VerifySpec(c, p, a, ts) == Ok(v) && VerifySpec(c, q, b, us) == Ok(w)
    requires v.attestationDigest.Some? && v.attestationDigest == w.attestationDigest
    ensures p.snapshot == q.snapshot && v.payerWallet == w.payerWallet && v.scope == w.scope == WalletAttributed
    ensures CheckNetwork(c, p) == CheckNetwork(c, q)
  {
    AcceptedMeans(c, p, a, ts, v);
    AcceptedMeans(c, q, b, us, w);
    SameAttestationSameRequest(c, p, q);
  }

  lemma SameAttestationSameRequest(c: Codec, p: ProofOfPayment, q: ProofOfPayment)
    requires CheckCommitment(c, p).Ok? && CheckCommitment(c, q).Ok?
    requires CheckCommitment(c, p).value.attested.Some? && CheckCommitment(c, q).value.attested.Some?
    requires CheckCommitment(c, p).value.attested.value.digest == CheckCommitment(c, q).value.attested.value.digest
    ensures p.snapshot == q.snapshot && CheckNetwork(c, p) == CheckNetwork(c, q)
    ensures CheckCommitment(c, p).value.attested == CheckCommitment(c, q).value.attested
    ensures CheckCommitment(c, p).value.scope == CheckCommitment(c, q).value.scope == WalletAttributed
  {
    var m, n := CheckCommitment(c, p).value, CheckCommitment(c, q).value;
    CommitmentMeans(c, p);
    CommitmentMeans(c, q);
    AttestedMeans(c, p);
    AttestedMeans(c, q);
    PA.DigestInjective(PA.SignedMessage(PA.Scope(m.network.chainId, m.network.factory, m.hash), m.attested.value),
                       PA.SignedMessage(PA.Scope(n.network.chainId, n.network.factory, n.hash), n.attested.value));
    AttributionHashInjective(p.snapshot, q.snapshot);
    SameChainSameNetwork(c, p, q);
  }

  /** One snapshot offers one network per chain. */
  lemma SameChainSameNetwork(c: Codec, p: ProofOfPayment, q: ProofOfPayment)
    requires CheckNetwork(c, p).Ok? && CheckNetwork(c, q).Ok? && p.snapshot == q.snapshot
    requires CheckNetwork(c, p).value.chainId == CheckNetwork(c, q).value.chainId
    ensures CheckNetwork(c, p) == CheckNetwork(c, q)
  {
  }

  lemma Sha256Injective(a: seq<Byte>, b: seq<Byte>)
    requires Sha256Of(a) == Sha256Of(b)
    ensures a == b
  {
    assert Sha256Of(a)[0] == Sha256Of(b)[0];
  }

  /** Accepted attachments of one payment address are one file. */
  lemma AttachmentIsCommitted(c: Codec, p: ProofOfPayment, v: Verification, q: ProofOfPayment, w: Verification,
                              a: seq<Byte>, b: seq<Byte>, ts: seq<Address>, us: seq<Address>)
    requires VerifySpec(c, p, Some(a), ts) == Ok(v) && VerifySpec(c, q, Some(b), us) == Ok(w)
    requires v.paymentAddress == w.paymentAddress
    ensures a == b && v.attachmentVerified && w.attachmentVerified
  {
    AcceptedProofsAgree(c, p, v, q, w, Some(a), Some(b), ts, us);
    AttachmentChecked(c, p, v, a, ts);
    AttachmentChecked(c, q, w, b, us);
    Sha256Injective(a, b);
  }

  lemma AttachmentChecked(c: Codec, p: ProofOfPayment, v: Verification, a: seq<Byte>, ts: seq<Address>)
    requires VerifySpec(c, p, Some(a), ts) == Ok(v)
    ensures v.attachmentVerified && p.snapshot.attachment.Some?
    ensures c.parseWord(p.snapshot.attachment.value.sha256) == Some(Sha256Of(a))
  {
  }
}
