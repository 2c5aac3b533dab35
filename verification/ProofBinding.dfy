/** What an accepted proof's address and signature pin down. */
module ProofBinding {
  import opened Prelude
  import opened Hashing
  import opened Codec
  import opened Json
  import opened Attribution
  import opened DeterministicAddress
  import opened Invoice
  import opened Proof
  import PA = PayerAttestation

  lemma CommitmentHead(c: Codec, p: ProofOfPayment, m: Commitment)
    requires CheckCommitment(c, p) == Ok(m)
    ensures m.scope == RequiredScope(p.snapshot) && m.hash == AttributionHash(p.snapshot)
    ensures c.parseWord(p.issuanceNonce) == Some(m.nonce) && CheckNetwork(c, p) == Ok(m.network)
    ensures CheckAttested(c, p, m.scope, m.network, m.hash) == Ok(m.attested)
    ensures CheckAddress(c, p, m.network, Salt(m.nonce, m.hash, DigestOf(m.attested))) == Ok(m.terms)
    ensures m.address == PaymentAddress(m.terms)
  {
  }

  lemma AddressMeans(c: Codec, p: ProofOfPayment, network: NetworkTerms, salt: Word, terms: Terms)
    requires CheckAddress(c, p, network, salt) == Ok(terms)
    ensures c.parseAddress(p.paymentAddress) == Some(PaymentAddress(terms)) && terms.salt == salt
    ensures terms.factory == network.factory && terms.token == network.token && terms.chainId == network.chainId
  {
  }

  lemma CommitmentStated(c: Codec, p: ProofOfPayment)
    requires CheckCommitment(c, p).Ok?
    ensures CheckVersions(p).Ok? && CheckCommitment(c, p).value.scope == p.scope
    ensures c.parseWord(p.attributionHash) == Some(AttributionHash(p.snapshot))
  {
  }

  lemma SaltStated(c: Codec, p: ProofOfPayment)
    requires CheckCommitment(c, p).Ok?
    ensures c.parseWord(p.salt) == Some(CheckCommitment(c, p).value.terms.salt)
  {
  }

  /** What the commitment chain establishes about an accepted proof. */
  lemma CommitmentMeans(c: Codec, p: ProofOfPayment)
    requires CheckCommitment(c, p).Ok?
    ensures var m := CheckCommitment(c, p).value;
            && m.scope == RequiredScope(p.snapshot) && m.hash == AttributionHash(p.snapshot)
            && c.parseWord(p.issuanceNonce) == Some(m.nonce)
            && CheckNetwork(c, p) == Ok(m.network)
            && m.address == PaymentAddress(m.terms) && c.parseAddress(p.paymentAddress) == Some(m.address)
            && m.terms.factory == m.network.factory && m.terms.token == m.network.token && m.terms.chainId == m.network.chainId
            && m.terms.salt == Salt(m.nonce, m.hash, DigestOf(m.attested))
            && (m.attested.Some? <==> m.scope == WalletAttributed)
  {
    var m := CheckCommitment(c, p).value;
    CommitmentHead(c, p, m);
    AddressMeans(c, p, m.network, Salt(m.nonce, m.hash, DigestOf(m.attested)), m.terms);
  }

  lemma AttestedMeans(c: Codec, p: ProofOfPayment)
    requires CheckCommitment(c, p).Ok? && CheckCommitment(c, p).value.attested.Some?
    ensures var m := CheckCommitment(c, p).value;
            m.attested.value.digest ==
            PA.Digest(PA.SignedMessage(PA.Scope(m.network.chainId, m.network.factory, m.hash), m.attested.value))
  {
    var m := CheckCommitment(c, p).value;
    assert CheckAttested(c, p, m.scope, m.network, m.hash) == Ok(m.attested);
    PA.VerifiedMeans(c, p.payerWallet.value, PA.Scope(m.network.chainId, m.network.factory, m.hash));
  }

  /**
   * The binding theorem: two accepted proofs with one payment address are
   * about one request — the same snapshot, issuance nonce, network, scope and
   * attested wallet — under any, even different, text codecs.
   */
  lemma SameAddressSameRequest(c: Codec, p: ProofOfPayment, d: Codec, q: ProofOfPayment)
    requires CheckCommitment(c, p).Ok? && CheckCommitment(d, q).Ok?
    requires CheckCommitment(c, p).value.address == CheckCommitment(d, q).value.address
    ensures p.snapshot == q.snapshot
    ensures CheckCommitment(c, p).value == CheckCommitment(d, q).value
  {
    var m, n := CheckCommitment(c, p).value, CheckCommitment(d, q).value;
    CommitmentMeans(c, p);
    CommitmentMeans(d, q);
    AddressDeterminesTerms(m.terms, n.terms);
    SaltInjective(m.nonce, m.hash, DigestOf(m.attested), n.nonce, n.hash, DigestOf(n.attested));
    AttributionHashInjective(p.snapshot, q.snapshot);
    if m.attested.Some? {
      AttestedMeans(c, p);
      AttestedMeans(d, q);
      PA.DigestInjective(PA.SignedMessage(PA.Scope(m.network.chainId, m.network.factory, m.hash), m.attested.value),
                         PA.SignedMessage(PA.Scope(n.network.chainId, n.network.factory, n.hash), n.attested.value));
    }
  }

  /** An accepted proof passed the commitment chain, and the verdict repeats it. */
  lemma AcceptedMeans(c: Codec, p: ProofOfPayment, a: Option<seq<Byte>>, ts: seq<Address>, v: Verification)
    requires VerifySpec(c, p, a, ts) == Ok(v)
    ensures CheckCommitment(c, p).Ok?
    ensures var m := CheckCommitment(c, p).value;
            && v.paymentAddress == m.address && v.salt == m.terms.salt && v.attributionHash == m.hash && v.scope == m.scope
            && v.attestationDigest == DigestOf(m.attested)
            && v.payerWallet == (if m.attested.Some? then Some(m.attested.value.wallet) else None)
            && CheckTransfers(c, p, m).Ok?
            && CheckAttestation(c, p, m, ts) == Ok(v.attestationSigner)
  {
  }

  /** The same, read off what `verify_proof` returns. */
  lemma AcceptedProofsAgree(c: Codec, p: ProofOfPayment, v: Verification, q: ProofOfPayment, w: Verification,
                            a: Option<seq<Byte>>, b: Option<seq<Byte>>, ts: seq<Address>, us: seq<Address>)
    requires VerifySpec(c, p, a, ts) == Ok(v) && VerifySpec(c, q, b, us) == Ok(w)
    requires v.paymentAddress == w.paymentAddress
    ensures p.snapshot == q.snapshot
    ensures c.parseWord(p.issuanceNonce) == c.parseWord(q.issuanceNonce)
    ensures CheckNetwork(c, p) == CheckNetwork(c, q)
    ensures v.scope == w.scope && v.payerWallet == w.payerWallet && v.attestationDigest == w.attestationDigest
    ensures v.salt == w.salt && v.attributionHash == w.attributionHash
  {
    AcceptedMeans(c, p, a, ts, v);
    AcceptedMeans(c, q, b, us, w);
    SameAddressSameRequest(c, p, c, q);
    CommitmentMeans(c, p);
    CommitmentMeans(c, q);
  }

  // ------------------------------------------------------------ the signed payload

  /** A list does not start with a member of this name. */
  predicate NoLeading(key: string, ms: seq<Member>) {
    ms == [] || ms[0].key != key
  }

  lemma SkipCut(key: string, a: Option<Json>, x: seq<Member>, b: Option<Json>, y: seq<Member>)
    requires NoLeading(key, x) && NoLeading(key, y)
    requires Skip(key, a) + x == Skip(key, b) + y
    ensures a == b && x == y
  {
    var s := Skip(key, a) + x;
    assert a.Some? ==> s[0] == Member(key, a.value) && s[1..] == x;
    assert b.Some? ==> s[0] == Member(key, b.value) && s[1..] == y;
    assert a.None? ==> s == x;
    assert b.None? ==> s == y;
  }

  lemma FactsInjective(a: seq<Fact>, b: seq<Fact>)
    requires FactsJson(a) == FactsJson(b)
    ensures a == b
  {
    assert |a| == |FactsJson(a)| == |b|;
    forall i | 0 <= i < |a|
      ensures a[i] == b[i]
    {
      assert FactJson(a[i]) == FactsJson(a)[i] == FactsJson(b)[i] == FactJson(b[i]);
      var m, n := FactJson(a[i]).members, FactJson(b[i]).members;
      assert m[0] == n[0] && m[1] == n[1] && m[2] == n[2];
    }
  }

  lemma FillsInjective(a: seq<Fill>, b: seq<Fill>)
    requires FillsJson(a) == FillsJson(b)
    ensures a == b
  {
    assert |a| == |FillsJson(a)| == |b|;
    forall i | 0 <= i < |a|
      ensures a[i] == b[i]
    {
      assert FillJson(a[i]) == FillsJson(a)[i] == FillsJson(b)[i] == FillJson(b[i]);
      var m, n := FillJson(a[i]).members, FillJson(b[i]).members;
      assert m[0] == n[0] && m[1] == n[1] && m[2] == n[2] && m[3] == n[3] && m[4] == n[4] && m[5] == n[5] && m[6] == n[6];
    }
  }

  lemma TailInjective(a: Payload, b: Payload)
    requires PayloadTail(a) == PayloadTail(b)
    ensures a.result == b.result && a.scope == b.scope && a.verifiedAt == b.verifiedAt && a.version == b.version
    ensures a.walletBoundAt == b.walletBoundAt && a.walletNonce == b.walletNonce
  {
    var x, y := Skip("wallet_nonce", OptStr(a.walletNonce)) + [], Skip("wallet_nonce", OptStr(b.walletNonce)) + [];
    assert PayloadTail(a)[..4] == PayloadTail(b)[..4];
    assert PayloadTail(a)[0] == PayloadTail(b)[0] && PayloadTail(a)[1] == PayloadTail(b)[1];
    assert PayloadTail(a)[2] == PayloadTail(b)[2] && PayloadTail(a)[3] == PayloadTail(b)[3];
    assert PayloadTail(a)[4..] == Skip("wallet_bound_at", OptStr(a.walletBoundAt)) + x;
    assert PayloadTail(b)[4..] == Skip("wallet_bound_at", OptStr(b.walletBoundAt)) + y;
    assert "wallet_nonce"[7] != "wallet_bound_at"[7];
    SkipCut("wallet_bound_at", OptStr(a.walletBoundAt), x, OptStr(b.walletBoundAt), y);
    SkipCut("wallet_nonce", OptStr(a.walletNonce), [], OptStr(b.walletNonce), []);
    assert ScopeText(Settlement)[0] != ScopeText(WalletAttributed)[0];
  }

  function FillsMember(p: Payload): Option<Json> {
    if p.relayFills == [] then None else Some(Arr(FillsJson(p.relayFills)))
  }

  lemma MiddleInjective(a: Payload, b: Payload)
    requires PayloadMiddle(a) == PayloadMiddle(b)
    ensures a.paymentAddress == b.paymentAddress && a.paymentId == b.paymentId && a.relayFills == b.relayFills
    ensures PayloadTail(a) == PayloadTail(b)
  {
    assert PayloadMiddle(a)[0] == PayloadMiddle(b)[0] && PayloadMiddle(a)[1] == PayloadMiddle(b)[1];
    assert PayloadMiddle(a)[2..] == Skip("relay_fills", FillsMember(a)) + PayloadTail(a);
    assert PayloadMiddle(b)[2..] == Skip("relay_fills", FillsMember(b)) + PayloadTail(b);
    assert PayloadTail(a)[0].key == "result" && PayloadTail(b)[0].key == "result" && "result"[2] != "relay_fills"[2];
    SkipCut("relay_fills", FillsMember(a), PayloadTail(a), FillsMember(b), PayloadTail(b));
    if a.relayFills != [] {
      FillsInjective(a.relayFills, b.relayFills);
    }
  }

  lemma PayloadInjective(a: Payload, b: Payload)
    requires PayloadJson(a) == PayloadJson(b)
    ensures a == b
  {
    var m, n := PayloadJson(a).members, PayloadJson(b).members;
    assert m[0] == n[0] && m[1] == n[1] && m[2] == n[2] && m[3] == n[3];
    FactsInjective(a.facts, b.facts);
    assert m[4..] == Skip("payer_wallet", OptStr(a.payerWallet)) + PayloadMiddle(a);
    assert n[4..] == Skip("payer_wallet", OptStr(b.payerWallet)) + PayloadMiddle(b);
    assert PayloadMiddle(a)[0].key == "payment_address" && PayloadMiddle(b)[0].key == "payment_address";
    assert "payment_address"[3] != "payer_wallet"[3];
    SkipCut("payer_wallet", OptStr(a.payerWallet), PayloadMiddle(a), OptStr(b.payerWallet), PayloadMiddle(b));
    MiddleInjective(a, b);
    TailInjective(a, b);
  }

  /** The attestation key signs the whole payload: equal digests mean equal payloads. */
  lemma AttestationDigestInjective(a: Payload, b: Payload)
    requires AttestationDigest(a) == AttestationDigest(b)
    ensures a == b
  {
    var d := Text(ATTESTATION_DOMAIN);
    var x, y := Text(Write(PayloadJson(a))), Text(Write(PayloadJson(b)));
    KeccakInjective(d + x, d + y);
    Cut(d, x, d, y);
    TextInjective(Write(PayloadJson(a)), Write(PayloadJson(b)));
    WriteInjective(PayloadJson(a), PayloadJson(b));
    PayloadInjective(a, b);
  }
}
