/** The payer's EIP-712 wallet attestation: crates/gum-core/src/payer_attestation.rs. */
module PayerAttestation {
  import opened Prelude
  import opened Hashing
  import opened Codec

  const DOMAIN_NAME := "Gum"
  const DOMAIN_VERSION := "2"
  const PRIMARY_TYPE := "PayerAttestation"
  const STATEMENT := "I control this wallet and will pay this Gum deposit request from it. Only transfers from this wallet count toward the request."
  const METHOD_ECDSA := "ecdsa"
  const DOMAIN_TYPE := "EIP712Domain(string name,string version,uint256 chainId,address verifyingContract)"
  const MESSAGE_TYPE := "PayerAttestation(string statement,bytes32 attributionHash,address wallet,bytes32 nonce,uint256 expiresAt)"

  /** The signed message, under the domain it is signed in. */
  datatype Message = Message(chainId: U64, factory: Address, attributionHash: Word, wallet: Address, nonce: Word, expiresAt: U64)

  /** hashStruct of the EIP-712 domain. */
  function DomainSeparator(chainId: U64, factory: Address): Word {
    KeccakOf(KeccakOf(Text(DOMAIN_TYPE)) + (KeccakOf(Text(DOMAIN_NAME)) + (KeccakOf(Text(DOMAIN_VERSION))
             + (WordOf(chainId) + Padded(factory)))))
  }

  /** hashStruct of the message: type hash, then one word per field. */
  function MessageHash(m: Message): Word {
    KeccakOf(KeccakOf(Text(MESSAGE_TYPE)) + (KeccakOf(Text(STATEMENT)) + (m.attributionHash
             + (Padded(m.wallet) + (m.nonce + WordOf(m.expiresAt))))))
  }

  function Digest(m: Message): Word {
    KeccakOf([Lit(0x19), Lit(0x01)] + (DomainSeparator(m.chainId, m.factory) + MessageHash(m)))
  }

  lemma DomainInjective(c1: U64, f1: Address, c2: U64, f2: Address)
    requires DomainSeparator(c1, f1) == DomainSeparator(c2, f2)
    ensures c1 == c2 && f1 == f2
  {
    var t, n, v := KeccakOf(Text(DOMAIN_TYPE)), KeccakOf(Text(DOMAIN_NAME)), KeccakOf(Text(DOMAIN_VERSION));
    var x, y := WordOf(c1) + Padded(f1), WordOf(c2) + Padded(f2);
    KeccakInjective(t + (n + (v + x)), t + (n + (v + y)));
    Cut(t, n + (v + x), t, n + (v + y));
    Cut(n, v + x, n, v + y);
    Cut(v, x, v, y);
    Cut(WordOf(c1), Padded(f1), WordOf(c2), Padded(f2));
    WordOfInjective(c1, c2);
    PaddedInjective(f1, f2);
  }

  lemma MessageHashInjective(a: Message, b: Message)
    requires MessageHash(a) == MessageHash(b)
    ensures a == b.(chainId := a.chainId, factory := a.factory)
  {
    var t, s := KeccakOf(Text(MESSAGE_TYPE)), KeccakOf(Text(STATEMENT));
    var x := Padded(a.wallet) + (a.nonce + WordOf(a.expiresAt));
    var y := Padded(b.wallet) + (b.nonce + WordOf(b.expiresAt));
    KeccakInjective(t + (s + (a.attributionHash + x)), t + (s + (b.attributionHash + y)));
    Cut(t, s + (a.attributionHash + x), t, s + (b.attributionHash + y));
    Cut(s, a.attributionHash + x, s, b.attributionHash + y);
    Cut(a.attributionHash, x, b.attributionHash, y);
    Cut(Padded(a.wallet), a.nonce + WordOf(a.expiresAt), Padded(b.wallet), b.nonce + WordOf(b.expiresAt));
    Cut(a.nonce, WordOf(a.expiresAt), b.nonce, WordOf(b.expiresAt));
    PaddedInjective(a.wallet, b.wallet);
    WordOfInjective(a.expiresAt, b.expiresAt);
  }

  /** The signing digest determines chain, factory, request, wallet, nonce and expiry. */
  lemma DigestInjective(a: Message, b: Message)
    requires Digest(a) == Digest(b)
    ensures a == b
  {
    var da, db := DomainSeparator(a.chainId, a.factory), DomainSeparator(b.chainId, b.factory);
    KeccakInjective([Lit(0x19), Lit(0x01)] + (da + MessageHash(a)), [Lit(0x19), Lit(0x01)] + (db + MessageHash(b)));
    Cut([Lit(0x19), Lit(0x01)], da + MessageHash(a), [Lit(0x19), Lit(0x01)], db + MessageHash(b));
    Cut(da, MessageHash(a), db, MessageHash(b));
    DomainInjective(a.chainId, a.factory, b.chainId, b.factory);
    MessageHashInjective(a, b);
  }

  // ------------------------------------------------------------ the hashed bytes

  /** A word of an encoded structure that is the digest of a text. */
  ghost predicate IsTextDigest(b: seq<Byte>, s: string) {
    exists text :: IsText(text, s) && IsDigest(b, text)
  }

  lemma TextDigest(s: string)
    ensures IsTextDigest(KeccakOf(Text(s)), s)
  {
    assert IsText(Text(s), s) && IsDigest(KeccakOf(Text(s)), Text(s));
  }

  /** The encoded domain of EIP-712 by offset: type, name, version, chain and contract. */
  ghost predicate IsDomainInput(b: seq<Byte>, chainId: U64, factory: Address) {
    && |b| == 160
    && IsTextDigest(b[..32], DOMAIN_TYPE) && IsTextDigest(b[32..64], DOMAIN_NAME) && IsTextDigest(b[64..96], DOMAIN_VERSION)
    && Spells(b[96..128], chainId) && Zeros(b[128..140]) && b[140..160] == factory
  }

  /** The encoded message by offset: type, statement, request, wallet, nonce and expiry. */
  ghost predicate IsMessageInput(b: seq<Byte>, m: Message) {
    && |b| == 192
    && IsTextDigest(b[..32], MESSAGE_TYPE) && IsTextDigest(b[32..64], STATEMENT) && b[64..96] == m.attributionHash
    && Zeros(b[96..108]) && b[108..128] == m.wallet && b[128..160] == m.nonce && Spells(b[160..192], m.expiresAt)
  }

  lemma DomainLayout(chainId: U64, factory: Address) returns (input: seq<Byte>)
    ensures IsDigest(DomainSeparator(chainId, factory), input) && IsDomainInput(input, chainId, factory)
  {
    var kind, name, version := KeccakOf(Text(DOMAIN_TYPE)), KeccakOf(Text(DOMAIN_NAME)), KeccakOf(Text(DOMAIN_VERSION));
    input := kind + (name + (version + (WordOf(chainId) + Padded(factory))));
    TextDigest(DOMAIN_TYPE);
    TextDigest(DOMAIN_NAME);
    TextDigest(DOMAIN_VERSION);
    WordSpells(chainId);
    FiveWords(kind, name, version, WordOf(chainId), Padded(factory));
    PaddedParts(factory);
    SubSlices(input, 128);
  }

  lemma FiveWords(a: Word, b: Word, c: Word, d: Word, e: Word)
    ensures var t := a + (b + (c + (d + e)));
            |t| == 160 && t[..32] == a && t[32..64] == b && t[64..96] == c && t[96..128] == d && t[128..160] == e
  {
  }

  lemma MessageLayout(m: Message) returns (input: seq<Byte>)
    ensures IsDigest(MessageHash(m), input) && IsMessageInput(input, m)
  {
    var kind, statement := KeccakOf(Text(MESSAGE_TYPE)), KeccakOf(Text(STATEMENT));
    input := kind + (statement + (m.attributionHash + (Padded(m.wallet) + (m.nonce + WordOf(m.expiresAt)))));
    TextDigest(MESSAGE_TYPE);
    TextDigest(STATEMENT);
    WordSpells(m.expiresAt);
    FiveWords(statement, m.attributionHash, Padded(m.wallet), m.nonce, WordOf(m.expiresAt));
    PaddedParts(m.wallet);
    assert forall i, j :: 32 <= i <= j <= 192 ==> input[i..j] == input[32..][i - 32..j - 32];
    assert input[32..] == statement + (m.attributionHash + (Padded(m.wallet) + (m.nonce + WordOf(m.expiresAt))));
    SubSlices(input, 96);
  }

  /** What the wallet signs, byte for byte: EIP-712's prefix, the domain's digest and the message's. */
  lemma DigestLayout(m: Message) returns (input: seq<Byte>, domain: seq<Byte>, message: seq<Byte>)
    ensures IsDigest(Digest(m), input) && |input| == 66 && input[0] == Lit(0x19) && input[1] == Lit(0x01)
    ensures IsDigest(input[2..34], domain) && IsDomainInput(domain, m.chainId, m.factory)
    ensures IsDigest(input[34..66], message) && IsMessageInput(message, m)
  {
    domain := DomainLayout(m.chainId, m.factory);
    message := MessageLayout(m);
    input := [Lit(0x19), Lit(0x01)] + (DomainSeparator(m.chainId, m.factory) + MessageHash(m));
    assert input[2..34] == DomainSeparator(m.chainId, m.factory) && input[34..66] == MessageHash(m);
  }

  // ------------------------------------------------------------ the carried form

  datatype TypedData = TypedData(
    domainName: string, domainVersion: string, chainId: U64, verifyingContract: string, primaryType: string,
    statement: string, attributionHash: string, wallet: string, nonce: string, expiresAt: U64)

  datatype WalletAttestation = WalletAttestation(address: string, typed: TypedData, digest: string, signature: string, how: string)

  datatype Scope = Scope(chainId: U64, factory: Address, attributionHash: Word)

  datatype Verified = Verified(wallet: Address, digest: Word, nonce: Word, expiresAt: U64)

  /** The field a text that does not parse stood in. */
  datatype AttestationField =
    | DomainVerifyingContractText | MessageAttributionHashText | MessageWalletText | AddressText | MessageNonceText | DigestText

  datatype AttestationError =
    | AttestationMalformed(field: AttestationField)
    | UnsupportedMethod
    | UnexpectedTypedData
    | DomainMismatch
    | AttributionHashMismatch
    | DigestMismatch
    | SignatureInvalid
    | SignerMismatch

  function Parsed<T>(v: Option<T>, field: AttestationField): Result<T, AttestationError> {
    if v.Some? then Ok(v.value) else Err(AttestationMalformed(field))
  }

  const ZERO_ADDRESS: Address := seq(20, _ => Lit(0))

  /** `verify_payer_attestation`. */
  function Verify(c: Codec, a: WalletAttestation, scope: Scope): (r: Result<Verified, AttestationError>)
  {
    if a.how != METHOD_ECDSA then Err(UnsupportedMethod)
    else if a.typed.primaryType != PRIMARY_TYPE || a.typed.statement != STATEMENT then Err(UnexpectedTypedData)
    else
      var contract :- Parsed(c.parseAddress(a.typed.verifyingContract), DomainVerifyingContractText);
      if a.typed.domainName != DOMAIN_NAME || a.typed.domainVersion != DOMAIN_VERSION
         || a.typed.chainId != scope.chainId || contract != scope.factory then Err(DomainMismatch)
      else
        var hash :- Parsed(c.parseWord(a.typed.attributionHash), MessageAttributionHashText);
        if hash != scope.attributionHash then Err(AttributionHashMismatch)
        else
          var wallet :- Parsed(c.parseAddress(a.typed.wallet), MessageWalletText);
          var stated :- Parsed(c.parseAddress(a.address), AddressText);
          if wallet == ZERO_ADDRESS || wallet != stated then Err(SignerMismatch)
          else
            var nonce :- Parsed(c.parseWord(a.typed.nonce), MessageNonceText);
            var digest := Digest(Message(scope.chainId, scope.factory, hash, wallet, nonce, a.typed.expiresAt));
            var statedDigest :- Parsed(c.parseWord(a.digest), DigestText);
            if digest != statedDigest then Err(DigestMismatch)
            else
              var recovered := c.recover(a.signature, digest);
              if recovered.None? then Err(SignatureInvalid)
              else if recovered.value != wallet then Err(SignerMismatch)
              else Ok(Verified(wallet, digest, nonce, a.typed.expiresAt))
  }

  /** The message a verified attestation signed. */
  function SignedMessage(scope: Scope, v: Verified): Message {
    Message(scope.chainId, scope.factory, scope.attributionHash, v.wallet, v.nonce, v.expiresAt)
  }

  /** Acceptance means: this wallet's signature over exactly this request on this chain and factory. */
  lemma VerifiedMeans(c: Codec, a: WalletAttestation, scope: Scope)
    requires Verify(c, a, scope).Ok?
    ensures var v := Verify(c, a, scope).value;
            && v.digest == Digest(SignedMessage(scope, v))
            && v.wallet != ZERO_ADDRESS
            && c.recover(a.signature, v.digest) == Some(v.wallet)
            && c.parseAddress(a.address) == Some(v.wallet)
  {
  }

  /** What a carried attestation says, field by field, when it is this wallet's for this scope. */
  ghost predicate Attests(c: Codec, a: WalletAttestation, scope: Scope, v: Verified) {
    && a.how == METHOD_ECDSA && a.typed.primaryType == PRIMARY_TYPE && a.typed.statement == STATEMENT
    && a.typed.domainName == DOMAIN_NAME && a.typed.domainVersion == DOMAIN_VERSION
    && a.typed.chainId == scope.chainId && c.parseAddress(a.typed.verifyingContract) == Some(scope.factory)
    && c.parseWord(a.typed.attributionHash) == Some(scope.attributionHash)
    && c.parseAddress(a.typed.wallet) == Some(v.wallet) && c.parseAddress(a.address) == Some(v.wallet)
    && (exists i :: 0 <= i < 20 && v.wallet[i] != Lit(0))
    && c.parseWord(a.typed.nonce) == Some(v.nonce) && a.typed.expiresAt == v.expiresAt
    && v.digest == Digest(Message(scope.chainId, scope.factory, scope.attributionHash, v.wallet, v.nonce, v.expiresAt))
    && c.parseWord(a.digest) == Some(v.digest) && c.recover(a.signature, v.digest) == Some(v.wallet)
  }

  lemma NotZero(a: Address)
    ensures a != ZERO_ADDRESS <==> exists i :: 0 <= i < 20 && a[i] != Lit(0)
  {
    if forall i :: 0 <= i < 20 ==> a[i] == Lit(0) {
      assert a == ZERO_ADDRESS;
    }
  }

  /** An attestation is accepted exactly when it says all that, and nothing else is returned. */
  lemma VerifiedExactly(c: Codec, a: WalletAttestation, scope: Scope, v: Verified)
    ensures Verify(c, a, scope) == Ok(v) <==> Attests(c, a, scope, v)
  {
    NotZero(v.wallet);
  }

  /** An attestation as `payer_wallet_attestation` assembles it from a message and a signature. */
  function Assemble(c: Codec, m: Message, signature: string): WalletAttestation {
    WalletAttestation(c.printAddress(m.wallet),
                      TypedData(DOMAIN_NAME, DOMAIN_VERSION, m.chainId, c.printAddress(m.factory), PRIMARY_TYPE, STATEMENT,
                                c.printWord(m.attributionHash), c.printAddress(m.wallet), c.printWord(m.nonce), m.expiresAt),
                      c.printWord(Digest(m)), signature, METHOD_ECDSA)
  }

  /**
   * An assembled attestation is accepted for its own scope exactly when its
   * signature recovers to a wallet that is not the zero address, and for no
   * other scope.
   */
  lemma AssembledVerifies(c: Codec, m: Message, signature: string, scope: Scope)
    requires RoundTrips(c)
    ensures Verify(c, Assemble(c, m, signature), scope).Ok? <==>
            && scope == Scope(m.chainId, m.factory, m.attributionHash)
            && m.wallet != ZERO_ADDRESS
            && c.recover(signature, Digest(m)) == Some(m.wallet)
    ensures Verify(c, Assemble(c, m, signature), scope).Ok? ==>
              Verify(c, Assemble(c, m, signature), scope).value == Verified(m.wallet, Digest(m), m.nonce, m.expiresAt)
  {
    assert c.parseAddress(c.printAddress(m.factory)) == Some(m.factory);
    assert c.parseAddress(c.printAddress(m.wallet)) == Some(m.wallet);
    assert c.parseWord(c.printWord(m.attributionHash)) == Some(m.attributionHash);
    assert c.parseWord(c.printWord(m.nonce)) == Some(m.nonce);
    assert c.parseWord(c.printWord(Digest(m))) == Some(Digest(m));
  }
}
