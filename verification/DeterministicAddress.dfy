/** CREATE3 address derivation, crates/gum-core/src/deterministic_address.rs. */
module DeterministicAddress {
  import opened Hashing

  /** Everything a payment address commits to. */
  datatype Terms = Terms(factory: Address, token: Address, amount: U256, receiver: Address, expiration: U64,
                         recovery: Address, salt: Word, chainId: U64)

  /** Hash of the CREATE3 proxy's init code. */
  const PROXY_INITCODE_HASH: seq<nat> := [
    0x21, 0xc3, 0x5d, 0xbe, 0x1b, 0x34, 0x4a, 0x24, 0x88, 0xcf, 0x33, 0x21, 0xd6, 0xce, 0x54, 0x2f,
    0x8e, 0x9f, 0x30, 0x55, 0x44, 0xff, 0x09, 0xe4, 0x99, 0x3a, 0x62, 0x31, 0x9a, 0x49, 0x7c, 0x1f]

  function ProxyHash(): (w: Word) {
    seq(32, i requires 0 <= i < 32 => Lit(PROXY_INITCODE_HASH[i]))
  }

  /** The seven ABI words of the factory's deployment salt. */
  function Encoded(t: Terms): (b: seq<Byte>)
    ensures |b| == 224
  {
    Padded(t.token) + (WordOf(t.amount) + (Padded(t.receiver) + (WordOf(t.expiration)
    + (Padded(t.recovery) + (t.salt + WordOf(t.chainId))))))
  }

  /** EIP-1014: 0xff, deployer, salt, init code hash. */
  function Create2Preimage(factory: Address, deploymentSalt: Word): (b: seq<Byte>)
    ensures |b| == 85
  {
    [Lit(0xff)] + (factory + (deploymentSalt + ProxyHash()))
  }

  /** RLP of [proxy, 1]. */
  function CreatePreimage(proxy: Address): (b: seq<Byte>)
    ensures |b| == 23
  {
    [Lit(0xd6), Lit(0x94)] + (proxy + [Lit(0x01)])
  }

  function PaymentAddress(t: Terms): Address {
    var proxy := Low20(KeccakOf(Create2Preimage(t.factory, KeccakOf(Encoded(t)))));
    Low20(KeccakOf(CreatePreimage(proxy)))
  }

  /** `predict_payment_address`: the two preimages filled by slice offsets. */
  method PredictPaymentAddress(t: Terms) returns (address: Address)
    ensures address == PaymentAddress(t)
  {
    var deploymentSalt := KeccakOf(Encoded(t));
    var create2 := new Byte[85](_ => Lit(0));
    create2[0] := Lit(0xff);
    forall i | 0 <= i < 20 { create2[1 + i] := t.factory[i]; }
    forall i | 0 <= i < 32 { create2[21 + i] := deploymentSalt[i]; }
    forall i | 0 <= i < 32 { create2[53 + i] := ProxyHash()[i]; }
    assert create2[..] == Create2Preimage(t.factory, deploymentSalt);
    var proxy := Low20(KeccakOf(create2[..]));

    var create := new Byte[23](_ => Lit(0));
    create[0], create[1] := Lit(0xd6), Lit(0x94);
    forall i | 0 <= i < 20 { create[2 + i] := proxy[i]; }
    create[22] := Lit(0x01);
    assert create[..] == CreatePreimage(proxy);
    address := Low20(KeccakOf(create[..]));
  }

  lemma EncodedInjective(s: Terms, t: Terms)
    requires Encoded(s) == Encoded(t)
    ensures s == t.(factory := s.factory)
  {
    var a := WordOf(s.expiration) + (Padded(s.recovery) + (s.salt + WordOf(s.chainId)));
    var b := WordOf(t.expiration) + (Padded(t.recovery) + (t.salt + WordOf(t.chainId)));
    Cut(Padded(s.token), WordOf(s.amount) + (Padded(s.receiver) + a),
        Padded(t.token), WordOf(t.amount) + (Padded(t.receiver) + b));
    Cut(WordOf(s.amount), Padded(s.receiver) + a, WordOf(t.amount), Padded(t.receiver) + b);
    Cut(Padded(s.receiver), a, Padded(t.receiver), b);
    EncodedTail(s, t);
    PaddedInjective(s.token, t.token);
    PaddedInjective(s.receiver, t.receiver);
    WordOfInjective(s.amount, t.amount);
  }

  lemma EncodedTail(s: Terms, t: Terms)
    requires WordOf(s.expiration) + (Padded(s.recovery) + (s.salt + WordOf(s.chainId)))
          == WordOf(t.expiration) + (Padded(t.recovery) + (t.salt + WordOf(t.chainId)))
    ensures s.expiration == t.expiration && s.recovery == t.recovery && s.salt == t.salt && s.chainId == t.chainId
  {
    var a, b := s.salt + WordOf(s.chainId), t.salt + WordOf(t.chainId);
    Cut(WordOf(s.expiration), Padded(s.recovery) + a, WordOf(t.expiration), Padded(t.recovery) + b);
    Cut(Padded(s.recovery), a, Padded(t.recovery), b);
    Cut(s.salt, WordOf(s.chainId), t.salt, WordOf(t.chainId));
    WordOfInjective(s.expiration, t.expiration);
    WordOfInjective(s.chainId, t.chainId);
    PaddedInjective(s.recovery, t.recovery);
  }

  /** Every link is injective, so an address determines all eight terms. */
  lemma AddressDeterminesTerms(s: Terms, t: Terms)
    requires PaymentAddress(s) == PaymentAddress(t)
    ensures s == t
  {
    var ds, dt := KeccakOf(Encoded(s)), KeccakOf(Encoded(t));
    var ps, pt := Low20(KeccakOf(Create2Preimage(s.factory, ds))), Low20(KeccakOf(Create2Preimage(t.factory, dt)));
    Low20Injective(CreatePreimage(ps), CreatePreimage(pt));
    Cut([Lit(0xd6), Lit(0x94)], ps + [Lit(0x01)], [Lit(0xd6), Lit(0x94)], pt + [Lit(0x01)]);
    Cut(ps, [Lit(0x01)], pt, [Lit(0x01)]);
    Low20Injective(Create2Preimage(s.factory, ds), Create2Preimage(t.factory, dt));
    Cut([Lit(0xff)], s.factory + (ds + ProxyHash()), [Lit(0xff)], t.factory + (dt + ProxyHash()));
    Cut(s.factory, ds + ProxyHash(), t.factory, dt + ProxyHash());
    Cut(ds, ProxyHash(), dt, ProxyHash());
    KeccakInjective(Encoded(s), Encoded(t));
    EncodedInjective(s, t);
  }

  // ------------------------------------------------------------ the hashed bytes, one by one

  /** The last twenty bytes of a digest. */
  ghost predicate IsDigestAddress(a: seq<Byte>, pre: seq<Byte>) {
    |a| == 20 && forall i :: 0 <= i < 20 ==> a[i] == Keccak(pre, 12 + i)
  }

  /** `abi.encode(token, amount, receiver, expiration, recovery, salt, chainId)` by offset. */
  ghost predicate IsSaltInput(b: seq<Byte>, t: Terms) {
    && |b| == 224
    && Zeros(b[..12]) && b[12..32] == t.token
    && Spells(b[32..64], t.amount)
    && Zeros(b[64..76]) && b[76..96] == t.receiver
    && Spells(b[96..128], t.expiration)
    && Zeros(b[128..140]) && b[140..160] == t.recovery
    && b[160..192] == t.salt
    && Spells(b[192..224], t.chainId)
  }

  /** The CREATE2 preimage by offset. */
  ghost predicate IsCreate2Input(b: seq<Byte>, factory: Address, salt: seq<Byte>) {
    && |b| == 85 && b[0] == Lit(0xff) && b[1..21] == factory && b[21..53] == salt
    && forall i :: 0 <= i < 32 ==> b[53 + i] == Lit(PROXY_INITCODE_HASH[i])
  }

  /** The CREATE preimage by offset. */
  ghost predicate IsCreateInput(b: seq<Byte>, proxy: seq<Byte>) {
    |b| == 23 && b[0] == Lit(0xd6) && b[1] == Lit(0x94) && b[2..22] == proxy && b[22] == Lit(0x01)
  }

  lemma SevenWords(a: Word, b: Word, c: Word, d: Word, e: Word, f: Word, g: Word)
    ensures var t := a + (b + (c + (d + (e + (f + g)))));
            && |t| == 224 && t[..32] == a && t[32..64] == b && t[64..96] == c && t[96..128] == d
            && t[128..160] == e && t[160..192] == f && t[192..224] == g
  {
    var head, tail := a + b + c, d + (e + (f + g));
    assert a + (b + (c + tail)) == head + tail;
    ThreeWords(a, b, c);
    FourWords(d, e, f, g);
    var t := head + tail;
    assert t[..96] == head && t[96..] == tail;
    assert t[..32] == t[..96][..32] && t[32..64] == t[..96][32..64] && t[64..96] == t[..96][64..96];
    assert t[96..128] == t[96..][..32] && t[128..160] == t[96..][32..64] && t[160..192] == t[96..][64..96] && t[192..224] == t[96..][96..128];
  }

  lemma ThreeWords(a: Word, b: Word, c: Word)
    ensures var t := a + b + c; |t| == 96 && t[..32] == a && t[32..64] == b && t[64..96] == c
  {
  }

  lemma FourWords(a: Word, b: Word, c: Word, d: Word)
    ensures var t := a + (b + (c + d)); |t| == 128 && t[..32] == a && t[32..64] == b && t[64..96] == c && t[96..128] == d
  {
  }

  lemma EncodedLayout(t: Terms)
    ensures IsSaltInput(Encoded(t), t)
  {
    var b := Encoded(t);
    SevenWords(Padded(t.token), WordOf(t.amount), Padded(t.receiver), WordOf(t.expiration), Padded(t.recovery), t.salt, WordOf(t.chainId));
    PaddedParts(t.token);
    PaddedParts(t.receiver);
    PaddedParts(t.recovery);
    SubSlices(b, 0);
    SubSlices(b, 64);
    SubSlices(b, 128);
    WordSpells(t.amount);
    WordSpells(t.expiration);
    WordSpells(t.chainId);
  }

  lemma Create2Layout(factory: Address, salt: Word)
    ensures IsCreate2Input(Create2Preimage(factory, salt), factory, salt)
  {
  }

  lemma CreateLayout(proxy: Address)
    ensures IsCreateInput(CreatePreimage(proxy), proxy)
  {
  }

  /**
   * What a payment address is, byte for byte: the end of the digest of an RLP list of the proxy
   * and 1; the proxy is the end of the digest of 0xff, the factory, the deployment salt and the
   * proxy's code hash; and the salt is the digest of the seven terms in ABI order.
   */
  lemma AddressLayout(t: Terms) returns (create: seq<Byte>, proxy: seq<Byte>, create2: seq<Byte>, salt: seq<Byte>, encoded: seq<Byte>)
    ensures IsDigestAddress(PaymentAddress(t), create) && IsCreateInput(create, proxy)
    ensures IsDigestAddress(proxy, create2) && IsCreate2Input(create2, t.factory, salt)
    ensures IsDigest(salt, encoded) && IsSaltInput(encoded, t)
  {
    encoded := Encoded(t);
    salt := KeccakOf(encoded);
    create2 := Create2Preimage(t.factory, salt);
    proxy := Low20(KeccakOf(create2));
    create := CreatePreimage(proxy);
    EncodedLayout(t);
    Create2Layout(t.factory, salt);
    CreateLayout(proxy);
  }
}
