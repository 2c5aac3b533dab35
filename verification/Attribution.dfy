/** The issuance snapshot, its canonical text, its hash, and the salt: crates/gum-core/src/attribution.rs. */
module Attribution {
  import opened Prelude
  import opened Hashing
  import opened Codec
  import opened Json
  import opened Sorting
  import Decimal

  datatype Party = Party(name: string, email: Option<string>, details: Option<string>)

  datatype PayerVerification = PayerVerification(expectedEmail: Option<string>, payerReference: Option<string>, walletAttestation: bool)

  datatype Attachment = Attachment(id: string, byteLength: string, sha256: string)

  datatype SnapshotNetwork = SnapshotNetwork(chainId: string, tokenAddress: string, factoryAddress: string)

  datatype Snapshot = Snapshot(
    schema: string, canonicalization: string, issuer: Party, billTo: Party, currency: string, decimals: string,
    amountBaseUnits: string, notes: Option<string>, heading: Option<string>, reference: Option<string>,
    expirationTimestamp: string, payerVerification: PayerVerification, attachment: Option<Attachment>,
    networks: seq<SnapshotNetwork>, receiverAddress: string, recoveryAddress: string)

  datatype NetworkTerms = NetworkTerms(chainId: U64, token: Address, factory: Address)

  datatype Currency = Usdc | Usdt

  const SNAPSHOT_SCHEMA := "gum.invoice.v5"
  const CANONICALIZATION := "RFC8785"
  const ATTRIBUTION_DOMAIN := "GUM_ATTRIBUTION_V5"
  const SALT_DOMAIN := "GUM_SALT_V5"

  function Code(c: Currency): string {
    match c case Usdc => "USDC" case Usdt => "USDT"
  }

  const DECIMALS: nat := 6

  // ------------------------------------------------------------ canonical JSON

  function Opt(v: Option<string>): Json {
    if v.Some? then Str(v.value) else Null
  }

  /** A member that is left out when absent. */
  function Skip(key: string, v: Option<Json>): seq<Member> {
    if v.Some? then [Member(key, v.value)] else []
  }

  function SkipStr(key: string, v: Option<string>): seq<Member> {
    if v.Some? then [Member(key, Str(v.value))] else []
  }

  function PartyJson(p: Party): Json {
    Obj(SkipStr("details", p.details) + SkipStr("email", p.email) + [Member("name", Str(p.name))])
  }

  function WrapStr(key: string, v: Option<string>): Option<Json> {
    if v.Some? then Some(Obj([Member(key, Str(v.value))])) else None
  }

  function VerificationJson(v: PayerVerification): Json {
    Obj(Skip("email", WrapStr("expected_email", v.expectedEmail))
        + Skip("merchant_auth", WrapStr("payer_reference", v.payerReference))
        + [Member("wallet_attestation", Bool(v.walletAttestation))])
  }

  function AttachmentJson(a: Option<Attachment>): Json {
    if a.None? then Null
    else Obj([Member("byte_length", Str(a.value.byteLength)), Member("id", Str(a.value.id)), Member("sha256", Str(a.value.sha256))])
  }

  function NetworkJson(n: SnapshotNetwork): Json {
    Obj([Member("chain_id", Str(n.chainId)), Member("factory_address", Str(n.factoryAddress)), Member("token_address", Str(n.tokenAddress))])
  }

  function NetworksJson(ns: seq<SnapshotNetwork>): (r: seq<Json>)
    ensures |r| == |ns|
  {
    seq(|ns|, i requires 0 <= i < |ns| => NetworkJson(ns[i]))
  }

  /** The members in RFC 8785 section 3.2.3 order. */
  function SnapshotJson(s: Snapshot): Json {
    Obj([Member("amount_base_units", Str(s.amountBaseUnits)),
         Member("attachment", AttachmentJson(s.attachment)),
         Member("bill_to", PartyJson(s.billTo)),
         Member("canonicalization", Str(s.canonicalization)),
         Member("currency", Str(s.currency)),
         Member("decimals", Str(s.decimals)),
         Member("expiration_timestamp", Str(s.expirationTimestamp)),
         Member("heading", Opt(s.heading)),
         Member("issuer", PartyJson(s.issuer)),
         Member("networks", Arr(NetworksJson(s.networks))),
         Member("notes", Opt(s.notes)),
         Member("payer_verification", VerificationJson(s.payerVerification)),
         Member("receiver_address", Str(s.receiverAddress)),
         Member("recovery_address", Str(s.recoveryAddress)),
         Member("reference", Opt(s.reference)),
         Member("schema", Str(s.schema))])
  }

  function CanonicalBytes(s: Snapshot): seq<Byte> {
    Text(Write(SnapshotJson(s)))
  }

  function AttributionHash(s: Snapshot): Word {
    KeccakOf(Text(ATTRIBUTION_DOMAIN) + CanonicalBytes(s))
  }

  lemma PartyJsonInjective(a: Party, b: Party)
    requires PartyJson(a) == PartyJson(b)
    ensures a == b
  {
    var m, n := PartyJson(a).members, PartyJson(b).members;
    assert m[|m| - 1] == Member("name", Str(a.name)) && n[|n| - 1] == Member("name", Str(b.name));
    assert a.details.Some? ==> m[0] == Member("details", Str(a.details.value));
    assert b.details.Some? ==> n[0] == Member("details", Str(b.details.value));
    assert a.email.Some? ==> m[|m| - 2] == Member("email", Str(a.email.value));
    assert b.email.Some? ==> n[|n| - 2] == Member("email", Str(b.email.value));
    assert "details"[0] != "email"[0] && "details"[0] != "name"[0];
  }

  lemma VerificationJsonInjective(a: PayerVerification, b: PayerVerification)
    requires VerificationJson(a) == VerificationJson(b)
    ensures a == b
  {
    var m, n := VerificationJson(a).members, VerificationJson(b).members;
    assert m[|m| - 1] == Member("wallet_attestation", Bool(a.walletAttestation));
    assert n[|n| - 1] == Member("wallet_attestation", Bool(b.walletAttestation));
    WrapInjective("expected_email", a.expectedEmail, b.expectedEmail);
    WrapInjective("payer_reference", a.payerReference, b.payerReference);
    var ea, eb := WrapStr("expected_email", a.expectedEmail), WrapStr("expected_email", b.expectedEmail);
    var pa, pb := WrapStr("payer_reference", a.payerReference), WrapStr("payer_reference", b.payerReference);
    assert ea.Some? ==> m[0] == Member("email", ea.value);
    assert eb.Some? ==> n[0] == Member("email", eb.value);
    assert pa.Some? ==> m[|m| - 2] == Member("merchant_auth", pa.value);
    assert pb.Some? ==> n[|n| - 2] == Member("merchant_auth", pb.value);
    assert "email"[0] != "merchant_auth"[0] && "email"[0] != "wallet_attestation"[0];
  }

  lemma WrapInjective(key: string, a: Option<string>, b: Option<string>)
    ensures WrapStr(key, a) == WrapStr(key, b) ==> a == b
  {
    if a.Some? && b.Some? && WrapStr(key, a) == WrapStr(key, b) {
      assert WrapStr(key, a).value.members[0] == WrapStr(key, b).value.members[0];
    }
  }

  lemma AttachmentJsonInjective(a: Option<Attachment>, b: Option<Attachment>)
    requires AttachmentJson(a) == AttachmentJson(b)
    ensures a == b
  {
    if a.Some? {
      var m, n := AttachmentJson(a).members, AttachmentJson(b).members;
      assert m[0] == n[0] && m[1] == n[1] && m[2] == n[2];
    }
  }

  lemma NetworksJsonInjective(a: seq<SnapshotNetwork>, b: seq<SnapshotNetwork>)
    requires NetworksJson(a) == NetworksJson(b)
    ensures a == b
  {
    assert |a| == |NetworksJson(a)| == |b|;
    forall i | 0 <= i < |a|
      ensures a[i] == b[i]
    {
      assert NetworkJson(a[i]) == NetworksJson(a)[i] == NetworksJson(b)[i] == NetworkJson(b[i]);
      var m, n := NetworkJson(a[i]).members, NetworkJson(b[i]).members;
      assert m[0] == n[0] && m[1] == n[1] && m[2] == n[2];
    }
  }

  lemma SnapshotJsonInjective(a: Snapshot, b: Snapshot)
    requires SnapshotJson(a) == SnapshotJson(b)
    ensures a == b
  {
    var m, n := SnapshotJson(a).members, SnapshotJson(b).members;
    assert m[0].value == n[0].value && m[1].value == n[1].value && m[2].value == n[2].value && m[3].value == n[3].value;
    assert m[4].value == n[4].value && m[5].value == n[5].value && m[6].value == n[6].value && m[7].value == n[7].value;
    assert m[8].value == n[8].value && m[9].value == n[9].value && m[10].value == n[10].value && m[11].value == n[11].value;
    assert m[12].value == n[12].value && m[13].value == n[13].value && m[14].value == n[14].value && m[15].value == n[15].value;
    AttachmentJsonInjective(a.attachment, b.attachment);
    PartyJsonInjective(a.billTo, b.billTo);
    PartyJsonInjective(a.issuer, b.issuer);
    NetworksJsonInjective(a.networks, b.networks);
    VerificationJsonInjective(a.payerVerification, b.payerVerification);
  }

  /** Every field of the document reaches the hash: equal hashes mean equal snapshots. */
  lemma AttributionHashInjective(a: Snapshot, b: Snapshot)
    requires AttributionHash(a) == AttributionHash(b)
    ensures a == b
  {
    KeccakInjective(Text(ATTRIBUTION_DOMAIN) + CanonicalBytes(a), Text(ATTRIBUTION_DOMAIN) + CanonicalBytes(b));
    Cut(Text(ATTRIBUTION_DOMAIN), CanonicalBytes(a), Text(ATTRIBUTION_DOMAIN), CanonicalBytes(b));
    TextInjective(Write(SnapshotJson(a)), Write(SnapshotJson(b)));
    WriteInjective(SnapshotJson(a), SnapshotJson(b));
    SnapshotJsonInjective(a, b);
  }

  /** The hashed bytes: the domain text, then the canonical text. */
  lemma AttributionLayout(s: Snapshot) returns (input: seq<Byte>)
    ensures IsDigest(AttributionHash(s), input) && |input| >= |ATTRIBUTION_DOMAIN|
    ensures IsText(input[..|ATTRIBUTION_DOMAIN|], ATTRIBUTION_DOMAIN)
    ensures IsText(input[|ATTRIBUTION_DOMAIN|..], Write(SnapshotJson(s)))
  {
    var text := Write(SnapshotJson(s));
    input := Text(ATTRIBUTION_DOMAIN) + Text(text);
    TextThen(ATTRIBUTION_DOMAIN, Text(text));
  }

  // ------------------------------------------------------------ the salt

  function Salt(nonce: Word, hash: Word, digest: Option<Word>): Word {
    KeccakOf(Text(SALT_DOMAIN) + (nonce + (hash + if digest.Some? then digest.value else [])))
  }

  /** `recompute_salt`: the hash input appended piece by piece. */
  method RecomputeSalt(nonce: Word, hash: Word, digest: Option<Word>) returns (salt: Word)
    ensures salt == Salt(nonce, hash, digest)
  {
    var input := Text(SALT_DOMAIN);
    input := input + nonce;
    input := input + hash;
    if digest.Some? {
      input := input + digest.value;
    }
    assert input == Text(SALT_DOMAIN) + (nonce + (hash + if digest.Some? then digest.value else []));
    salt := KeccakOf(input);
  }

  /** The hashed bytes: the domain text, the nonce, the hash and, for an attested request, the digest. */
  lemma SaltLayout(nonce: Word, hash: Word, digest: Option<Word>) returns (input: seq<Byte>)
    ensures IsDigest(Salt(nonce, hash, digest), input) && |input| == |SALT_DOMAIN| + (if digest.Some? then 96 else 64)
    ensures var n := |SALT_DOMAIN|;
            && IsText(input[..n], SALT_DOMAIN) && input[n..n + 32] == nonce && input[n + 32..n + 64] == hash
            && (digest.Some? ==> input[n + 64..] == digest.value)
  {
    var last: seq<Byte> := if digest.Some? then digest.value else [];
    input := Text(SALT_DOMAIN) + (nonce + (hash + last));
    TextThen(SALT_DOMAIN, nonce + (hash + last));
    WordAt(Text(SALT_DOMAIN), nonce, hash + last);
    assert input == (Text(SALT_DOMAIN) + nonce) + (hash + last);
    WordAt(Text(SALT_DOMAIN) + nonce, hash, last);
    assert input == (Text(SALT_DOMAIN) + nonce + hash) + last;
  }

  /** The salt determines its inputs; the attested and the unattested branch never meet. */
  lemma SaltInjective(n1: Word, h1: Word, d1: Option<Word>, n2: Word, h2: Word, d2: Option<Word>)
    requires Salt(n1, h1, d1) == Salt(n2, h2, d2)
    ensures n1 == n2 && h1 == h2 && d1 == d2
  {
    var x1: seq<Byte> := if d1.Some? then d1.value else [];
    var x2: seq<Byte> := if d2.Some? then d2.value else [];
    var domain := Text(SALT_DOMAIN);
    KeccakInjective(domain + (n1 + (h1 + x1)), domain + (n2 + (h2 + x2)));
    Cut(domain, n1 + (h1 + x1), domain, n2 + (h2 + x2));
    Cut(n1, h1 + x1, n2, h2 + x2);
    Cut(h1, x1, h2, x2);
    assert |x1| == (if d1.Some? then 32 else 0) && |x2| == (if d2.Some? then 32 else 0);
  }

  // ------------------------------------------------------------ issuing a snapshot

  function ByChain(a: NetworkTerms, b: NetworkTerms): bool {
    a.chainId <= b.chainId
  }

  function Rendered(c: Codec, n: NetworkTerms): SnapshotNetwork {
    SnapshotNetwork(Decimal.Print(n.chainId), c.printAddress(n.token), c.printAddress(n.factory))
  }

  function RenderAll(c: Codec, ns: seq<NetworkTerms>): (r: seq<SnapshotNetwork>)
    ensures |r| == |ns|
  {
    seq(|ns|, i requires 0 <= i < |ns| => Rendered(c, ns[i]))
  }

  /** `SnapshotNetwork::terms`. */
  function TermsOf(c: Codec, n: SnapshotNetwork): Option<NetworkTerms> {
    var chain := c.parseU64(n.chainId);
    var token := c.parseAddress(n.tokenAddress);
    var factory := c.parseAddress(n.factoryAddress);
    if chain.Some? && token.Some? && factory.Some? then Some(NetworkTerms(chain.value, token.value, factory.value)) else None
  }

  /** `CanonicalIssuanceSnapshot::networks`: all of them, or nothing. */
  function Networks(c: Codec, ns: seq<SnapshotNetwork>): (r: Option<seq<NetworkTerms>>)
    ensures r.Some? ==> |r.value| == |ns| && forall i :: 0 <= i < |ns| ==> TermsOf(c, ns[i]) == Some(r.value[i])
  {
    if ns == [] then Some([])
    else
      var first := TermsOf(c, ns[0]);
      var rest := Networks(c, ns[1..]);
      if first.Some? && rest.Some? then Some([first.value] + rest.value) else None
  }

  function NewSnapshot(c: Codec, issuer: Party, billTo: Party, verification: PayerVerification, currency: Currency,
                       networks: seq<NetworkTerms>, receiver: Address, recovery: Address, amount: U256, expiration: U64): Snapshot
  {
    Snapshot(SNAPSHOT_SCHEMA, CANONICALIZATION, issuer, billTo, Code(currency), Decimal.Print(DECIMALS),
             Decimal.Print(amount), None, None, None, Decimal.Print(expiration), verification, None,
             RenderAll(c, Sort(networks, ByChain)), c.printAddress(receiver), c.printAddress(recovery))
  }

  lemma {:induction false} RenderedParsesBack(c: Codec, ns: seq<NetworkTerms>)
    requires RoundTrips(c)
    ensures Networks(c, RenderAll(c, ns)) == Some(ns)
  {
    if ns != [] {
      RenderedParsesBack(c, ns[1..]);
      assert RenderAll(c, ns)[1..] == RenderAll(c, ns[1..]);
      assert TermsOf(c, Rendered(c, ns[0])) == Some(ns[0]);
      assert ns == [ns[0]] + ns[1..];
    }
  }

  /** Networks of distinct chains give one snapshot, whatever order they arrive in. */
  lemma NetworkOrderIrrelevant(c: Codec, s: Snapshot, currency: Currency, a: seq<NetworkTerms>, b: seq<NetworkTerms>,
                               receiver: Address, recovery: Address, amount: U256, expiration: U64)
    requires multiset(a) == multiset(b)
    requires forall i, j :: 0 <= i < j < |a| ==> a[i].chainId != a[j].chainId
    ensures NewSnapshot(c, s.issuer, s.billTo, s.payerVerification, currency, a, receiver, recovery, amount, expiration)
         == NewSnapshot(c, s.issuer, s.billTo, s.payerVerification, currency, b, receiver, recovery, amount, expiration)
  {
    assert Preorder(ByChain);
    SortIgnoresOrder(a, b, ByChain);
  }
}
