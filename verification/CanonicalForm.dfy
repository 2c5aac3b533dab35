/** What the two hashed documents say: every field under its name, the names in canonical order. */
module CanonicalForm {
  import opened Prelude
  import opened Hashing
  import opened Json
  import opened Attribution
  import opened Proof

  // ------------------------------------------------------------ RFC 8785 section 3.2.3: names in order

  /** One name comes before another, by the first character they differ in. */
  ghost predicate Before(a: string, b: string) {
    exists k: nat :: k < |b| && k <= |a| && a[..k] == b[..k] && (k == |a| || a[k] < b[k])
  }

  lemma DiffersAt(a: string, b: string, k: nat)
    requires k < |a| && k < |b| && a[..k] == b[..k] && a[k] < b[k]
    ensures Before(a, b)
  {
  }

  /** The members of every object are in ascending order of their names. */
  ghost predicate Ordered(ms: seq<Member>) {
    forall i :: 0 < i < |ms| ==> Before(ms[i - 1].key, ms[i].key)
  }

  ghost predicate Follows(key: string, ms: seq<Member>) {
    ms == [] || Before(key, ms[0].key)
  }

  lemma OrderedCons(m: Member, ms: seq<Member>)
    requires Ordered(ms) && Follows(m.key, ms)
    ensures Ordered([m] + ms)
  {
    var all := [m] + ms;
    forall i | 0 < i < |all|
      ensures Before(all[i - 1].key, all[i].key)
    {
      assert all[i] == ms[i - 1];
      if i > 1 {
        assert all[i - 1] == ms[i - 2];
      }
    }
  }

  /** An optional member keeps its place when it is there. */
  lemma OrderedSkip(before: string, key: string, v: Option<Json>, ms: seq<Member>)
    requires Ordered(ms) && Follows(key, ms) && Follows(before, ms) && Before(before, key)
    ensures Ordered(Skip(key, v) + ms) && Follows(before, Skip(key, v) + ms)
  {
    if v.Some? {
      OrderedCons(Member(key, v.value), ms);
    } else {
      assert Skip(key, v) + ms == ms;
    }
  }

  // ------------------------------------------------------------ the issuance snapshot

  /** The names of the document, in its order. */
  const NAMES: seq<string> := [
    "amount_base_units", "attachment", "bill_to", "canonicalization", "currency", "decimals", "expiration_timestamp", "heading",
    "issuer", "networks", "notes", "payer_verification", "receiver_address", "recovery_address", "reference", "schema"]

  lemma NamesInOrder0()
    ensures Before("amount_base_units", "attachment")
    ensures Before("attachment", "bill_to")
    ensures Before("bill_to", "canonicalization")
    ensures Before("canonicalization", "currency")
  {
    DiffersAt("amount_base_units", "attachment", 1);
    DiffersAt("attachment", "bill_to", 0);
    DiffersAt("bill_to", "canonicalization", 0);
    DiffersAt("canonicalization", "currency", 1);
  }

  lemma NamesInOrder4()
    ensures Before("currency", "decimals")
    ensures Before("decimals", "expiration_timestamp")
    ensures Before("expiration_timestamp", "heading")
    ensures Before("heading", "issuer")
  {
    DiffersAt("currency", "decimals", 0);
    DiffersAt("decimals", "expiration_timestamp", 0);
    DiffersAt("expiration_timestamp", "heading", 0);
    DiffersAt("heading", "issuer", 0);
  }

  lemma NamesInOrder8()
    ensures Before("issuer", "networks")
    ensures Before("networks", "notes")
    ensures Before("notes", "payer_verification")
    ensures Before("payer_verification", "receiver_address")
  {
    DiffersAt("issuer", "networks", 0);
    DiffersAt("networks", "notes", 1);
    DiffersAt("notes", "payer_verification", 0);
    DiffersAt("payer_verification", "receiver_address", 0);
  }

  lemma NamesInOrder12()
    ensures Before("receiver_address", "recovery_address")
    ensures Before("recovery_address", "reference")
    ensures Before("reference", "schema")
  {
    DiffersAt("receiver_address", "recovery_address", 3);
    DiffersAt("recovery_address", "reference", 2);
    DiffersAt("reference", "schema", 0);
  }

  lemma NamesInOrder()
    ensures forall i :: 0 < i < 16 ==> Before(NAMES[i - 1], NAMES[i])
  {
    NamesInOrder0();
    NamesInOrder4();
    NamesInOrder8();
    NamesInOrder12();
  }

  lemma SnapshotNames(s: Snapshot)
    ensures var ms := SnapshotJson(s).members; |ms| == 16 && forall i :: 0 <= i < 16 ==> ms[i].key == NAMES[i]
  {
  }

  lemma SnapshotOrdered(s: Snapshot)
    ensures Ordered(SnapshotJson(s).members)
  {
    SnapshotNames(s);
    NamesInOrder();
  }

  function OrNull(v: Option<string>): Json {
    match v
    case Some(text) => Str(text)
    case None => Null
  }

  /** Every term of the request is in the document under its own name. */
  lemma SnapshotMembers(s: Snapshot)
    ensures var ms := SnapshotJson(s).members;
            && Member("schema", Str(s.schema)) in ms && Member("canonicalization", Str(s.canonicalization)) in ms
            && Member("currency", Str(s.currency)) in ms && Member("decimals", Str(s.decimals)) in ms
            && Member("amount_base_units", Str(s.amountBaseUnits)) in ms && Member("expiration_timestamp", Str(s.expirationTimestamp)) in ms
            && Member("receiver_address", Str(s.receiverAddress)) in ms && Member("recovery_address", Str(s.recoveryAddress)) in ms
            && Member("notes", OrNull(s.notes)) in ms && Member("heading", OrNull(s.heading)) in ms && Member("reference", OrNull(s.reference)) in ms
  {
    var ms := SnapshotJson(s).members;
    assert ms[0] in ms && ms[3] in ms && ms[4] in ms && ms[5] in ms && ms[6] in ms && ms[7] in ms;
    assert ms[10] in ms && ms[12] in ms && ms[13] in ms && ms[14] in ms && ms[15] in ms;
  }

  /** A party's members: the name always, the e-mail address and the details when there are any. */
  ghost predicate IsParty(j: Json, p: Party) {
    && j.Obj? && Ordered(j.members)
    && (forall m :: m in j.members <==>
          || m == Member("name", Str(p.name))
          || (p.email.Some? && m == Member("email", Str(p.email.value)))
          || (p.details.Some? && m == Member("details", Str(p.details.value))))
  }

  ghost predicate IsVerification(j: Json, v: PayerVerification) {
    && j.Obj? && Ordered(j.members)
    && (forall m :: m in j.members <==>
          || m == Member("wallet_attestation", Bool(v.walletAttestation))
          || (v.expectedEmail.Some? && m == Member("email", Obj([Member("expected_email", Str(v.expectedEmail.value))])))
          || (v.payerReference.Some? && m == Member("merchant_auth", Obj([Member("payer_reference", Str(v.payerReference.value))]))))
  }

  ghost predicate IsAttachment(j: Json, a: Option<Attachment>) {
    if a.None? then j == Null
    else
      && j.Obj? && Ordered(j.members)
      && (forall m :: m in j.members <==>
            m == Member("id", Str(a.value.id)) || m == Member("byte_length", Str(a.value.byteLength)) || m == Member("sha256", Str(a.value.sha256)))
  }

  ghost predicate IsNetwork(j: Json, n: SnapshotNetwork) {
    && j.Obj? && Ordered(j.members)
    && (forall m :: m in j.members <==>
          m == Member("chain_id", Str(n.chainId)) || m == Member("token_address", Str(n.tokenAddress)) || m == Member("factory_address", Str(n.factoryAddress)))
  }

  lemma PartyMembers(p: Party)
    ensures IsParty(PartyJson(p), p)
  {
    var details, email := SkipStr("details", p.details), SkipStr("email", p.email);
    var name := [Member("name", Str(p.name))];
    var ms := PartyJson(p).members;
    assert ms == details + email + name;
    DiffersAt("details", "email", 0);
    DiffersAt("details", "name", 0);
    DiffersAt("email", "name", 0);
    assert forall m :: m in ms <==> m in details || m in email || m in name;
  }

  lemma VerificationMembers(v: PayerVerification)
    ensures IsVerification(VerificationJson(v), v)
  {
    var email := Skip("email", WrapStr("expected_email", v.expectedEmail));
    var auth := Skip("merchant_auth", WrapStr("payer_reference", v.payerReference));
    var wallet := [Member("wallet_attestation", Bool(v.walletAttestation))];
    var ms := VerificationJson(v).members;
    assert ms == email + auth + wallet;
    DiffersAt("email", "merchant_auth", 0);
    DiffersAt("email", "wallet_attestation", 0);
    DiffersAt("merchant_auth", "wallet_attestation", 0);
    assert forall m :: m in ms <==> m in email || m in auth || m in wallet;
  }

  lemma AttachmentMembers(a: Option<Attachment>)
    ensures IsAttachment(AttachmentJson(a), a)
  {
    DiffersAt("byte_length", "id", 0);
    DiffersAt("id", "sha256", 0);
  }

  lemma NetworkMembers(n: SnapshotNetwork)
    ensures IsNetwork(NetworkJson(n), n)
  {
    DiffersAt("chain_id", "factory_address", 0);
    DiffersAt("factory_address", "token_address", 0);
  }

  lemma SnapshotParts(s: Snapshot)
    ensures var ms := SnapshotJson(s).members;
            && |ms| == 16
            && Member("bill_to", PartyJson(s.billTo)) in ms && Member("issuer", PartyJson(s.issuer)) in ms
            && Member("payer_verification", VerificationJson(s.payerVerification)) in ms
            && Member("attachment", AttachmentJson(s.attachment)) in ms && Member("networks", Arr(NetworksJson(s.networks))) in ms
  {
    var ms := SnapshotJson(s).members;
    assert ms[1] in ms && ms[2] in ms && ms[8] in ms && ms[9] in ms && ms[11] in ms;
  }

  /**
   * The document an attribution hash is taken of reads back as an object with its names in
   * canonical order and every part of the request under its own name.
   */
  lemma SnapshotIsCanonical(s: Snapshot) returns (ms: seq<Member>, billTo: Json, issuer: Json, verification: Json, attachment: Json, networks: seq<Json>)
    ensures ReadText(Write(SnapshotJson(s))) == Some(Obj(ms)) && |ms| == 16 && Ordered(ms)
    ensures Member("bill_to", billTo) in ms && IsParty(billTo, s.billTo) && Member("issuer", issuer) in ms && IsParty(issuer, s.issuer)
    ensures Member("payer_verification", verification) in ms && IsVerification(verification, s.payerVerification)
    ensures Member("attachment", attachment) in ms && IsAttachment(attachment, s.attachment)
    ensures Member("networks", Arr(networks)) in ms && |networks| == |s.networks|
    ensures forall i :: 0 <= i < |networks| ==> IsNetwork(networks[i], s.networks[i])
  {
    ms := SnapshotJson(s).members;
    WrittenReadsBack(SnapshotJson(s));
    SnapshotOrdered(s);
    billTo, issuer, verification := PartyJson(s.billTo), PartyJson(s.issuer), VerificationJson(s.payerVerification);
    attachment, networks := AttachmentJson(s.attachment), NetworksJson(s.networks);
    SnapshotParts(s);
    PartyMembers(s.billTo);
    PartyMembers(s.issuer);
    VerificationMembers(s.payerVerification);
    AttachmentMembers(s.attachment);
    forall i | 0 <= i < |networks|
      ensures IsNetwork(networks[i], s.networks[i])
    {
      NetworkMembers(s.networks[i]);
    }
  }

  // ------------------------------------------------------------ the signed attestation payload

  lemma WalletNames()
    ensures Before("version", "wallet_bound_at") && Before("version", "wallet_nonce") && Before("wallet_bound_at", "wallet_nonce")
  {
    DiffersAt("version", "wallet_bound_at", 0);
    DiffersAt("version", "wallet_nonce", 0);
    DiffersAt("wallet_bound_at", "wallet_nonce", 7);
  }

  /** The two optional members at the end. */
  lemma WalletOrdered(v: Option<Json>, w: Option<Json>)
    ensures var rest := Skip("wallet_bound_at", v) + (Skip("wallet_nonce", w) + []);
            Ordered(rest) && Follows("version", rest)
  {
    WalletNames();
    OrderedSkip("version", "wallet_nonce", w, []);
    OrderedSkip("wallet_bound_at", "wallet_nonce", w, []);
    OrderedSkip("version", "wallet_bound_at", v, Skip("wallet_nonce", w) + []);
  }

  lemma TailNames()
    ensures Before("result", "scope") && Before("scope", "verified_at") && Before("verified_at", "version")
    ensures Before("payment_id", "result") && Before("relay_fills", "result")
  {
    DiffersAt("result", "scope", 0);
    DiffersAt("scope", "verified_at", 0);
    DiffersAt("verified_at", "version", 3);
    DiffersAt("payment_id", "result", 0);
    DiffersAt("relay_fills", "result", 2);
  }

  lemma TailOrdered(p: Payload)
    ensures Ordered(PayloadTail(p)) && Follows("payment_id", PayloadTail(p)) && Follows("relay_fills", PayloadTail(p))
  {
    WalletOrdered(OptStr(p.walletBoundAt), OptStr(p.walletNonce));
    TailNames();
    OrderedFour(Member("result", Str(p.result)), Member("scope", Str(ScopeText(p.scope))), Member("verified_at", Opt(p.verifiedAt)),
                Member("version", Str(p.version)), Skip("wallet_bound_at", OptStr(p.walletBoundAt)) + (Skip("wallet_nonce", OptStr(p.walletNonce)) + []));
  }

  lemma OrderedFour(a: Member, b: Member, c: Member, d: Member, rest: seq<Member>)
    requires Ordered(rest) && Before(a.key, b.key) && Before(b.key, c.key) && Before(c.key, d.key) && Follows(d.key, rest)
    ensures Ordered([a, b, c, d] + rest)
  {
    OrderedCons(d, rest);
    OrderedCons(c, [d] + rest);
    OrderedCons(b, [c] + ([d] + rest));
    OrderedCons(a, [b] + ([c] + ([d] + rest)));
    assert [a, b, c, d] + rest == [a] + ([b] + ([c] + ([d] + rest)));
  }

  lemma MiddleNames()
    ensures Before("payment_address", "payment_id") && Before("payment_id", "relay_fills")
    ensures Before("issuance_nonce", "payment_address") && Before("payer_wallet", "payment_address")
  {
    DiffersAt("payment_address", "payment_id", 8);
    DiffersAt("payment_id", "relay_fills", 0);
    DiffersAt("issuance_nonce", "payment_address", 0);
    DiffersAt("payer_wallet", "payment_address", 3);
  }

  lemma OrderedTwo(a: Member, b: Member, rest: seq<Member>)
    requires Ordered(rest) && Before(a.key, b.key) && Follows(b.key, rest)
    ensures Ordered([a, b] + rest)
  {
    OrderedCons(b, rest);
    OrderedCons(a, [b] + rest);
    assert [a, b] + rest == [a] + ([b] + rest);
  }

  lemma MiddleOrdered(p: Payload)
    ensures Ordered(PayloadMiddle(p)) && Follows("issuance_nonce", PayloadMiddle(p)) && Follows("payer_wallet", PayloadMiddle(p))
  {
    var fills := if p.relayFills == [] then None else Some(Arr(FillsJson(p.relayFills)));
    TailOrdered(p);
    MiddleNames();
    OrderedSkip("payment_id", "relay_fills", fills, PayloadTail(p));
    OrderedTwo(Member("payment_address", Str(p.paymentAddress)), Member("payment_id", Str(p.paymentId)), Skip("relay_fills", fills) + PayloadTail(p));
  }

  lemma HeadNames()
    ensures Before("attribution_hash", "chain_id") && Before("chain_id", "facts") && Before("facts", "issuance_nonce")
    ensures Before("issuance_nonce", "payer_wallet")
  {
    DiffersAt("attribution_hash", "chain_id", 0);
    DiffersAt("chain_id", "facts", 0);
    DiffersAt("facts", "issuance_nonce", 0);
    DiffersAt("issuance_nonce", "payer_wallet", 0);
  }

  lemma PayloadOrdered(p: Payload)
    ensures Ordered(PayloadJson(p).members)
  {
    MiddleOrdered(p);
    HeadNames();
    OrderedSkip("issuance_nonce", "payer_wallet", OptStr(p.payerWallet), PayloadMiddle(p));
    OrderedFour(Member("attribution_hash", Str(p.attributionHash)), Member("chain_id", Str(p.chainId)),
                Member("facts", Arr(FactsJson(p.facts))), Member("issuance_nonce", Str(p.issuanceNonce)),
                Skip("payer_wallet", OptStr(p.payerWallet)) + PayloadMiddle(p));
  }

  /** The facts and the relay fills of a payload, each under its names. */
  ghost predicate IsFact(j: Json, f: Fact) {
    && j.Obj? && Ordered(j.members)
    && (forall m :: m in j.members <==> m == Member("kind", Str(f.kind)) || m == Member("provider", Str(f.provider)) || m == Member("at", Str(f.at)))
  }

  ghost predicate IsFill(j: Json, f: Fill) {
    && j.Obj?
    && (forall m :: m in j.members <==>
          || m == Member("transaction_hash", Str(f.transactionHash)) || m == Member("log_index", Str(f.logIndex))
          || m == Member("request_id", Str(f.relay.requestId)) || m == Member("origin_chain_id", Str(f.relay.originChainId))
          || m == Member("origin_transaction_hash", Str(f.relay.originTransactionHash))
          || m == Member("origin_sender", Str(f.relay.originSender)) || m == Member("attribution_source", Str(f.relay.attributionSource)))
  }

  lemma FactMembers(f: Fact)
    ensures IsFact(FactJson(f), f)
  {
    DiffersAt("at", "kind", 0);
    DiffersAt("kind", "provider", 0);
  }

  lemma FillMembers(f: Fill)
    ensures IsFill(FillJson(f), f)
  {
  }

  /** Every statement of the payload is in the signed document under its own name. */
  lemma PayloadMembers(p: Payload)
    ensures var ms := PayloadJson(p).members;
            && Member("version", Str(p.version)) in ms && Member("payment_id", Str(p.paymentId)) in ms
            && Member("scope", Str(if p.scope == Settlement then "settlement" else "wallet_attributed")) in ms
            && Member("attribution_hash", Str(p.attributionHash)) in ms && Member("issuance_nonce", Str(p.issuanceNonce)) in ms
            && Member("chain_id", Str(p.chainId)) in ms && Member("payment_address", Str(p.paymentAddress)) in ms
            && Member("result", Str(p.result)) in ms && Member("verified_at", OrNull(p.verifiedAt)) in ms
  {
    var ms, middle, tail := PayloadJson(p).members, PayloadMiddle(p), PayloadTail(p);
    assert forall m :: m in tail ==> m in middle;
    assert forall m :: m in middle ==> m in ms;
    assert tail[0] in tail && tail[1] in tail && tail[2] in tail && tail[3] in tail && middle[0] in middle && middle[1] in middle;
    assert ms[0] in ms && ms[1] in ms && ms[3] in ms;
  }

  function Present<T>(v: Option<T>): nat {
    if v.Some? then 1 else 0
  }

  /** The optional statements are there exactly when there is something to state. */
  lemma PayloadOptions(p: Payload)
    ensures var ms := PayloadJson(p).members;
            && |ms| == 10 + Present(p.payerWallet) + Present(p.walletNonce) + Present(p.walletBoundAt) + (if p.relayFills == [] then 0 else 1)
            && (p.payerWallet.Some? ==> Member("payer_wallet", Str(p.payerWallet.value)) in ms)
            && (p.walletNonce.Some? ==> Member("wallet_nonce", Str(p.walletNonce.value)) in ms)
            && (p.walletBoundAt.Some? ==> Member("wallet_bound_at", Str(p.walletBoundAt.value)) in ms)
            && Member("facts", Arr(FactsJson(p.facts))) in ms
            && (p.relayFills != [] ==> Member("relay_fills", Arr(FillsJson(p.relayFills))) in ms)
  {
    TailOptions(p);
    MiddleOptions(p);
    var ms := PayloadJson(p).members;
    assert forall m :: m in PayloadMiddle(p) ==> m in ms;
    assert ms[2] in ms;
    assert p.payerWallet.Some? ==> ms[4] in ms;
  }

  lemma TailOptions(p: Payload)
    ensures var tail := PayloadTail(p);
            && |tail| == 4 + Present(p.walletNonce) + Present(p.walletBoundAt)
            && (p.walletNonce.Some? ==> Member("wallet_nonce", Str(p.walletNonce.value)) in tail)
            && (p.walletBoundAt.Some? ==> Member("wallet_bound_at", Str(p.walletBoundAt.value)) in tail)
  {
    var tail := PayloadTail(p);
    assert p.walletNonce.Some? ==> tail[|tail| - 1] in tail;
    assert p.walletBoundAt.Some? ==> tail[4] in tail;
  }

  lemma MiddleOptions(p: Payload)
    ensures var middle := PayloadMiddle(p);
            && |middle| == 2 + |PayloadTail(p)| + (if p.relayFills == [] then 0 else 1)
            && (forall m :: m in PayloadTail(p) ==> m in middle)
            && (p.relayFills != [] ==> Member("relay_fills", Arr(FillsJson(p.relayFills))) in middle)
  {
    assert p.relayFills != [] ==> PayloadMiddle(p)[2] in PayloadMiddle(p);
  }

  /**
   * The document the attestation key signs reads back as an object with its names in canonical
   * order, its facts and fills in theirs; `PayloadMembers` and `PayloadOptions` say what is in it.
   */
  lemma PayloadIsCanonical(p: Payload) returns (input: seq<Byte>, ms: seq<Member>)
    ensures IsDigest(AttestationDigest(p), input) && |input| >= |ATTESTATION_DOMAIN|
    ensures IsText(input[..|ATTESTATION_DOMAIN|], ATTESTATION_DOMAIN)
    ensures IsText(input[|ATTESTATION_DOMAIN|..], Write(Obj(ms))) && ReadText(Write(Obj(ms))) == Some(Obj(ms))
    ensures ms == PayloadJson(p).members && Ordered(ms)
    ensures |FactsJson(p.facts)| == |p.facts| && forall i :: 0 <= i < |p.facts| ==> IsFact(FactsJson(p.facts)[i], p.facts[i])
    ensures |FillsJson(p.relayFills)| == |p.relayFills| && forall i :: 0 <= i < |p.relayFills| ==> IsFill(FillsJson(p.relayFills)[i], p.relayFills[i])
  {
    ms := PayloadJson(p).members;
    var text := Write(PayloadJson(p));
    input := Text(ATTESTATION_DOMAIN) + Text(text);
    TextThen(ATTESTATION_DOMAIN, Text(text));
    WrittenReadsBack(PayloadJson(p));
    PayloadOrdered(p);
    forall i | 0 <= i < |p.facts|
      ensures IsFact(FactsJson(p.facts)[i], p.facts[i])
    {
      FactMembers(p.facts[i]);
    }
    forall i | 0 <= i < |p.relayFills|
      ensures IsFill(FillsJson(p.relayFills)[i], p.relayFills[i])
    {
      FillMembers(p.relayFills[i]);
    }
  }
}
