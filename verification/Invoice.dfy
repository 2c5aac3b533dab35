/** Issuing a request and binding it to an address: crates/gum-core/src/invoice.rs. */
module Invoice {
  import opened Prelude
  import opened Hashing
  import opened Codec
  import opened Sorting
  import opened Attribution
  import opened DeterministicAddress
  import PA = PayerAttestation
  import Decimal

  datatype Invoice = Invoice(networks: seq<NetworkTerms>, beneficiary: Address, expiration: U64, amount: U256,
                             issuanceNonce: Word, attributionHash: Word, snapshot: Snapshot)

  datatype WalletEvidence = WalletEvidence(payerWallet: Address, attestation: PA.WalletAttestation)

  datatype Binding = Binding(network: NetworkTerms, recovery: Address, salt: Word, paymentAddress: Address,
                             wallet: Option<WalletEvidence>)

  /** The snapshot fields that are compared with the invoice's own terms, in order. */
  datatype SnapshotField =
    | SchemaField | CanonicalizationField | CurrencyField | DecimalsField | NetworksField | ReceiverField | RecoveryField
    | AmountField | ExpirationField

  /** `Panicked` is an `expect` on stored data that does not parse. */
  datatype IssueError = SnapshotMismatch(field: SnapshotField) | IssuePanicked

  datatype BindError = UnsupportedChain(chainId: U64) | Attestation(error: PA.AttestationError) | WalletAttestationNotAttached | BindPanicked

  function FirstMismatch(checks: seq<(SnapshotField, bool)>): Option<SnapshotField> {
    if checks == [] then None
    else if !checks[0].1 then Some(checks[0].0)
    else FirstMismatch(checks[1..])
  }

  function Checks(s: Snapshot, expected: Snapshot): seq<(SnapshotField, bool)> {
    [(SchemaField, s.schema == SNAPSHOT_SCHEMA),
     (CanonicalizationField, s.canonicalization == CANONICALIZATION),
     (CurrencyField, s.currency == expected.currency),
     (DecimalsField, s.decimals == expected.decimals),
     (NetworksField, s.networks == expected.networks),
     (ReceiverField, s.receiverAddress == expected.receiverAddress),
     (RecoveryField, s.recoveryAddress == expected.recoveryAddress),
     (AmountField, s.amountBaseUnits == expected.amountBaseUnits),
     (ExpirationField, s.expirationTimestamp == expected.expirationTimestamp)]
  }

  /** `Invoice::issue`; the random issuance nonce is a parameter. */
  function Issue(c: Codec, currency: Currency, networks: seq<NetworkTerms>, beneficiary: Address, recovery: Address,
                 amount: U256, expiration: U64, snapshot: Snapshot, nonce: Word): Result<Invoice, IssueError>
  {
    var expected := NewSnapshot(c, snapshot.issuer, snapshot.billTo, snapshot.payerVerification, currency, networks,
                                beneficiary, recovery, amount, expiration);
    var mismatch := FirstMismatch(Checks(snapshot, expected));
    if mismatch.Some? then Err(SnapshotMismatch(mismatch.value))
    else if networks == [] then Err(SnapshotMismatch(NetworksField))
    else
      var typed := Networks(c, expected.networks);
      if typed.None? then Err(IssuePanicked)
      else Ok(Invoice(typed.value, beneficiary, expiration, amount, nonce, AttributionHash(snapshot), snapshot))
  }

  /** `network_for`: the first network of that chain. */
  function NetworkFor(networks: seq<NetworkTerms>, chainId: U64): (r: Option<NetworkTerms>)
    ensures r.Some? ==> r.value in networks && r.value.chainId == chainId
    ensures r.None? ==> forall i :: 0 <= i < |networks| ==> networks[i].chainId != chainId
  {
    if networks == [] then None
    else if networks[0].chainId == chainId then Some(networks[0])
    else NetworkFor(networks[1..], chainId)
  }

  /** `recovery()`: the stored recovery term, read as a plain address. */
  function Recovery(c: Codec, s: Snapshot): Option<Address> {
    c.parseAddress(s.recoveryAddress)
  }

  function BoundTerms(inv: Invoice, network: NetworkTerms, recovery: Address, salt: Word): Terms {
    Terms(network.factory, network.token, inv.amount, inv.beneficiary, inv.expiration, recovery, salt, network.chainId)
  }

  function Bound(inv: Invoice, network: NetworkTerms, recovery: Address, digest: Option<Word>, wallet: Option<WalletEvidence>): Binding {
    var salt := Salt(inv.issuanceNonce, inv.attributionHash, digest);
    Binding(network, recovery, salt, PaymentAddress(BoundTerms(inv, network, recovery, salt)), wallet)
  }

  function BindNetwork(c: Codec, inv: Invoice, chainId: U64): Result<Binding, BindError> {
    if inv.snapshot.payerVerification.walletAttestation then Err(WalletAttestationNotAttached)
    else
      var network := NetworkFor(inv.networks, chainId);
      if network.None? then Err(UnsupportedChain(chainId))
      else
        var recovery := Recovery(c, inv.snapshot);
        if recovery.None? then Err(BindPanicked)
        else Ok(Bound(inv, network.value, recovery.value, None, None))
  }

  function ScopeFor(inv: Invoice, network: NetworkTerms): PA.Scope {
    PA.Scope(network.chainId, network.factory, inv.attributionHash)
  }

  function BindPayerWallet(c: Codec, inv: Invoice, chainId: U64, attestation: PA.WalletAttestation): Result<Binding, BindError> {
    if !inv.snapshot.payerVerification.walletAttestation then Err(WalletAttestationNotAttached)
    else
      var network := NetworkFor(inv.networks, chainId);
      if network.None? then Err(UnsupportedChain(chainId))
      else
        var verified := PA.Verify(c, attestation, ScopeFor(inv, network.value));
        if verified.Err? then Err(Attestation(verified.error))
        else
          var recovery := Recovery(c, inv.snapshot);
          if recovery.None? then Err(BindPanicked)
          else Ok(Bound(inv, network.value, recovery.value, Some(verified.value.digest),
                        Some(WalletEvidence(verified.value.wallet, attestation))))
  }

  /** `address_matches_parameters` for a bound invoice. */
  predicate AddressMatchesParameters(inv: Invoice, b: Binding) {
    PaymentAddress(BoundTerms(inv, b.network, b.recovery, b.salt)) == b.paymentAddress
  }

  lemma {:induction false} NoMismatch(checks: seq<(SnapshotField, bool)>, i: nat)
    requires FirstMismatch(checks).None? && i < |checks|
    ensures checks[i].1
  {
    if i > 0 {
      NoMismatch(checks[1..], i - 1);
    }
  }

  /** A snapshot entry is this network's terms in their canonical texts. */
  ghost predicate RendersAs(c: Codec, n: SnapshotNetwork, t: NetworkTerms) {
    n.chainId == Decimal.Print(t.chainId) && n.tokenAddress == c.printAddress(t.token) && n.factoryAddress == c.printAddress(t.factory)
  }

  /** The snapshot says what the request's arguments are, in their canonical texts, the networks by chain. */
  ghost predicate Describes(c: Codec, s: Snapshot, currency: Currency, networks: seq<NetworkTerms>, beneficiary: Address, recovery: Address,
                            amount: U256, expiration: U64)
  {
    var sorted := Sort(networks, ByChain);
    && s.schema == SNAPSHOT_SCHEMA && s.canonicalization == CANONICALIZATION
    && s.currency == (if currency == Usdc then "USDC" else "USDT") && s.decimals == Decimal.Print(6)
    && |s.networks| == |sorted| && (forall i :: 0 <= i < |sorted| ==> RendersAs(c, s.networks[i], sorted[i]))
    && s.receiverAddress == c.printAddress(beneficiary) && s.recoveryAddress == c.printAddress(recovery)
    && s.amountBaseUnits == Decimal.Print(amount) && s.expirationTimestamp == Decimal.Print(expiration)
  }

  lemma {:induction false} NoMismatchExactly(checks: seq<(SnapshotField, bool)>)
    ensures FirstMismatch(checks).None? <==> forall i :: 0 <= i < |checks| ==> checks[i].1
  {
    if checks != [] {
      NoMismatchExactly(checks[1..]);
      assert forall i :: 0 <= i < |checks| - 1 ==> checks[1..][i] == checks[i + 1];
      assert forall i :: 0 < i < |checks| ==> checks[i] == checks[1..][i - 1];
    }
  }

  lemma RenderedExactly(c: Codec, ns: seq<SnapshotNetwork>, sorted: seq<NetworkTerms>)
    ensures ns == RenderAll(c, sorted) <==> |ns| == |sorted| && forall i :: 0 <= i < |sorted| ==> RendersAs(c, ns[i], sorted[i])
  {
    var all := RenderAll(c, sorted);
    assert forall i :: 0 <= i < |sorted| ==> RendersAs(c, all[i], sorted[i]);
    if |ns| == |sorted| && forall i :: 0 <= i < |sorted| ==> RendersAs(c, ns[i], sorted[i]) {
      forall i | 0 <= i < |sorted|
        ensures ns[i] == all[i]
      {
        assert RendersAs(c, ns[i], sorted[i]) && RendersAs(c, all[i], sorted[i]);
      }
    }
  }

  /** What the nine comparisons come to. */
  lemma ChecksExactly(s: Snapshot, expected: Snapshot)
    ensures FirstMismatch(Checks(s, expected)).None? <==>
            && s.schema == SNAPSHOT_SCHEMA && s.canonicalization == CANONICALIZATION
            && s.currency == expected.currency && s.decimals == expected.decimals && s.networks == expected.networks
            && s.receiverAddress == expected.receiverAddress && s.recoveryAddress == expected.recoveryAddress
            && s.amountBaseUnits == expected.amountBaseUnits && s.expirationTimestamp == expected.expirationTimestamp
  {
    var checks := Checks(s, expected);
    NoMismatchExactly(checks);
    assert checks[0].1 && checks[1].1 && checks[2].1 && checks[3].1 && checks[4].1 && checks[5].1 && checks[6].1 && checks[7].1 && checks[8].1
      <==> forall i :: 0 <= i < 9 ==> checks[i].1;
  }

  /** A request is issued exactly when it offers a network and its snapshot describes it. */
  lemma IssuedExactly(c: Codec, currency: Currency, networks: seq<NetworkTerms>, beneficiary: Address, recovery: Address,
                      amount: U256, expiration: U64, snapshot: Snapshot, nonce: Word)
    requires RoundTrips(c)
    ensures Issue(c, currency, networks, beneficiary, recovery, amount, expiration, snapshot, nonce).Ok? <==>
            networks != [] && Describes(c, snapshot, currency, networks, beneficiary, recovery, amount, expiration)
  {
    var expected := NewSnapshot(c, snapshot.issuer, snapshot.billTo, snapshot.payerVerification, currency, networks,
                                beneficiary, recovery, amount, expiration);
    ChecksExactly(snapshot, expected);
    RenderedExactly(c, snapshot.networks, Sort(networks, ByChain));
    RenderedParsesBack(c, Sort(networks, ByChain));
  }

  /** An issued invoice holds the snapshot's own terms, typed, and in canonical order. */
  lemma IssuedMeans(c: Codec, currency: Currency, networks: seq<NetworkTerms>, beneficiary: Address, recovery: Address,
                    amount: U256, expiration: U64, snapshot: Snapshot, nonce: Word)
    requires RoundTrips(c)
    requires Issue(c, currency, networks, beneficiary, recovery, amount, expiration, snapshot, nonce).Ok?
    ensures var inv := Issue(c, currency, networks, beneficiary, recovery, amount, expiration, snapshot, nonce).value;
            && inv.snapshot == snapshot && inv.issuanceNonce == nonce && inv.attributionHash == AttributionHash(snapshot)
            && snapshot.schema == SNAPSHOT_SCHEMA && snapshot.canonicalization == CANONICALIZATION
            && Networks(c, snapshot.networks) == Some(inv.networks)
            && multiset(inv.networks) == multiset(networks)
            && (forall i, j :: 0 <= i < j < |inv.networks| ==> inv.networks[i].chainId <= inv.networks[j].chainId)
            && c.parseAddress(snapshot.receiverAddress) == Some(inv.beneficiary)
            && c.parseAddress(snapshot.recoveryAddress) == Some(recovery)
            && c.parseU256(snapshot.amountBaseUnits) == Some(inv.amount)
            && c.parseU64(snapshot.expirationTimestamp) == Some(inv.expiration)
  {
    var expected := NewSnapshot(c, snapshot.issuer, snapshot.billTo, snapshot.payerVerification, currency, networks,
                                beneficiary, recovery, amount, expiration);
    var checks := Checks(snapshot, expected);
    NoMismatch(checks, 0);
    NoMismatch(checks, 1);
    NoMismatch(checks, 4);
    NoMismatch(checks, 5);
    NoMismatch(checks, 6);
    NoMismatch(checks, 7);
    NoMismatch(checks, 8);
    RenderedParsesBack(c, Sort(networks, ByChain));
    SortElements(networks, ByChain);
    assert Preorder(ByChain);
    SortOrdered(networks, ByChain);
  }

  /** The address of a binding is derived from the invoice's terms, the network and the recovery address that were bound. */
  ghost predicate Derived(inv: Invoice, b: Binding, digest: Option<Word>) {
    && b.salt == Salt(inv.issuanceNonce, inv.attributionHash, digest)
    && b.paymentAddress == PaymentAddress(Terms(b.network.factory, b.network.token, inv.amount, inv.beneficiary, inv.expiration,
                                                b.recovery, b.salt, b.network.chainId))
  }

  /** A request without wallet attestation is bound exactly on a network it offers, without a wallet. */
  lemma NetworkBoundExactly(c: Codec, inv: Invoice, chainId: U64, b: Binding)
    ensures BindNetwork(c, inv, chainId) == Ok(b) <==>
            && !inv.snapshot.payerVerification.walletAttestation
            && NetworkFor(inv.networks, chainId) == Some(b.network) && c.parseAddress(inv.snapshot.recoveryAddress) == Some(b.recovery)
            && b.wallet == None && Derived(inv, b, None)
  {
  }

  /** One with wallet attestation exactly by a wallet's attestation of this request on that network. */
  lemma WalletBoundExactly(c: Codec, inv: Invoice, chainId: U64, attestation: PA.WalletAttestation, b: Binding, v: PA.Verified)
    requires PA.Attests(c, attestation, PA.Scope(b.network.chainId, b.network.factory, inv.attributionHash), v)
    ensures BindPayerWallet(c, inv, chainId, attestation) == Ok(b) <==>
            && inv.snapshot.payerVerification.walletAttestation
            && NetworkFor(inv.networks, chainId) == Some(b.network) && c.parseAddress(inv.snapshot.recoveryAddress) == Some(b.recovery)
            && b.wallet == Some(WalletEvidence(v.wallet, attestation)) && Derived(inv, b, Some(v.digest))
  {
    PA.VerifiedExactly(c, attestation, PA.Scope(b.network.chainId, b.network.factory, inv.attributionHash), v);
  }

  /** And never by one that does not attest to it. */
  lemma BoundIsAttested(c: Codec, inv: Invoice, chainId: U64, attestation: PA.WalletAttestation, b: Binding)
    requires BindPayerWallet(c, inv, chainId, attestation) == Ok(b)
    ensures exists v :: PA.Attests(c, attestation, PA.Scope(b.network.chainId, b.network.factory, inv.attributionHash), v)
  {
    var scope := PA.Scope(b.network.chainId, b.network.factory, inv.attributionHash);
    var v := PA.Verify(c, attestation, scope).value;
    PA.VerifiedExactly(c, attestation, scope, v);
  }

  /** A row bound by either function still describes the address payers were given. */
  lemma BindingsMatchParameters(c: Codec, inv: Invoice, chainId: U64, attestation: PA.WalletAttestation, b: Binding)
    requires BindNetwork(c, inv, chainId) == Ok(b) || BindPayerWallet(c, inv, chainId, attestation) == Ok(b)
    ensures AddressMatchesParameters(inv, b)
    ensures b.wallet.Some? <==> inv.snapshot.payerVerification.walletAttestation
  {
  }

  /** Changing any committed term of a bound row makes the check fail. */
  lemma EditedRowIsCaught(inv: Invoice, edited: Invoice, b: Binding, e: Binding)
    requires AddressMatchesParameters(inv, b) && e.paymentAddress == b.paymentAddress
    ensures AddressMatchesParameters(edited, e) <==>
            BoundTerms(edited, e.network, e.recovery, e.salt) == BoundTerms(inv, b.network, b.recovery, b.salt)
  {
    if AddressMatchesParameters(edited, e) {
      AddressDeterminesTerms(BoundTerms(edited, e.network, e.recovery, e.salt), BoundTerms(inv, b.network, b.recovery, b.salt));
    }
  }

  /** So a row as either function bound it passes the check exactly until a committed term is edited. */
  lemma BoundRowPassesUntilEdited(c: Codec, inv: Invoice, chainId: U64, attestation: PA.WalletAttestation, b: Binding,
                                  edited: Invoice, e: Binding)
    requires BindNetwork(c, inv, chainId) == Ok(b) || BindPayerWallet(c, inv, chainId, attestation) == Ok(b)
    requires e.paymentAddress == b.paymentAddress
    ensures AddressMatchesParameters(edited, e) <==>
            BoundTerms(edited, e.network, e.recovery, e.salt) == BoundTerms(inv, b.network, b.recovery, b.salt)
  {
    BindingsMatchParameters(c, inv, chainId, attestation, b);
    EditedRowIsCaught(inv, edited, b, e);
  }
}
