// prepareConfiguredDeploymentManifest (packages/config/src/deployment-evidence.ts). The parts of a manifest
// that are copied field by field are one opaque value, and the rest of manifest validation is an arbitrary
// predicate; the rules the preparer leans on are written out (packages/config/src/manifest.ts).
module ManifestPreparer {
  import opened Options

  datatype ContractKey =
    | Registry
    | BaseRegistrar
    | Controller
    | PublicResolver
    | ReverseRegistrar
    | UniversalResolver
    | Marketplace

  datatype ArtifactKey =
    | DeploymentReceipts
    | ConstructorWiring
    | GovernanceRoles
    | TreasuryControls
    | SignerPolicy
    | ReleaseAttestation
    | FundedEndToEnd
    | OperationsDrill

  datatype ReleaseState = Draft | Configured | Verified | Active

  datatype RegistrarVersion = V1 | V2

  datatype Deployment = Deployment(
    address: Option<string>,
    deploymentBlock: Option<int>,
    transactionHash: Option<string>,
    runtimeCodeHash: Option<string>,
    abiUrl: Option<string>,
    abiSha256: Option<string>,
    sourceVerified: bool,
    sourceVerificationUrl: Option<string>,
    sourceVerificationSha256: Option<string>)

  datatype Policies = Policies(
    permitSigner: Option<string>,
    signerPolicyVersion: Option<string>,
    referralBps: Option<int>,
    registrationsPaused: Option<bool>,
    feeBps: Option<int>,
    marketplacePaused: Option<bool>)

  datatype Artifact = Artifact(url: Option<string>, sha256: Option<string>)

  datatype Issuer = Issuer(url: Option<string>, signerAddress: Option<string>, publicKey: Option<string>,
                           policyVersion: Option<string>, active: bool)

  datatype X402 = X402(active: bool, facilitatorUrl: Option<string>)

  // registrarVersion, nftMetadata and legacyReleases may be absent; nftMetadata may also be null.
  datatype Manifest = Manifest(
    state: ReleaseState,
    releaseId: Option<string>,
    registrarVersion: Option<RegistrarVersion>,
    nftMetadata: Option<Option<string>>,
    legacyReleases: Option<seq<nat>>,
    contracts: map<ContractKey, Deployment>,
    productLive: bool,
    verifiedAtBlock: Option<int>,
    artifacts: map<ArtifactKey, Artifact>,
    governance: Option<string>,
    policies: Policies,
    issuer: Issuer,
    x402: X402,
    copied: nat)

  datatype Prepared = Prepared(address: string, deploymentBlock: int, transactionHash: string, runtimeCodeHash: string)

  datatype Evidence = Evidence(
    governanceAccount: string,
    permitSigner: string,
    releaseId: string,
    referralBps: int,
    marketplaceFeeBps: int,
    registrarVersion: RegistrarVersion,
    metadataBaseURI: Option<string>,
    contracts: map<ContractKey, Prepared>)

  // Address and hex text: what is an address, its checksummed form, and letter case.
  datatype Texts = Texts(isAddress: string -> bool, checksum: string -> string, lower: string -> string)

  ghost predicate Lawful(x: Texts) {
    forall a :: x.isAddress(a) ==> x.isAddress(x.checksum(a)) && x.checksum(x.checksum(a)) == x.checksum(a)
  }

  datatype Fault = BadState | Invalid | WrongRelease | Mismatch

  const CANONICAL_URI := "https://contour-arc.vercel.app/api/metadata/"
  const CONTRACT_KEYS := {Registry, BaseRegistrar, Controller, PublicResolver, ReverseRegistrar, UniversalResolver,
                          Marketplace}
  const ARTIFACT_KEYS := {
    DeploymentReceipts, ConstructorWiring, GovernanceRoles, TreasuryControls, SignerPolicy, ReleaseAttestation,
    FundedEndToEnd, OperationsDrill
  }

  // ---- the rules of manifest validation that matter here ----

  function VersionOf(m: Manifest): RegistrarVersion {
    if m.registrarVersion.Some? then m.registrarVersion.value else V1
  }

  function UriOf(m: Manifest): Option<string> {
    if m.nftMetadata.Some? then m.nftMetadata.value else None
  }

  predicate RegistrarMetadataFits(m: Manifest) {
    if VersionOf(m) == V1 then UriOf(m).None? else UriOf(m) == Some(CANONICAL_URI)
  }

  predicate LegacyFits(m: Manifest) {
    if VersionOf(m) == V1 then m.legacyReleases.None? else m.legacyReleases.Some? && |m.legacyReleases.value| == 1
  }

  predicate NullOrAddress(x: Texts, a: Option<string>) {
    a.Some? ==> x.isAddress(a.value)
  }

  predicate AddressesFit(x: Texts, m: Manifest) {
    && m.contracts.Keys == CONTRACT_KEYS
    && (forall k <- m.contracts :: NullOrAddress(x, m.contracts[k].address))
    && NullOrAddress(x, m.governance) && NullOrAddress(x, m.policies.permitSigner)
       && NullOrAddress(x, m.issuer.signerAddress)
  }

  predicate Parses(x: Texts, others: Manifest -> bool, m: Manifest) {
    RegistrarMetadataFits(m) && LegacyFits(m) && AddressesFit(x, m) && m.artifacts.Keys == ARTIFACT_KEYS && others(m)
  }

  // ---- comparison with the evidence ----

  predicate SameAddress(x: Texts, a: string, b: string) {
    x.isAddress(a) && x.isAddress(b) && x.lower(x.checksum(a)) == x.lower(x.checksum(b))
  }

  predicate SameHex(x: Texts, a: Option<string>, b: string) {
    a.Some? && x.lower(a.value) == x.lower(b)
  }

  predicate ReleaseMatches(m: Manifest, e: Evidence) {
    && VersionOf(m) == e.registrarVersion
    && UriOf(m) == e.metadataBaseURI
    && (VersionOf(m) == V2 ==> m.legacyReleases.Some? && |m.legacyReleases.value| == 1)
  }

  predicate ContractMatches(x: Texts, d: Deployment, p: Prepared) {
    && d.address.Some? && SameAddress(x, d.address.value, p.address)
    && d.deploymentBlock == Some(p.deploymentBlock)
    && SameHex(x, d.transactionHash, p.transactionHash)
    && SameHex(x, d.runtimeCodeHash, p.runtimeCodeHash)
  }

  predicate IsAddressOf(x: Texts, a: Option<string>, b: string) {
    a.Some? && SameAddress(x, a.value, b)
  }

  // assertConfiguredTemplateMatchesEvidence
  predicate ConfiguredMatches(x: Texts, m: Manifest, e: Evidence) {
    && ReleaseMatches(m, e)
    && SameHex(x, m.releaseId, e.releaseId)
    && (forall k <- e.contracts :: k in m.contracts && ContractMatches(x, m.contracts[k], e.contracts[k]))
    && !m.productLive && m.verifiedAtBlock.None?
    && (forall k <- m.artifacts :: m.artifacts[k] == Artifact(None, None))
    && IsAddressOf(x, m.governance, e.governanceAccount)
    && IsAddressOf(x, m.policies.permitSigner, e.permitSigner)
    && m.policies.signerPolicyVersion == Some("1")
    && m.policies.referralBps == Some(e.referralBps) && m.policies.registrationsPaused == Some(true)
    && m.policies.feeBps == Some(e.marketplaceFeeBps) && m.policies.marketplacePaused == Some(true)
    && IsAddressOf(x, m.issuer.signerAddress, e.permitSigner)
    && m.issuer.policyVersion == Some("1") && !m.issuer.active
  }

  // ---- the builder ----

  function Unpublished(d: Deployment): Deployment {
    d.(abiUrl := None, abiSha256 := None, sourceVerified := false, sourceVerificationUrl := None,
       sourceVerificationSha256 := None)
  }

  // stripUntrustedContractPublicationFields
  function Strip(m: Manifest): Manifest {
    var contracts := map k | k in m.contracts :: Unpublished(m.contracts[k]);
    m.(contracts := contracts, x402 := if m.state != Active then m.x402.(active := false) else m.x402)
  }

  function Deployed(p: Prepared): Deployment {
    Deployment(Some(p.address), Some(p.deploymentBlock), Some(p.transactionHash), Some(p.runtimeCodeHash),
               None, None, false, None, None)
  }

  // The rebuilt manifest; account is its governance account.
  function Build(t: Manifest, e: Evidence, account: string): Manifest {
    var explicitVersion := t.registrarVersion.Some? || VersionOf(t) == V2;
    Manifest(
      Configured,
      Some(e.releaseId),
      if explicitVersion then Some(VersionOf(t)) else None,
      if !explicitVersion then None else if VersionOf(t) == V2 then Some(Some(CANONICAL_URI)) else Some(None),
      t.legacyReleases,
      map k | k in e.contracts :: Deployed(e.contracts[k]),
      false,
      None,
      map k | k in ARTIFACT_KEYS :: Artifact(None, None),
      Some(account),
      Policies(Some(e.permitSigner), Some("1"), Some(e.referralBps), Some(true), Some(e.marketplaceFeeBps), Some(true)),
      Issuer(t.issuer.url, Some(e.permitSigner), t.issuer.publicKey, Some("1"), false),
      X402(false, None),
      t.copied)
  }

  function Prepare(x: Texts, others: Manifest -> bool, raw: Manifest, e: Evidence): Result<Manifest, Fault> {
    if raw.state != Draft && raw.state != Configured then Err(BadState)
    else
      var t := Strip(raw);
      if !Parses(x, others, t) then Err(Invalid)
      else if !ReleaseMatches(t, e) then Err(WrongRelease)
      else if t.state == Configured && !ConfiguredMatches(x, t, e) then Err(Mismatch)
      else
        var account := if t.state == Configured then x.checksum(t.governance.value) else e.governanceAccount;
        var m := Build(t, e, account);
        if Parses(x, others, m) then Ok(m) else Err(Invalid)
  }

  // ---- what follows ----

  lemma StripSettles(m: Manifest)
    requires forall k <- m.contracts :: Unpublished(m.contracts[k]) == m.contracts[k]
    requires !m.x402.active
    ensures Strip(m) == m
  {
    assert Strip(m).contracts == m.contracts;
  }

  lemma BuiltIsStripped(t: Manifest, e: Evidence, account: string)
    ensures Strip(Build(t, e, account)) == Build(t, e, account)
  {
    var m := Build(t, e, account);
    forall k <- m.contracts ensures Unpublished(m.contracts[k]) == m.contracts[k] {}
    StripSettles(m);
  }

  lemma BuiltContractsMatch(x: Texts, contracts: map<ContractKey, Prepared>, built: map<ContractKey, Deployment>)
    requires built == map k | k in contracts :: Deployed(contracts[k])
    requires forall k <- built :: NullOrAddress(x, built[k].address)
    ensures forall k <- contracts :: k in built && ContractMatches(x, built[k], contracts[k])
  {
    forall k <- contracts ensures k in built && ContractMatches(x, built[k], contracts[k]) {
      assert NullOrAddress(x, built[k].address);
    }
  }

  // A valid build passes the comparison with the evidence it was built from.
  lemma BuiltMatches(x: Texts, others: Manifest -> bool, t: Manifest, e: Evidence, account: string)
    requires Parses(x, others, t) && ReleaseMatches(t, e) && Parses(x, others, Build(t, e, account))
    requires SameAddress(x, account, e.governanceAccount)
    ensures ReleaseMatches(Build(t, e, account), e) && ConfiguredMatches(x, Build(t, e, account), e)
  {
    BuiltContractsMatch(x, e.contracts, Build(t, e, account).contracts);
  }

  // Building again from a build changes nothing but the governance account.
  lemma BuildTwice(t: Manifest, e: Evidence, account: string, again: string)
    requires RegistrarMetadataFits(t)
    ensures Build(Build(t, e, account), e, again) == Build(t, e, again)
  {
  }

  lemma AccountIsChecksummed(x: Texts, others: Manifest -> bool, raw: Manifest, e: Evidence)
    requires Lawful(x) && Prepare(x, others, raw, e).Ok?
    ensures var m := Prepare(x, others, raw, e).value;
            m.governance.Some? && x.isAddress(m.governance.value)
                && SameAddress(x, m.governance.value, e.governanceAccount)
            && (x.checksum(m.governance.value) == m.governance.value <==>
                raw.state == Configured || x.checksum(e.governanceAccount) == e.governanceAccount)
  {
    var t := Strip(raw);
    if t.state == Configured { assert SameAddress(x, t.governance.value, e.governanceAccount); }
  }

  // Preparing is idempotent: fed its own output with the same evidence, the builder accepts it and returns
  // the same manifest, exactly when the account it wrote is checksummed. That is always so for a configured
  // template, and for a draft when the evidence holds the checksummed account, as prepared evidence does.
  lemma PrepareIsIdempotent(x: Texts, others: Manifest -> bool, raw: Manifest, e: Evidence)
    requires Lawful(x) && Prepare(x, others, raw, e).Ok?
    ensures var m := Prepare(x, others, raw, e).value;
            Prepare(x, others, m, e) == Ok(m) <==>
                raw.state == Configured || x.checksum(e.governanceAccount) == e.governanceAccount
  {
    var t := Strip(raw);
    var m := Prepare(x, others, raw, e).value;
    AccountIsChecksummed(x, others, raw, e);
    var account := m.governance.value;
    BuiltIsStripped(t, e, account);
    BuiltMatches(x, others, t, e, account);
    BuildTwice(t, e, account, x.checksum(account));
  }

  // The fields that a receipt shows.
  predicate SameOnChain(a: Deployment, b: Deployment) {
    && a.address == b.address && a.deploymentBlock == b.deploymentBlock && a.transactionHash == b.transactionHash
    && a.runtimeCodeHash == b.runtimeCodeHash
  }

  // Nothing a live service published about a contract, and no x402 activation, reaches the result.
  lemma PublicationIsIgnored(x: Texts, others: Manifest -> bool, a: Manifest, b: Manifest, e: Evidence)
    requires b == a.(contracts := b.contracts, x402 := a.x402.(active := b.x402.active))
             && a.contracts.Keys == b.contracts.Keys
    requires forall k <- a.contracts :: SameOnChain(a.contracts[k], b.contracts[k])
    ensures Prepare(x, others, a, e) == Prepare(x, others, b, e)
  {
    if a.state != Active { assert Strip(a).contracts == Strip(b).contracts; }
  }

  // Whatever the template, an accepted result is a paused, unverified candidate with exactly the contracts
  // of the receipt.
  lemma PreparedFollowsReceipt(x: Texts, others: Manifest -> bool, raw: Manifest, e: Evidence, k: ContractKey)
    requires Prepare(x, others, raw, e).Ok?
    ensures var m := Prepare(x, others, raw, e).value;
            && m.contracts.Keys == e.contracts.Keys == CONTRACT_KEYS
            && (k in m.contracts ==> m.contracts[k] == Deployed(e.contracts[k]))
            && m.state == Configured && !m.productLive && m.verifiedAtBlock.None? && !m.issuer.active && !m.x402.active
            && m.policies.registrationsPaused == Some(true) && m.policies.marketplacePaused == Some(true)
  {
    var t := Strip(raw);
    var m := Prepare(x, others, raw, e).value;
    assert m.contracts == map c | c in e.contracts :: Deployed(e.contracts[c]);
    assert m.contracts.Keys == e.contracts.Keys;
  }

  // ---- what is accepted ----

  // Version 2 is named, with its metadata base and one retained release; otherwise there is none of them.
  predicate IdentityFits(m: Manifest) {
    if m.registrarVersion == Some(V2) then
      && m.nftMetadata == Some(Some("https://contour-arc.vercel.app/api/metadata/"))
      && m.legacyReleases.Some? && |m.legacyReleases.value| == 1
    else (m.nftMetadata == None || m.nftMetadata == Some(None)) && m.legacyReleases == None
  }

  lemma EveryContractKey(k: ContractKey)
    ensures k in CONTRACT_KEYS
  {
    match k {
      case Registry => case BaseRegistrar => case Controller => case PublicResolver =>
      case ReverseRegistrar => case UniversalResolver => case Marketplace =>
    }
  }

  lemma EveryArtifactKey(k: ArtifactKey)
    ensures k in ARTIFACT_KEYS
  {
    match k {
      case DeploymentReceipts => case ConstructorWiring => case GovernanceRoles => case TreasuryControls =>
      case SignerPolicy => case ReleaseAttestation => case FundedEndToEnd => case OperationsDrill =>
    }
  }

  lemma ParsesExactly(x: Texts, others: Manifest -> bool, m: Manifest)
    ensures Parses(x, others, m) <==>
            && IdentityFits(m) && others(m)
            && (forall k: ContractKey :: k in m.contracts) && (forall k: ArtifactKey :: k in m.artifacts)
            && (forall k <- m.contracts :: m.contracts[k].address.Some? ==> x.isAddress(m.contracts[k].address.value))
            && (m.governance.Some? ==> x.isAddress(m.governance.value))
            && (m.policies.permitSigner.Some? ==> x.isAddress(m.policies.permitSigner.value))
            && (m.issuer.signerAddress.Some? ==> x.isAddress(m.issuer.signerAddress.value))
  {
    assert (forall k: ContractKey :: k in m.contracts) <==> m.contracts.Keys == CONTRACT_KEYS by {
      forall k: ContractKey ensures k in CONTRACT_KEYS { EveryContractKey(k); }
    }
    assert (forall k: ArtifactKey :: k in m.artifacts) <==> m.artifacts.Keys == ARTIFACT_KEYS by {
      forall k: ArtifactKey ensures k in ARTIFACT_KEYS { EveryArtifactKey(k); }
    }
  }

  // The template and the evidence are of one registrar version.
  lemma ReleaseIsExact(m: Manifest, e: Evidence)
    requires IdentityFits(m)
    ensures ReleaseMatches(m, e) <==>
            if m.registrarVersion == Some(V2)
            then e.registrarVersion == V2 && e.metadataBaseURI == Some("https://contour-arc.vercel.app/api/metadata/")
            else e.registrarVersion == V1 && e.metadataBaseURI == None
  {
  }

  lemma StripIsExact(m: Manifest)
    ensures var t := Strip(m);
            && t == m.(contracts := t.contracts, x402 := t.x402) && t.contracts.Keys == m.contracts.Keys
            && t.x402.facilitatorUrl == m.x402.facilitatorUrl
            && t.x402.active == (m.x402.active && m.state == Active)
            && forall k <- m.contracts ::
                 && SameOnChain(t.contracts[k], m.contracts[k]) && !t.contracts[k].sourceVerified
                 && t.contracts[k].abiUrl == t.contracts[k].abiSha256 == None
                 && t.contracts[k].sourceVerificationUrl == t.contracts[k].sourceVerificationSha256 == None
  {
  }

  // A draft or configured template is accepted exactly when it is valid, is of the evidence's release, matches the
  // evidence if it is configured, and gives a valid result.
  lemma AcceptedExactly(x: Texts, others: Manifest -> bool, raw: Manifest, e: Evidence)
    ensures var t := Strip(raw);
            var account := if raw.state == Configured && t.governance.Some? then x.checksum(t.governance.value)
                           else e.governanceAccount;
            Prepare(x, others, raw, e).Ok? <==>
            && (raw.state == Draft || raw.state == Configured)
            && Parses(x, others, t) && ReleaseMatches(t, e) && (raw.state == Configured ==> ConfiguredMatches(x, t, e))
            && Parses(x, others, Build(t, e, account))
  {
  }

  // Every field of the result: the receipt's, the evidence's, the template's, or reset.
  lemma ResultIsExact(x: Texts, others: Manifest -> bool, raw: Manifest, e: Evidence)
    requires Prepare(x, others, raw, e).Ok?
    ensures IsResult(raw, e, Prepare(x, others, raw, e).value)
    ensures Prepare(x, others, raw, e).value.governance ==
            (if raw.state == Configured && raw.governance.Some? then Some(x.checksum(raw.governance.value))
             else Some(e.governanceAccount))
  {
    var account := PreparedIsBuilt(x, others, raw, e);
    BuildIsResult(raw, Strip(raw), e, account);
  }

  lemma PreparedIsBuilt(x: Texts, others: Manifest -> bool, raw: Manifest, e: Evidence) returns (account: string)
    requires Prepare(x, others, raw, e).Ok?
    ensures Prepare(x, others, raw, e).value == Build(Strip(raw), e, account) && IdentityFits(Strip(raw))
    ensures account == if raw.state == Configured && raw.governance.Some? then x.checksum(raw.governance.value)
                       else e.governanceAccount
  {
    account := if raw.state == Configured && raw.governance.Some? then x.checksum(raw.governance.value)
               else e.governanceAccount;
    ParsesExactly(x, others, Strip(raw));
  }

  predicate IsResult(raw: Manifest, e: Evidence, m: Manifest) {
    && m.state == Configured && m.releaseId == Some(e.releaseId) && m.registrarVersion == raw.registrarVersion
    && m.nftMetadata == (if raw.registrarVersion.None? then None
                         else if raw.registrarVersion == Some(V2)
                         then Some(Some("https://contour-arc.vercel.app/api/metadata/")) else Some(None))
    && m.legacyReleases == raw.legacyReleases && m.copied == raw.copied
    && !m.productLive && m.verifiedAtBlock == None
    && m.issuer.url == raw.issuer.url && m.issuer.signerAddress == Some(e.permitSigner)
    && m.issuer.publicKey == raw.issuer.publicKey && m.issuer.policyVersion == Some("1") && !m.issuer.active
    && m.x402.facilitatorUrl == None && !m.x402.active
    && m.policies.permitSigner == Some(e.permitSigner) && m.policies.signerPolicyVersion == Some("1")
    && m.policies.referralBps == Some(e.referralBps) && m.policies.feeBps == Some(e.marketplaceFeeBps)
    && m.policies.registrationsPaused == m.policies.marketplacePaused == Some(true)
    && m.artifacts.Keys == ARTIFACT_KEYS
    && forall k <- m.artifacts :: m.artifacts[k].url == m.artifacts[k].sha256 == None
  }

  lemma BuildIsResult(raw: Manifest, t: Manifest, e: Evidence, account: string)
    requires t == raw.(contracts := t.contracts, x402 := t.x402) && IdentityFits(t)
    ensures IsResult(raw, e, Build(t, e, account)) && Build(t, e, account).governance == Some(account)
  {
  }

  // The contract entries are those of the receipt, without anything published.
  lemma ContractsAreDeployed(x: Texts, others: Manifest -> bool, raw: Manifest, e: Evidence, k: ContractKey)
    requires Prepare(x, others, raw, e).Ok?
    ensures k in e.contracts && k in Prepare(x, others, raw, e).value.contracts
    ensures var d, p := Prepare(x, others, raw, e).value.contracts[k], e.contracts[k];
            && d.address == Some(p.address) && d.deploymentBlock == Some(p.deploymentBlock)
            && d.transactionHash == Some(p.transactionHash) && d.runtimeCodeHash == Some(p.runtimeCodeHash)
            && d.abiUrl == d.abiSha256 == None && !d.sourceVerified
            && d.sourceVerificationUrl == d.sourceVerificationSha256 == None
  {
    ParsesExactly(x, others, Prepare(x, others, raw, e).value);
  }

  // A configured template matches the evidence exactly when each of these does.
  lemma ComparisonIsExact(x: Texts, m: Manifest, e: Evidence)
    ensures ConfiguredMatches(x, m, e) <==>
            && ReleaseMatches(m, e) && m.releaseId.Some? && x.lower(m.releaseId.value) == x.lower(e.releaseId)
            && (forall k <- e.contracts :: k in m.contracts && ShowsReceipt(x, m.contracts[k], e.contracts[k]))
            && m.productLive == false && m.verifiedAtBlock == None
            && (forall k <- m.artifacts :: m.artifacts[k].url == m.artifacts[k].sha256 == None)
            && m.governance.Some? && SameAddress(x, m.governance.value, e.governanceAccount)
            && m.policies.permitSigner.Some? && SameAddress(x, m.policies.permitSigner.value, e.permitSigner)
            && m.policies.signerPolicyVersion == Some("1") && m.policies.referralBps == Some(e.referralBps)
            && m.policies.registrationsPaused == Some(true) && m.policies.feeBps == Some(e.marketplaceFeeBps)
            && m.policies.marketplacePaused == Some(true)
            && m.issuer.signerAddress.Some? && SameAddress(x, m.issuer.signerAddress.value, e.permitSigner)
            && m.issuer.policyVersion == Some("1") && m.issuer.active == false
  {
  }

  predicate ShowsReceipt(x: Texts, d: Deployment, p: Prepared) {
    && d.address.Some? && SameAddress(x, d.address.value, p.address) && d.deploymentBlock == Some(p.deploymentBlock)
    && d.transactionHash.Some? && x.lower(d.transactionHash.value) == x.lower(p.transactionHash)
    && d.runtimeCodeHash.Some? && x.lower(d.runtimeCodeHash.value) == x.lower(p.runtimeCodeHash)
  }
}
