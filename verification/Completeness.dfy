/** What the client builds, the program accepts: for every stored vault and every
    action, exactly when. */
module Completeness {
  import opened Prelude
  import opened Bytes
  import opened Intent
  import opened Codec
  import opened State
  import opened Recovery
  import opened Host
  import opened Authorize
  import opened Protocol
  import opened Outcome
  import opened Machine
  import opened Ledger
  import opened Steps
  import opened Runs
  import opened Effects
  import opened Client
  import Ed25519
  import SplToken

  /** The intent is about this vault as it stands: right chain, program, account and
      nonce. */
  predicate IntendedFor(host: Host, vault: Key, v: Vault, intent: Intent) {
    intent == Intent(INTENT_VERSION, host.chainDomain, host.programId, vault, v.nonce, intent.expirySlot, intent.action)
  }

  /** The program reconstructs the very intent the client signed. */
  lemma SameIntent(host: Host, vault: Key, v: Vault, intent: Intent)
    requires IntendedFor(host, vault, v, intent)
    ensures IntentAt(host, vault, v.nonce, WireFor(intent)) == intent
    ensures Digest(host, vault, v.nonce, WireFor(intent)) == host.sha(Preimage(intent))
  {
    hide Preimage;
  }

  /** The required schemes accept the intent's digest. */
  ghost predicate Approved(host: Host, w: World, previous: Preceding, v: Vault, intent: Intent, signature: seq<byte>) {
    && w.slot <= intent.expirySlot
    && v.nonce < U64_MAX
    && Policy.FromByte(v.policy).Some?
    && var req := EffectiveRequirement(Policy.FromByte(v.policy).value, v.Threshold(), v.RecoveryEnabled(),
                                       intent.action);
       && req.Ok?
       && req.value.AcceptedBy(
            Ed25519.Verify(host, host.instructionsSysvar, previous, v.owner, host.sha(Preimage(intent))).Ok?,
            host.falcon(v.prepared, host.sha(Preimage(intent)), signature) == Valid)
  }

  /** Authorization of a built instruction is approval of its intent. */
  lemma AuthorizedIffApproved(
      host: Host, w: World, previous: Preceding, vault: Key, v: Vault, intent: Intent, signature: seq<byte>)
    requires VaultAt(host, w, vault) == Some(v) && IntendedFor(host, vault, v, intent)
    requires |signature| == FALCON_SIGNATURE_LEN
    ensures var r := Authorized(host, w, previous, vault, host.instructionsSysvar, WireFor(intent), signature);
            && (r.Ok? <==> Approved(host, w, previous, v, intent, signature))
            && (r.Ok? ==> r.value == Authorization(host.sha(Preimage(intent)), v, v.nonce + 1))
  {
    hide Authorized, VaultAt, Preimage, Digest, Ed25519.Verify, EffectiveRequirement, Policy.FromByte, IntentAt,
         IntendedFor;
    SameIntent(host, vault, v, intent);
    AuthorizedExact(host, w, previous, vault, host.instructionsSysvar, WireFor(intent), signature);
  }

  /** The stored vault as handlers load it before authorizing. */
  lemma VaultLoads(host: Host, w: World, vault: Key)
    requires VaultAt(host, w, vault).Some?
    ensures LoadVault(Get(w, vault).data) == Ok(VaultAt(host, w, vault).value)
    ensures Get(w, vault).owner == host.programId && |Get(w, vault).data| == ACCOUNT_LEN
  {
    hide VaultOf;
  }

  // --------------------------------------------------- readiness per action

  /** The vault's configuration address can be used: a configuration or nothing yet. */
  predicate ConfigUsable(host: Host, w: World, vault: Key, config: Key) {
    && ConfigAddress(host, vault).Some? && config == ConfigAddress(host, vault).value.0
    && (Get(w, config).data == [] || ConfigAt(host, w, vault).Some?)
  }

  /** A token account of a mint, without transfer hooks. */
  ghost predicate HoldsMint(data: seq<byte>, mint: Key) {
    |data| >= SplToken.TOKEN_ACCOUNT_LEN && SplToken.HookFree(data, SplToken.TOKEN_ACCOUNT_LEN) && data[0..32] == mint
  }

  /** The source account belongs to the vault and holds at least the amount. */
  predicate Covers(data: seq<byte>, vault: Key, amount: u64)
    requires |data| >= SplToken.TOKEN_ACCOUNT_LEN
  {
    data[32..64] == vault && U64Of(data[64..72]) >= amount
  }

  /** The call made for a token transfer, with the vault as its authority. */
  function TransferCall(w: World, vault: Key, x: Extras, destination: Key, amount: u64): TokenCall
    requires |Get(w, x.mint).data| >= SplToken.MINT_LEN
  {
    TokenCall(x.tokenProgram, x.source, x.mint, destination, vault, amount, Get(w, x.mint).data[44],
              Get(w, x.source).data, Get(w, x.mint).data, Get(w, destination).data)
  }

  /** The token program accepts the call, and the lamports it moves are there. */
  predicate CallAccepted(host: Host, w: World, vault: Key, x: Extras, destination: Key, amount: u64)
    requires |Get(w, x.mint).data| >= SplToken.MINT_LEN
  {
    var t := host.token(TransferCall(w, vault, x, destination, amount));
    && t.Some?
    && t.value.moved <= Get(w, x.source).lamports
    && Get(w, destination).lamports + t.value.moved <= MAX_LAMPORTS
  }

  /** What a token transfer needs: two accounts of one mint under one supported token
      program, free of hooks, the source the vault's own and sufficient; the creator the
      vault was derived from; and a call that is accepted unless nothing is to move. */
  ghost predicate TokensReady(host: Host, w: World, vault: Key, v: Vault, x: Extras, destination: Key, amount: u64) {
    && x.source != destination
    && (x.tokenProgram == host.tokenProgram || x.tokenProgram == host.token2022Program)
    && Get(w, x.source).owner == x.tokenProgram
    && Get(w, destination).owner == x.tokenProgram
    && Get(w, x.mint).owner == x.tokenProgram
    && host.create(SignerSeeds(x.creator, v.index, v.bump)) == Some(vault)
    && |Get(w, x.mint).data| >= SplToken.MINT_LEN && SplToken.HookFree(Get(w, x.mint).data, SplToken.MINT_LEN)
    && HoldsMint(Get(w, x.source).data, x.mint) && Covers(Get(w, x.source).data, vault, amount)
    && HoldsMint(Get(w, destination).data, x.mint)
    && (amount > 0 ==> CallAccepted(host, w, vault, x, destination, amount))
  }

  lemma AccountsFitExact(w: World, vault: Key, source: Key, mint: Key, destination: Key, amount: u64)
    ensures TokenAccountsFit(w, vault, source, mint, destination, amount).Ok? <==>
            && |Get(w, mint).data| >= SplToken.MINT_LEN && SplToken.HookFree(Get(w, mint).data, SplToken.MINT_LEN)
            && HoldsMint(Get(w, source).data, mint) && Covers(Get(w, source).data, vault, amount)
            && HoldsMint(Get(w, destination).data, mint)
  {
    hide Get, SplToken.NoTransferHook, SplToken.HookFree;
    SplToken.HookFreeExact(Get(w, mint).data, SplToken.MINT_LEN);
    SplToken.HookFreeExact(Get(w, source).data, SplToken.TOKEN_ACCOUNT_LEN);
    SplToken.HookFreeExact(Get(w, destination).data, SplToken.TOKEN_ACCOUNT_LEN);
  }

  /** `DecideTokens` over the accounts a built instruction names. */
  function TokensDecided(host: Host, w: World, vault: Key, x: Extras, destination: Key, amount: u64)
    : (r: Result<(Payment, Option<TokenWrite>)>)
    ensures r.Ok? ==> Payable(w, r.value.0)
  {
    DecideTokens(host, w, vault, Readonly(x.creator), Writable(x.source), Readonly(x.mint), Writable(destination),
                 Readonly(x.tokenProgram), destination, amount)
  }

  /** Exactly when the token checks and the call succeed, and what they decide. */
  lemma TokensReadyExact(host: Host, w: World, vault: Key, v: Vault, x: Extras, destination: Key, amount: u64)
    requires VaultAt(host, w, vault) == Some(v)
    ensures var r := TokensDecided(host, w, vault, x, destination, amount);
            && (r.Ok? <==> TokensReady(host, w, vault, v, x, destination, amount))
            && (r.Ok? && amount == 0 ==> r.value == (NO_PAYMENT, None))
            && (r.Ok? && amount > 0 ==>
                  var t := host.token(TransferCall(w, vault, x, destination, amount)).value;
                  && r.value.0 == Payment(x.source, destination, t.moved)
                  && r.value.1 == Some(TokenWrite(x.source, t.sourceData, destination, t.destinationData)))
  {
    hide Get, VaultAt, TokenAccountsFit, HoldsMint, Covers, SignerSeeds, SplToken.HookFree, LoadVault, VaultOf;
    VaultLoads(host, w, vault);
    SignerLoads(Get(w, vault).data);
    AccountsFitExact(w, vault, x.source, x.mint, destination, amount);
  }

  lemma SignerLoads(data: seq<byte>)
    requires LoadVault(data).Ok?
    ensures LoadSigner(data) == Ok((LoadVault(data).value.index, LoadVault(data).value.bump))
  {
    hide VaultOf;
  }

  /** What an action needs besides approval: exactly the state and account conditions of
      its handler, as a caller can check them. */
  ghost predicate Ready(
      host: Host, w: World, vault: Key, v: Vault, action: Action, x: Extras, digest: Key)
  {
    && Permits(v, ConfigAt(host, w, vault), action)
    && (ReplacesOwner(action) ==> ConfigUsable(host, w, vault, x.config))
    && match action
       case TransferSol(recipient, lamports) =>
         && recipient != vault
         && (lamports > 0 ==>
               && Get(w, vault).lamports >= lamports + host.vaultRent
               && Get(w, recipient).lamports + lamports <= MAX_LAMPORTS)
       case TransferSpl(destination, amount) => TokensReady(host, w, vault, v, x, destination, amount)
       case RotateFalconKey(newHash) =>
         && host.sha(x.wireKey) == newHash
         && host.falconRaw(x.wireKey, digest, x.possession) == Valid
         && host.prepare(x.wireKey).Some?
       case SetRecoveryConfig(_, _) =>
         && ConfigUsable(host, w, vault, x.config)
         && (Get(w, x.config).data == [] ==>
               && CanTransfer(w, Signer(x.payer), Writable(x.config), host.configRent)
               && CanClaim(w, Writable(x.config)))
       case CancelSocialRecovery => ConfigUsable(host, w, vault, x.config)
       case _ => true
  }

  lemma TransferSolReady(
      host: Host, w: World, ix: Instruction, vault: Key, v: Vault, intent: Intent, signature: seq<byte>, x: Extras)
    requires BuiltFor(host, ix, vault, intent, signature, x) && intent.action.TransferSol?
    requires VaultAt(host, w, vault) == Some(v) && IntendedFor(host, vault, v, intent)
    ensures DecideExecute(host, w, ix, ix.data[1..]).Ok? <==>
            Approved(host, w, ix.previous, v, intent, signature)
            && Ready(host, w, vault, v, intent.action, x, host.sha(Preimage(intent)))
  {
    hide Authorized, Approved, VaultAt, Preimage, DataFor, ConfigAt, DecodeWire, WireBytes, IntendedFor, Get;
    ReadBack(host, ix, vault, intent, signature, x);
    AuthorizedIffApproved(host, w, ix.previous, vault, v, intent, signature);
  }

  lemma TransferSplReady(
      host: Host, w: World, ix: Instruction, vault: Key, v: Vault, intent: Intent, signature: seq<byte>, x: Extras)
    requires BuiltFor(host, ix, vault, intent, signature, x) && intent.action.TransferSpl?
    requires VaultAt(host, w, vault) == Some(v) && IntendedFor(host, vault, v, intent)
    ensures DecideExecute(host, w, ix, ix.data[1..]).Ok? <==>
            Approved(host, w, ix.previous, v, intent, signature)
            && Ready(host, w, vault, v, intent.action, x, host.sha(Preimage(intent)))
  {
    hide Authorized, Approved, VaultAt, Preimage, DataFor, ConfigAt, DecodeWire, WireBytes, IntendedFor, Get,
         DecideTokens, TokensReady;
    ReadBack(host, ix, vault, intent, signature, x);
    AuthorizedIffApproved(host, w, ix.previous, vault, v, intent, signature);
    TokensReadyExact(host, w, vault, v, x, intent.action.destination, intent.action.amount);
  }

  lemma ClearPendingUsable(host: Host, w: World, vault: Key, config: Key)
    ensures ClearPending(host, w, vault, Writable(config)).Ok? <==> ConfigUsable(host, w, vault, config)
  {
    hide ConfigOf;
  }

  lemma RotateEd25519Ready(
      host: Host, w: World, ix: Instruction, vault: Key, v: Vault, intent: Intent, signature: seq<byte>, x: Extras)
    requires BuiltFor(host, ix, vault, intent, signature, x) && intent.action.RotateEd25519Key?
    requires VaultAt(host, w, vault) == Some(v) && IntendedFor(host, vault, v, intent)
    ensures DecideRotateEd25519(host, w, ix, ix.data[1..]).Ok? <==>
            Approved(host, w, ix.previous, v, intent, signature)
            && Ready(host, w, vault, v, intent.action, x, host.sha(Preimage(intent)))
  {
    hide Authorized, Approved, VaultAt, Preimage, DataFor, ConfigAt, DecodeWire, WireBytes, IntendedFor, Get,
         ClearPending, ConfigUsable, LoadVault;
    ReadBack(host, ix, vault, intent, signature, x);
    AuthorizedIffApproved(host, w, ix.previous, vault, v, intent, signature);
    VaultLoads(host, w, vault);
    ClearPendingUsable(host, w, vault, x.config);
  }

  lemma RotateFalconReady(
      host: Host, w: World, ix: Instruction, vault: Key, v: Vault, intent: Intent, signature: seq<byte>, x: Extras)
    requires BuiltFor(host, ix, vault, intent, signature, x) && intent.action.RotateFalconKey?
    requires VaultAt(host, w, vault) == Some(v) && IntendedFor(host, vault, v, intent)
    ensures DecideRotateFalcon(host, w, ix, ix.data[1..]).Ok? <==>
            Approved(host, w, ix.previous, v, intent, signature)
            && Ready(host, w, vault, v, intent.action, x, host.sha(Preimage(intent)))
  {
    hide Authorized, Approved, VaultAt, Preimage, DataFor, ConfigAt, DecodeWire, WireBytes, IntendedFor, Get, LoadVault;
    ReadBack(host, ix, vault, intent, signature, x);
    AuthorizedIffApproved(host, w, ix.previous, vault, v, intent, signature);
    VaultLoads(host, w, vault);
  }

  /** A policy change that is approved names a policy. */
  lemma ApprovedTarget(host: Host, w: World, previous: Preceding, v: Vault, intent: Intent, signature: seq<byte>)
    requires intent.action.ChangePolicy? && Approved(host, w, previous, v, intent, signature)
    ensures Policy.FromByte(intent.action.newPolicy).Some? && Policy.FromByte(v.policy).Some?
  {
    hide Ed25519.Verify, Preimage;
  }

  lemma SamePolicy(a: byte, b: byte)
    requires Policy.FromByte(a).Some? && Policy.FromByte(b).Some?
    ensures Policy.FromByte(a) == Policy.FromByte(b) <==> a == b
  {
  }

  lemma ChangePolicyReady(
      host: Host, w: World, ix: Instruction, vault: Key, v: Vault, intent: Intent, signature: seq<byte>, x: Extras)
    requires BuiltFor(host, ix, vault, intent, signature, x) && intent.action.ChangePolicy?
    requires VaultAt(host, w, vault) == Some(v) && IntendedFor(host, vault, v, intent)
    ensures DecideChangePolicy(host, w, ix, ix.data[1..]).Ok? <==>
            Approved(host, w, ix.previous, v, intent, signature)
            && Ready(host, w, vault, v, intent.action, x, host.sha(Preimage(intent)))
  {
    hide Authorized, Approved, VaultAt, Preimage, DataFor, ConfigAt, DecodeWire, WireBytes, IntendedFor, Get, LoadVault,
         Policy.FromByte, ResultingThreshold;
    ReadBack(host, ix, vault, intent, signature, x);
    AuthorizedIffApproved(host, w, ix.previous, vault, v, intent, signature);
    VaultLoads(host, w, vault);
    if Approved(host, w, ix.previous, v, intent, signature) {
      ApprovedTarget(host, w, ix.previous, v, intent, signature);
    }
    if Policy.FromByte(intent.action.newPolicy).Some? && Policy.FromByte(v.policy).Some? {
      SamePolicy(intent.action.newPolicy, v.policy);
    }
  }

  /** An owner rotation by recovery is approved only while recovery is enabled. */
  lemma ApprovedRecovery(host: Host, w: World, previous: Preceding, v: Vault, intent: Intent, signature: seq<byte>)
    requires intent.action.RecoverAccount? && intent.action.op.RotateOwner?
    requires Approved(host, w, previous, v, intent, signature)
    ensures v.RecoveryEnabled()
  {
    hide Ed25519.Verify, Preimage, Policy.FromByte;
  }

  lemma RecoverReady(
      host: Host, w: World, ix: Instruction, vault: Key, v: Vault, intent: Intent, signature: seq<byte>, x: Extras)
    requires BuiltFor(host, ix, vault, intent, signature, x) && intent.action.RecoverAccount?
    requires VaultAt(host, w, vault) == Some(v) && IntendedFor(host, vault, v, intent)
    ensures DecideRecover(host, w, ix, ix.data[1..]).Ok? <==>
            Approved(host, w, ix.previous, v, intent, signature)
            && Ready(host, w, vault, v, intent.action, x, host.sha(Preimage(intent)))
  {
    hide Authorized, Approved, VaultAt, Preimage, DataFor, ConfigAt, DecodeWire, WireBytes, IntendedFor, Get, LoadVault,
         ClearPending, ConfigUsable;
    ReadBack(host, ix, vault, intent, signature, x);
    AuthorizedIffApproved(host, w, ix.previous, vault, v, intent, signature);
    VaultLoads(host, w, vault);
    ClearPendingUsable(host, w, vault, x.config);
    if intent.action.op.RotateOwner? && Approved(host, w, ix.previous, v, intent, signature) {
      ApprovedRecovery(host, w, ix.previous, v, intent, signature);
    }
  }

  lemma ConfigureUsable(host: Host, w: World, vault: Key, x: Extras, action: Action)
    requires action.SetRecoveryConfig? && ConfigAddress(host, vault).Some?
             && x.config == ConfigAddress(host, vault).value.0
    ensures Configure(host, w, Writable(x.config), Signer(x.payer), ConfigAddress(host, vault).value.1, action).Ok? <==>
            && ConfigUsable(host, w, vault, x.config)
            && (ConfigAt(host, w, vault).Some? ==> !ConfigAt(host, w, vault).value.HasPending())
            && (Get(w, x.config).data == [] ==>
                  && CanTransfer(w, Signer(x.payer), Writable(x.config), host.configRent)
                  && CanClaim(w, Writable(x.config)))
  {
    hide ConfigOf, CanTransfer, CanClaim;
  }

  lemma SetRecoveryConfigReady(
      host: Host, w: World, ix: Instruction, vault: Key, v: Vault, intent: Intent, signature: seq<byte>, x: Extras)
    requires BuiltFor(host, ix, vault, intent, signature, x) && intent.action.SetRecoveryConfig?
    requires VaultAt(host, w, vault) == Some(v) && IntendedFor(host, vault, v, intent)
    ensures DecideSetRecoveryConfig(host, w, ix, ix.data[1..]).Ok? <==>
            Approved(host, w, ix.previous, v, intent, signature)
            && Ready(host, w, vault, v, intent.action, x, host.sha(Preimage(intent)))
  {
    hide Authorized, Approved, VaultAt, Preimage, DataFor, ConfigAt, DecodeWire, WireBytes, IntendedFor, Get, Configure,
         ConfigAddress, CanTransfer, CanClaim;
    ReadBack(host, ix, vault, intent, signature, x);
    AuthorizedIffApproved(host, w, ix.previous, vault, v, intent, signature);
    VaultLoads(host, w, vault);
    if ConfigAddress(host, vault).Some? && x.config == ConfigAddress(host, vault).value.0 {
      ConfigureUsable(host, w, vault, x, intent.action);
    }
  }

  /** A usable address that is not empty holds the configuration, and conversely. */
  lemma ConfigLoads(host: Host, w: World, vault: Key)
    requires ConfigAddress(host, vault).Some?
    ensures var a := Get(w, ConfigAddress(host, vault).value.0);
            && (ConfigAt(host, w, vault).Some? <==> a.owner == host.programId && LoadConfig(a.data).Ok?)
            && (ConfigAt(host, w, vault).Some? ==> LoadConfig(a.data) == Ok(ConfigAt(host, w, vault).value))
  {
    hide ConfigOf;
  }

  lemma CancelReady(
      host: Host, w: World, ix: Instruction, vault: Key, v: Vault, intent: Intent, signature: seq<byte>, x: Extras)
    requires BuiltFor(host, ix, vault, intent, signature, x) && intent.action.CancelSocialRecovery?
    requires VaultAt(host, w, vault) == Some(v) && IntendedFor(host, vault, v, intent)
    ensures DecideCancel(host, w, ix, ix.data[1..]).Ok? <==>
            Approved(host, w, ix.previous, v, intent, signature)
            && Ready(host, w, vault, v, intent.action, x, host.sha(Preimage(intent)))
  {
    hide Authorized, Approved, VaultAt, Preimage, DataFor, ConfigAt, DecodeWire, WireBytes, IntendedFor, Get,
         LoadConfig, ConfigAddress, LoadVault;
    ReadBack(host, ix, vault, intent, signature, x);
    AuthorizedIffApproved(host, w, ix.previous, vault, v, intent, signature);
    VaultLoads(host, w, vault);
    if ConfigAddress(host, vault).Some? {
      ConfigLoads(host, w, vault);
    }
  }

  // ------------------------------------------------------------- end to end

  /** Exactly when a built instruction succeeds: its intent is approved and its action
      is ready, nothing else. */
  lemma AcceptedExactly(
      host: Host, w: World, ix: Instruction, vault: Key, v: Vault, intent: Intent, signature: seq<byte>, x: Extras)
    requires BuiltFor(host, ix, vault, intent, signature, x)
    requires VaultAt(host, w, vault) == Some(v) && IntendedFor(host, vault, v, intent)
    ensures Decide(host, w, ix).Ok? <==>
            Approved(host, w, ix.previous, v, intent, signature)
            && Ready(host, w, vault, v, intent.action, x, host.sha(Preimage(intent)))
  {
    hide DecideInitialize, DecideExecute, DecideRotateEd25519, DecideRotateFalcon, DecideChangePolicy, DecideRecover,
         DecideSetRecoveryConfig, DecideInitiate, DecideFinalize, DecideCancel, Approved, Ready, VaultAt, IntendedFor,
         BuiltFor, Preimage;
    ReadBack(host, ix, vault, intent, signature, x);
    match intent.action
    case TransferSol(_, _) => TransferSolReady(host, w, ix, vault, v, intent, signature, x);
    case TransferSpl(_, _) => TransferSplReady(host, w, ix, vault, v, intent, signature, x);
    case RotateEd25519Key(_) => RotateEd25519Ready(host, w, ix, vault, v, intent, signature, x);
    case RotateFalconKey(_) => RotateFalconReady(host, w, ix, vault, v, intent, signature, x);
    case ChangePolicy(_, _) => ChangePolicyReady(host, w, ix, vault, v, intent, signature, x);
    case RecoverAccount(_, _) => RecoverReady(host, w, ix, vault, v, intent, signature, x);
    case SetRecoveryConfig(_, _) => SetRecoveryConfigReady(host, w, ix, vault, v, intent, signature, x);
    case CancelSocialRecovery => CancelReady(host, w, ix, vault, v, intent, signature, x);
  }

  /** The prepared key a built rotation installs. */
  function PreparedBy(host: Host, x: Extras): Prepared {
    var p := host.prepare(x.wireKey);
    if p.Some? then p.value else Zeros(PREPARED_LEN)
  }

  lemma InstalledKey(host: Host, ix: Instruction, vault: Key, intent: Intent, signature: seq<byte>, x: Extras)
    requires BuiltFor(host, ix, vault, intent, signature, x)
    ensures intent.action.RotateFalconKey? ==> NewPrepared(host, ix) == PreparedBy(host, x)
  {
    hide WireBytes, MetasFor, DiscriminatorOf;
    if intent.action.RotateFalconKey? {
      assert ix.data[716..1613] == x.wireKey;
    }
  }

  lemma PreparedOnlyForFalcon(v: Vault, action: Action, a: Prepared, b: Prepared)
    requires v.nonce < U64_MAX && !action.RotateFalconKey?
    ensures VaultAfter(v, action, a) == VaultAfter(v, action, b)
  {
    hide Policy.FromByte;
  }

  /** The bump of a vault's configuration address. */
  function ConfigBump(host: Host, vault: Key): byte {
    if ConfigAddress(host, vault).Some? then ConfigAddress(host, vault).value.1 else 0
  }

  /** End to end: for every stored vault below the maximum nonce, an instruction the
      client built over an approved intent whose action is ready succeeds under the
      preimage the client signed, and does to the vault, its lamports and its recovery
      configuration exactly what the action says. */
  lemma EndToEnd(
      host: Host, w: World, ix: Instruction, vault: Key, v: Vault, intent: Intent, signature: seq<byte>, x: Extras)
    requires HostOk(host) && Inv(host, w) && Admissible(host, ix)
    requires BuiltFor(host, ix, vault, intent, signature, x)
    requires VaultAt(host, w, vault) == Some(v) && IntendedFor(host, vault, v, intent) && v.nonce < U64_MAX
    requires Approved(host, w, ix.previous, v, intent, signature)
    requires Ready(host, w, vault, v, intent.action, x, host.sha(Preimage(intent)))
    ensures Decide(host, w, ix).Ok?
    ensures PreimageUsed(host, w, Invoke(ix)) == Some(Preimage(intent))
    ensures Get(w, vault).lamports >= Outflow(intent.action)
    ensures HoldingAt(host, After(host, w, ix), vault) ==
            Holding(VaultBytes(VaultAfter(v, intent.action, PreparedBy(host, x))),
                    Get(w, vault).lamports - Outflow(intent.action),
                    ConfigAfter(ConfigAt(host, w, vault), intent.action, ConfigBump(host, vault)))
  {
    hide HostOk, Inv, Admissible, BuiltFor, IntendedFor, Approved, Ready, Decide, SignedOutcome, VaultAfter, VaultAt,
         Get, ConfigWritten, PaymentFits, TokensFit, VaultBytes, HoldingAt, PreparedBy, NewPrepared, WireOf, Preimage,
         ConfigAfter, IsSigned, SubjectOf, Outflow, ConfigAt, PreimageUsed, NewWireKey, After;
    AcceptedExactly(host, w, ix, vault, v, intent, signature, x);
    ReadBack(host, ix, vault, intent, signature, x);
    var p := Decide(host, w, ix).value;
    SignedInstruction(host, w, ix, p);
    SignedParts(host, w, ix, p);
    SignedPatch(host, w, ix, p);
    UsedIsPreimageOf(host, w, ix, p);
    SameIntent(host, vault, v, intent);
    HoldingAfter(host, w, ix, p);
    WrittenConfigIsAfter(host, w, vault, intent.action, p.config);
    if intent.action.RotateFalconKey? {
      InstalledKey(host, ix, vault, intent, signature, x);
    } else {
      PreparedOnlyForFalcon(v, intent.action, NewPrepared(host, ix), PreparedBy(host, x));
    }
  }

  /** A built SOL transfer credits the recipient it names. */
  lemma RecipientCredited(
      host: Host, w: World, ix: Instruction, vault: Key, v: Vault, intent: Intent, signature: seq<byte>, x: Extras)
    requires HostOk(host) && BuiltFor(host, ix, vault, intent, signature, x) && intent.action.TransferSol?
    requires VaultAt(host, w, vault) == Some(v) && IntendedFor(host, vault, v, intent) && Decide(host, w, ix).Ok?
    ensures Get(After(host, w, ix), intent.action.recipient).lamports ==
            Get(w, intent.action.recipient).lamports + intent.action.lamports
  {
    hide HostOk, BuiltFor, IntendedFor, Decide, SignedOutcome, VaultAfter, VaultAt, Get, ConfigWritten, TokensFit,
         NewPrepared, WireOf, IsSigned, SubjectOf, Apply, Purge;
    ReadBack(host, ix, vault, intent, signature, x);
    var p := Decide(host, w, ix).value;
    SignedInstruction(host, w, ix, p);
    SignedParts(host, w, ix, p);
    SignedPatch(host, w, ix, p);
    ApplyAt(host, w, p, intent.action.recipient);
    GetPurged(Apply(host, w, p), intent.action.recipient);
  }

  /** An account as the runtime leaves it: gone without lamports. */
  function Left(a: Account): Account {
    if a.lamports > 0 then a else Account(SYSTEM, 0, [])
  }

  lemma SplPatch(
      host: Host, w: World, ix: Instruction, vault: Key, v: Vault, intent: Intent, signature: seq<byte>, x: Extras)
    requires BuiltFor(host, ix, vault, intent, signature, x) && intent.action.TransferSpl?
    requires VaultAt(host, w, vault) == Some(v) && IntendedFor(host, vault, v, intent)
    requires DecideExecute(host, w, ix, ix.data[1..]).Ok?
    ensures var p := DecideExecute(host, w, ix, ix.data[1..]).value;
            var r := TokensDecided(host, w, vault, x, intent.action.destination, intent.action.amount);
            && r.Ok? && p.vault == vault && p.config.None? && p.payment == r.value.0 && p.tokens == r.value.1
            && TokensReady(host, w, vault, v, x, intent.action.destination, intent.action.amount)
  {
    hide Authorized, VaultAt, Preimage, DataFor, DecodeWire, WireBytes, IntendedFor, Get, DecideTokens, TokensReady;
    ReadBack(host, ix, vault, intent, signature, x);
    TokensReadyExact(host, w, vault, v, x, intent.action.destination, intent.action.amount);
  }

  lemma DecidedIsExecute(host: Host, w: World, ix: Instruction)
    requires ix.data != [] && ix.data[0] == 1
    ensures Decide(host, w, ix) == DecideExecute(host, w, ix, ix.data[1..])
  {
    hide DecideExecute;
  }

  lemma ReadyNotVault(host: Host, w: World, vault: Key, v: Vault, x: Extras, destination: Key, amount: u64)
    requires HostOk(host) && VaultAt(host, w, vault) == Some(v)
             && TokensReady(host, w, vault, v, x, destination, amount)
    ensures x.source != vault && destination != vault && x.source != destination
  {
    hide HostOk, VaultOf, HoldsMint, Covers, CallAccepted, SplToken.HookFree, SignerSeeds;
    Distinct(host);
  }

  /** A built token transfer leaves the two token accounts exactly as the token program
      answered the call it names, and alone when nothing is to move. */
  lemma TokenAccountsAfter(
      host: Host, w: World, ix: Instruction, vault: Key, v: Vault, intent: Intent, signature: seq<byte>, x: Extras)
    requires HostOk(host) && BuiltFor(host, ix, vault, intent, signature, x) && intent.action.TransferSpl?
    requires VaultAt(host, w, vault) == Some(v) && IntendedFor(host, vault, v, intent) && Decide(host, w, ix).Ok?
    ensures |Get(w, x.mint).data| >= SplToken.MINT_LEN
    ensures var destination, amount := intent.action.destination, intent.action.amount;
            var before, after := w, After(host, w, ix);
            && (amount == 0 ==>
                  && Get(after, x.source) == Left(Get(before, x.source))
                  && Get(after, destination) == Left(Get(before, destination)))
            && (amount > 0 ==>
                  && CallAccepted(host, w, vault, x, destination, amount)
                  && var t := host.token(TransferCall(w, vault, x, destination, amount)).value;
                     && Get(after, x.source)
                        == Left(Get(before, x.source).(lamports := Get(before, x.source).lamports - t.moved,
                                                       data := t.sourceData))
                     && Get(after, destination)
                        == Left(Get(before, destination).(lamports := Get(before, destination).lamports + t.moved,
                                                          data := t.destinationData)))
  {
    hide HostOk, BuiltFor, IntendedFor, DecideExecute, VaultAt, Get, HoldsMint, Covers, SplToken.HookFree, SignerSeeds,
         Apply, Purge, Decide, TransferCall, DecideTokens, TokensDecided;
    var destination, amount := intent.action.destination, intent.action.amount;
    ReadBack(host, ix, vault, intent, signature, x);
    DecidedIsExecute(host, w, ix);
    SplPatch(host, w, ix, vault, v, intent, signature, x);
    var p := Decide(host, w, ix).value;
    TokensReadyExact(host, w, vault, v, x, destination, amount);
    ReadyNotVault(host, w, vault, v, x, destination, amount);
    ApplyAt(host, w, p, x.source);
    GetPurged(Apply(host, w, p), x.source);
    ApplyAt(host, w, p, destination);
    GetPurged(Apply(host, w, p), destination);
  }

  // ----------------------------------------------------- the Ed25519 partner

  /** The precompile instruction the client puts in front. */
  function PackedBefore(host: Host, owner: Key, signature: seq<byte>, digest: Key): Preceding {
    Ed25519.Preceding(host.ed25519Program, Ed25519.SingleDigestData(owner, signature, digest))
  }

  /** With both signatures in place, every unexpired intent of a stored vault below the
      maximum nonce is approved under any policy, as long as its action has a
      requirement at all. */
  lemma BothSignaturesApprove(
      host: Host, w: World, v: Vault, intent: Intent, edSignature: seq<byte>, signature: seq<byte>)
    requires w.slot <= intent.expirySlot && v.nonce < U64_MAX && Policy.FromByte(v.policy).Some?
    requires intent.action.ChangePolicy? ==> Policy.FromByte(intent.action.newPolicy).Some?
    requires intent.action.RecoverAccount? && intent.action.op.RotateOwner? ==> v.RecoveryEnabled()
    requires |edSignature| == Ed25519.SIGNATURE_LEN
    requires host.falcon(v.prepared, host.sha(Preimage(intent)), signature) == Valid
    ensures Approved(host, w, PackedBefore(host, v.owner, edSignature, host.sha(Preimage(intent))), v, intent,
                     signature)
  {
    hide Preimage, Policy.FromByte, Ed25519.Inspect, Ed25519.SingleDigestData;
    Ed25519.PackedDataAccepted(v.owner, edSignature, host.sha(Preimage(intent)));
  }

  // ------------------------------------------------- the unsigned builders

  /** Exactly when a built Initialize succeeds. */
  lemma InitializeAccepted(
      host: Host, w: World, ix: Instruction, creator: Key, index: u32, owner: Key, policy: Policy, wireKey: seq<byte>)
    requires |wireKey| == FALCON_WIRE_KEY_LEN && VaultAddress(host, creator, index).Some?
    requires ix.metas == InitializeMetas(creator, VaultAddress(host, creator, index).value.0)
    requires ix.data == InitializeData(index, owner, policy, wireKey)
    ensures var (vault, bump) := VaultAddress(host, creator, index).value;
            var shortfall := Shortfall(host, w, vault);
            && (Decide(host, w, ix).Ok? <==>
                  && CanClaim(w, Writable(vault))
                  && (shortfall > 0 ==> CanTransfer(w, Signer(creator), Writable(vault), shortfall))
                  && host.prepare(wireKey).Some?)
            && (Decide(host, w, ix).Ok? ==>
                  Decide(host, w, ix).value.record ==
                  Some(NewVault(bump, index, owner, host.sha(wireKey), policy, host.prepare(wireKey).value)))
  {
    hide InitializeData, ParseInitialize, CanTransfer, VaultAddress, NewVault, Shortfall, Get;
    InitializeReadBack(index, owner, policy, wireKey);
    InitializeTag(index, owner, policy, wireKey);
  }

  lemma InitializeTag(index: u32, owner: Key, policy: Policy, wireKey: seq<byte>)
    ensures var data := InitializeData(index, owner, policy, wireKey); data != [] && data[0] == 0
  {
  }

  /** Exactly when a built proposal succeeds. */
  lemma InitiateAccepted(host: Host, w: World, ix: Instruction, vault: Key, v: Vault, c: Config, newOwner: Key)
    requires VaultAt(host, w, vault) == Some(v) && ConfigAt(host, w, vault) == Some(c)
    requires ix == InitiateInstruction(host, vault, ConfigAddress(host, vault).value.0,
                                       newOwner).(previous := ix.previous)
    ensures Decide(host, w, ix).Ok? <==>
            && v.RecoveryEnabled() && newOwner != ZERO_KEY && newOwner != v.owner
            && !c.HasPending() && w.slot + c.delay <= U64_MAX
            && Ed25519.Verify(host, host.instructionsSysvar, ix.previous, c.guardian,
                              ClaimDigest(host, vault, newOwner, v.nonce)).Ok?
  {
    hide VaultOf, ConfigOf, Get, ConfigAt, VaultAt, LoadConfig, LoadVault, ClaimDigest, Ed25519.Verify, ConfigAddress;
    assert ix.data[1..] == newOwner;
    VaultLoads(host, w, vault);
    ConfigStands(host, w, vault);
  }

  lemma ConfigStands(host: Host, w: World, vault: Key)
    requires ConfigAt(host, w, vault).Some?
    ensures ConfigAddress(host, vault).Some?
    ensures var a, c := Get(w, ConfigAddress(host, vault).value.0), ConfigAt(host, w, vault).value;
            && a.owner == host.programId && LoadConfig(a.data) == Ok(c) && GuardianFromSlice(a.data) == Ok(c.guardian)
  {
  }

  /** Exactly when a built finalization succeeds. */
  lemma FinalizeAccepted(host: Host, w: World, ix: Instruction, vault: Key, v: Vault, c: Config)
    requires VaultAt(host, w, vault) == Some(v) && ConfigAt(host, w, vault) == Some(c)
    requires ix == FinalizeInstruction(vault, ConfigAddress(host, vault).value.0).(previous := ix.previous)
    ensures Decide(host, w, ix).Ok? <==>
            v.RecoveryEnabled() && c.HasPending() && w.slot >= c.ready && v.nonce < U64_MAX
  {
    hide VaultOf, ConfigOf, Get, ConfigAt, VaultAt, LoadConfig, LoadVault, ConfigAddress;
    VaultLoads(host, w, vault);
    ConfigStands(host, w, vault);
  }

  // ------------------------------------------------- recovery goes through

  /** While a proposal is pending, an event that consumes no nonce changes nothing. */
  lemma IdleStep(host: Host, vault: Key, slot: u64, s: Pair, e: Event, t: Pair)
    requires Next(host, vault, slot, s, e, t) && s.vault.Some? && Pending(s) && !Consumes(e)
    ensures t == s
  {
  }

  lemma {:induction false} ProposalWaits(host: Host, ws: seq<World>, ls: seq<Label>, vault: Key, i: nat, j: nat)
    requires SoundRun(host, ws, ls) && i <= j <= |ls|
    requires At(host, ws, vault, i).vault.Some? && Pending(At(host, ws, vault, i))
    requires forall k :: i <= k < j ==> !Consumes(EventAt(host, ws, ls, vault, k))
    ensures At(host, ws, vault, j) == At(host, ws, vault, i)
    decreases j
  {
    hide SoundRun, Next, PairAt, EventOf, PairOk;
    VaultInUse(host, ws, ls, vault, i);
    if i < j {
      ProposalWaits(host, ws, ls, vault, i, j - 1);
      RunStep(host, ws, ls, vault, j - 1);
      IdleStep(host, vault, ws[j - 1].slot, At(host, ws, vault, j - 1), EventAt(host, ws, ls, vault, j - 1),
               At(host, ws, vault, j));
    }
  }

  /** The timelock is exact: a proposal that nobody with the vault's authority acts upon
      can be finalized, by anyone, from the moment its delay has passed, and not before. */
  lemma FinalizeWhenMature(host: Host, ws: seq<World>, ls: seq<Label>, vault: Key, t: nat, j: nat, ix: Instruction)
    requires SoundRun(host, ws, ls) && t < j <= |ls|
    requires EventAt(host, ws, ls, vault, t).Proposed?
    requires forall k :: t < k < j ==> !Consumes(EventAt(host, ws, ls, vault, k))
    requires ConfigAddress(host, vault).Some?
    requires ix == FinalizeInstruction(vault, ConfigAddress(host, vault).value.0).(previous := ix.previous)
    ensures At(host, ws, vault, t).vault.Some? && At(host, ws, vault, t).config.Some?
    ensures Decide(host, ws[j], ix).Ok? <==>
            && ws[j].slot >= ws[t].slot + At(host, ws, vault, t).config.value.delay
            && At(host, ws, vault, t).vault.value.nonce < U64_MAX
  {
    hide SoundRun, Next, Decide, VaultAt, ConfigAt, EventOf, PairOk, FinalizeInstruction;
    EventInUse(host, ws, ls, vault, t);
    RunStep(host, ws, ls, vault, t);
    ProposedEffect(host, vault, ws[t].slot, At(host, ws, vault, t), EventAt(host, ws, ls, vault, t),
                   At(host, ws, vault, t + 1));
    ProposalWaits(host, ws, ls, vault, t + 1, j);
    FinalizeAccepted(host, ws[j], ix, vault, At(host, ws, vault, j).vault.value, At(host, ws, vault, j).config.value);
  }
}
