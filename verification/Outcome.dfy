/** What success of each instruction means: one uniform description of the seven
    signed instructions, and one for each of the other three. */
module Outcome {
  import opened Prelude
  import opened Bytes
  import opened Intent
  import opened Codec
  import opened State
  import opened Recovery
  import opened Host
  import opened Authorize
  import opened Protocol
  import Ed25519

  /** The configuration stored for a vault, if one is. */
  function ConfigAt(host: Host, w: World, vault: Key): Option<Config> {
    var derived := ConfigAddress(host, vault);
    if derived.None? then None
    else
      var a := Get(w, derived.value.0);
      if a.owner == host.programId && |a.data| == CONFIG_LEN && a.data[0] == CONFIG_VERSION
      then Some(ConfigOf(a.data)) else None
  }

  // ------------------------------------------------- effects of an action

  /** The record a signed action leaves, given the prepared form of the new Falcon
      key when there is one. */
  function VaultAfter(v: Vault, action: Action, prepared: Prepared): Vault
    requires v.nonce < U64_MAX
  {
    var bumped := v.(nonce := v.nonce + 1);
    match action
    case RotateEd25519Key(newOwner) => bumped.(owner := newOwner)
    case RotateFalconKey(newHash) => bumped.(falconHash := newHash, prepared := prepared)
    case ChangePolicy(newPolicy, threshold) =>
      (match Policy.FromByte(newPolicy)
       case None => bumped
       case Some(target) => bumped.(policy := newPolicy).WithThreshold(ResultingThreshold(target, threshold)))
    case RecoverAccount(op, newEd25519) =>
      (match op
       case Enable => bumped.WithRecovery(true)
       case Disable => bumped.WithRecovery(false)
       case RotateOwner => bumped.(owner := newEd25519))
    case _ => bumped
  }

  predicate ReplacesOwner(action: Action) {
    action.RotateEd25519Key? || (action.RecoverAccount? && action.op.RotateOwner?)
  }

  predicate TouchesConfig(action: Action) {
    ReplacesOwner(action) || action.SetRecoveryConfig? || action.CancelSocialRecovery?
  }

  /** The configuration a signed action leaves; `bump` is its address's bump. */
  function ConfigAfter(c: Option<Config>, action: Action, bump: byte): Option<Config> {
    if action.SetRecoveryConfig? then
      if c.None? then Some(NewConfig(bump, action.guardian, action.delay))
      else Some(c.value.(guardian := action.guardian, delay := action.delay))
    else if c.Some? && (ReplacesOwner(action) || action.CancelSocialRecovery?) then Some(c.value.Cleared())
    else c
  }

  /** What an action asks of the stored state, beyond being authorized. */
  predicate Permits(v: Vault, c: Option<Config>, action: Action) {
    match action
    case RotateEd25519Key(newOwner) => newOwner != v.owner
    case RotateFalconKey(newHash) => newHash != v.falconHash
    case ChangePolicy(newPolicy, threshold) =>
      var target := Policy.FromByte(newPolicy);
      target.Some? && (newPolicy != v.policy || v.Threshold() != ResultingThreshold(target.value, threshold))
    case RecoverAccount(op, newEd25519) =>
      (match op
       case Enable => !v.RecoveryEnabled() && newEd25519 == ZERO_KEY
       case Disable => v.RecoveryEnabled() && newEd25519 == ZERO_KEY
       case RotateOwner => v.RecoveryEnabled() && newEd25519 != v.owner && newEd25519 != ZERO_KEY)
    case SetRecoveryConfig(guardian, delay) =>
      guardian != ZERO_KEY && delay >= 1 && (c.Some? ==> !c.value.HasPending())
    case CancelSocialRecovery => v.RecoveryEnabled() && c.Some? && c.value.HasPending()
    case _ => true
  }

  /** The only discriminator that can carry an action. */
  function DiscriminatorOf(action: Action): byte {
    match action
    case TransferSol(_, _) => 1
    case TransferSpl(_, _) => 1
    case RotateEd25519Key(_) => 2
    case RotateFalconKey(_) => 3
    case ChangePolicy(_, _) => 4
    case RecoverAccount(_, _) => 5
    case SetRecoveryConfig(_, _) => 6
    case CancelSocialRecovery => 9
  }

  // ---------------------------------------------- reading an instruction

  predicate IsSigned(ix: Instruction) {
    ix.data != [] && ix.data[0] in {1, 2, 3, 4, 5, 6, 9}
  }

  function WireOf(ix: Instruction): Result<Wire> {
    if |ix.data| < 50 then Err(MalformedInstructionData) else DecodeWire(ix.data[1..50])
  }

  function SignatureOf(ix: Instruction): seq<byte> {
    if |ix.data| < 716 then [] else ix.data[50..716]
  }

  function SubjectOf(ix: Instruction): Key {
    if ix.metas == [] then ZERO_KEY else ix.metas[0].key
  }

  function SysvarOf(ix: Instruction): Key {
    if ix.metas == [] then ZERO_KEY else ix.metas[|ix.metas| - 1].key
  }

  /** The new Falcon wire key a `RotateFalconKey` instruction carries. */
  function NewWireKey(ix: Instruction): seq<byte> {
    if |ix.data| < 1613 then [] else ix.data[716..1613]
  }

  function NewPrepared(host: Host, ix: Instruction): Prepared {
    var p := host.prepare(NewWireKey(ix));
    if p.Some? then p.value else Zeros(PREPARED_LEN)
  }

  // ------------------------------------------------------ signed outcomes

  /** The configuration write of a signed action: none, or the configuration of
      this very vault, which exists already or starts from an empty address. */
  predicate ConfigWritten(host: Host, w: World, vault: Key, action: Action, config: Option<ConfigWrite>) {
    var derived := ConfigAddress(host, vault);
    if !TouchesConfig(action) then config == None
    else
      derived.Some?
      && var a := Get(w, derived.value.0);
         && (a.data == [] || ConfigAt(host, w, vault).Some?)
         && var c := ConfigAfter(ConfigAt(host, w, vault), action, derived.value.1);
            config == if c.None? then None else Some(ConfigWrite(derived.value.0, c.value))
  }

  /** Lamports leave the vault only for the signed recipient and never below the
      rent minimum; a new configuration is paid for by a System account; a token
      call moves what token accounts hold. */
  predicate PaymentFits(host: Host, w: World, vault: Key, action: Action, p: Patch) {
    var pay := p.payment;
    match action
    case TransferSol(recipient, lamports) =>
      && recipient != vault
      && pay == Payment(vault, recipient, lamports)
      && (lamports > 0 ==> Get(w, vault).lamports >= lamports + host.vaultRent)
    case SetRecoveryConfig(_, _) =>
      && ConfigAddress(host, vault).Some?
      && pay.to == ConfigAddress(host, vault).value.0
      && (if ConfigAt(host, w, vault).Some? then pay.amount == 0
          else pay.amount == host.configRent && Get(w, pay.from).owner == SYSTEM && Get(w, pay.from).data == []
               && Get(w, pay.to).owner == SYSTEM && Get(w, pay.to).data == [])
    case TransferSpl(_, _) =>
      pay.amount > 0 ==> p.tokens.Some? && pay.from == p.tokens.value.source && pay.to == p.tokens.value.destination
    case _ => pay.amount == 0
  }

  predicate IsTokenOwned(host: Host, w: World, k: Key) {
    Get(w, k).owner == host.tokenProgram || Get(w, k).owner == host.token2022Program
  }

  predicate TokensFit(host: Host, w: World, action: Action, tokens: Option<TokenWrite>) {
    tokens.Some? ==>
      && action.TransferSpl?
      && tokens.value.source != tokens.value.destination
      && IsTokenOwned(host, w, tokens.value.source)
      && IsTokenOwned(host, w, tokens.value.destination)
  }

  /** The uniform description of a successful signed instruction. */
  ghost predicate SignedOutcome(host: Host, w: World, ix: Instruction, p: Patch) {
    && WireOf(ix).Ok?
    && var wire := WireOf(ix).value;
       && p.vault == SubjectOf(ix)
       && MayAuthorize(host, w, ix.previous, p.vault, SysvarOf(ix), wire, SignatureOf(ix))
       && var v := VaultAt(host, w, p.vault).value;
          && ix.data[0] == DiscriminatorOf(wire.action)
          && Permits(v, ConfigAt(host, w, p.vault), wire.action)
          && (wire.action.RotateFalconKey? ==>
                && |NewWireKey(ix)| == FALCON_WIRE_KEY_LEN
                && wire.action.newHash == host.sha(NewWireKey(ix))
                && host.prepare(NewWireKey(ix)).Some?)
          && p.record == Some(VaultAfter(v, wire.action, NewPrepared(host, ix)))
          && ConfigWritten(host, w, p.vault, wire.action, p.config)
          && PaymentFits(host, w, p.vault, wire.action, p)
          && (wire.action.SetRecoveryConfig? ==>
                |ix.metas| == 5 && ix.metas[2].signer && ix.metas[2].key == p.payment.from)
          && TokensFit(host, w, wire.action, p.tokens)
  }

  /** The payload offsets seen from the whole instruction data. */
  lemma PayloadRegions(ix: Instruction)
    requires ix.data != []
    ensures var payload := ix.data[1..];
            && (|payload| >= 49 ==> payload[..49] == ix.data[1..50])
            && (|payload| == AUTH_PAYLOAD_LEN ==> payload[49..] == ix.data[50..716])
            && (|payload| == ROTATE_FALCON_PAYLOAD_LEN ==>
                  payload[49..715] == ix.data[50..716] && payload[715..1612] == ix.data[716..1613])
  {
    var payload := ix.data[1..];
    if |payload| == ROTATE_FALCON_PAYLOAD_LEN {
      assert payload[49..715] == ix.data[50..716];
      assert payload[715..1612] == ix.data[716..1613];
    }
  }

  lemma TransferSolOutcome(host: Host, w: World, ix: Instruction, wire: Wire, p: Patch)
    requires |ix.data| == 716 && ix.data[0] == 1
    requires DecodeWire(ix.data[1..50]) == Ok(wire) && wire.action.TransferSol?
    requires DecideTransferSol(host, w, ix, wire, ix.data[50..716]) == Ok(p)
    ensures SignedOutcome(host, w, ix, p)
  {
    hide DecodeWire, Authorized, MayAuthorize, VaultAt, ConfigAt, Get, ConfigWritten, VaultAfter, NewPrepared,
         NewWireKey, TokensFit;
    AuthorizedExact(host, w, ix.previous, ix.metas[0].key, SysvarOf(ix), wire, SignatureOf(ix));
    TransferLeaves(host, w, p.vault, VaultAt(host, w, p.vault).value, wire.action, NewPrepared(host, ix));
  }

  /** A transfer changes only the nonce of the record, and no configuration. */
  lemma TransferLeaves(host: Host, w: World, vault: Key, v: Vault, action: Action, prepared: Prepared)
    requires v.nonce < U64_MAX && (action.TransferSol? || action.TransferSpl?)
    ensures VaultAfter(v, action, prepared) == v.(nonce := v.nonce + 1)
    ensures ConfigWritten(host, w, vault, action, None)
    ensures TokensFit(host, w, action, None)
  {
  }

  /** What a decided token call moves and writes. */
  lemma TokensMean(
      host: Host, w: World, vault: Key, creator: Meta, source: Meta, mint: Meta, destination: Meta, program: Meta,
      action: Action)
    requires action.TransferSpl?
    requires DecideTokens(host, w, vault, creator, source, mint, destination, program, action.destination,
                          action.amount).Ok?
    ensures var (payment, tokens) :=
              DecideTokens(host, w, vault, creator, source, mint, destination, program,
                           action.destination, action.amount).value;
            && TokensFit(host, w, action, tokens)
            && (payment.amount > 0 ==>
                  tokens.Some? && payment.from == tokens.value.source && payment.to == tokens.value.destination)
  {
    hide TokenAccountsFit, CallToken, SignerSeeds, Get, LoadSigner;
  }

  lemma TransferSplOutcome(host: Host, w: World, ix: Instruction, wire: Wire, p: Patch)
    requires |ix.data| == 716 && ix.data[0] == 1
    requires DecodeWire(ix.data[1..50]) == Ok(wire) && wire.action.TransferSpl?
    requires DecideTransferSpl(host, w, ix, wire, ix.data[50..716]) == Ok(p)
    ensures SignedOutcome(host, w, ix, p)
  {
    hide DecodeWire, Authorized, MayAuthorize, VaultAt, DecideTokens, ConfigAt, Get, ConfigWritten, VaultAfter,
         NewPrepared, NewWireKey, TokensFit;
    AuthorizedExact(host, w, ix.previous, ix.metas[0].key, SysvarOf(ix), wire, SignatureOf(ix));
    TransferLeaves(host, w, p.vault, VaultAt(host, w, p.vault).value, wire.action, NewPrepared(host, ix));
    TokensMean(host, w, p.vault, ix.metas[1], ix.metas[2], ix.metas[3], ix.metas[4], ix.metas[5], wire.action);
  }

  lemma ExecuteOutcome(host: Host, w: World, ix: Instruction, p: Patch)
    requires ix.data != [] && ix.data[0] == 1
    requires DecideExecute(host, w, ix, ix.data[1..]) == Ok(p)
    ensures SignedOutcome(host, w, ix, p)
  {
    hide DecodeWire, DecideTransferSol, DecideTransferSpl, SignedOutcome;
    PayloadRegions(ix);
    var wire := SplitWire(ix.data[1..]).value.0;
    if wire.action.TransferSol? {
      TransferSolOutcome(host, w, ix, wire, p);
    } else {
      TransferSplOutcome(host, w, ix, wire, p);
    }
  }

  /** Clearing a proposal after an owner change, in terms of the stored pair. */
  lemma ClearPendingMeans(host: Host, w: World, vault: Key, config: Meta, action: Action)
    requires ReplacesOwner(action)
    requires ClearPending(host, w, vault, config).Ok?
    ensures ConfigWritten(host, w, vault, action, ClearPending(host, w, vault, config).value)
  {
  }

  lemma RotateEd25519Outcome(host: Host, w: World, ix: Instruction, p: Patch)
    requires ix.data != [] && ix.data[0] == 2
    requires DecideRotateEd25519(host, w, ix, ix.data[1..]) == Ok(p)
    ensures SignedOutcome(host, w, ix, p)
  {
    hide VaultOf, Get, DecodeWire, Authorized, MayAuthorize, ConfigAt, ClearPending, ConfigWritten;
    PayloadRegions(ix);
    var (wire, signature) := SplitWire(ix.data[1..]).value;
    AuthorizedExact(host, w, ix.previous, ix.metas[0].key, SysvarOf(ix), wire, signature);
    ClearPendingMeans(host, w, ix.metas[0].key, ix.metas[1], wire.action);
  }

  lemma RotateFalconOutcome(host: Host, w: World, ix: Instruction, p: Patch)
    requires ix.data != [] && ix.data[0] == 3
    requires DecideRotateFalcon(host, w, ix, ix.data[1..]) == Ok(p)
    ensures SignedOutcome(host, w, ix, p)
  {
    hide VaultOf, Get, DecodeWire, Authorized, MayAuthorize, ConfigAt, VerifyRaw;
    PayloadRegions(ix);
    var wire := DecodeWire(ix.data[1..][..49]).value;
    AuthorizedExact(host, w, ix.previous, ix.metas[0].key, SysvarOf(ix), wire, SignatureOf(ix));
  }

  lemma ChangePolicyOutcome(host: Host, w: World, ix: Instruction, p: Patch)
    requires ix.data != [] && ix.data[0] == 4
    requires DecideChangePolicy(host, w, ix, ix.data[1..]) == Ok(p)
    ensures SignedOutcome(host, w, ix, p)
  {
    hide VaultOf, Get, DecodeWire, Authorized, MayAuthorize, ConfigAt;
    PayloadRegions(ix);
    var (wire, signature) := SplitWire(ix.data[1..]).value;
    AuthorizedExact(host, w, ix.previous, ix.metas[0].key, SysvarOf(ix), wire, signature);
  }

  lemma RecoverToggleOutcome(host: Host, w: World, ix: Instruction, wire: Wire, p: Patch)
    requires |ix.data| == 716 && ix.data[0] == 5
    requires DecodeWire(ix.data[1..50]) == Ok(wire) && wire.action.RecoverAccount? && !wire.action.op.RotateOwner?
    requires DecideRecoverToggle(host, w, ix, wire, ix.data[50..716]) == Ok(p)
    ensures SignedOutcome(host, w, ix, p)
  {
    hide VaultOf, Get, DecodeWire, Authorized, MayAuthorize, VaultAt, ConfigAt;
    AuthorizedExact(host, w, ix.previous, ix.metas[0].key, SysvarOf(ix), wire, SignatureOf(ix));
  }

  /** Recovery by rotation is authorized only while it is enabled. */
  lemma RotationNeedsEnabled(
      host: Host, w: World, previous: Preceding, vault: Key, sysvar: Key, wire: Wire, signature: seq<byte>)
    requires MayAuthorize(host, w, previous, vault, sysvar, wire, signature)
    requires wire.action.RecoverAccount? && wire.action.op.RotateOwner?
    ensures VaultAt(host, w, vault).Some? && VaultAt(host, w, vault).value.RecoveryEnabled()
  {
    hide VaultAt, Digest, Ed25519.Verify, Policy.FromByte;
  }

  /** An owner rotation changes owner and nonce of the record, and no token account. */
  lemma RotationLeaves(host: Host, w: World, v: Vault, action: Action, prepared: Prepared)
    requires v.nonce < U64_MAX && ReplacesOwner(action)
    ensures VaultAfter(v, action, prepared) ==
            v.(nonce := v.nonce + 1, owner := if action.RotateEd25519Key? then action.newOwner else action.newEd25519)
    ensures TokensFit(host, w, action, None)
  {
  }

  lemma RecoverRotateOutcome(host: Host, w: World, ix: Instruction, wire: Wire, p: Patch)
    requires |ix.data| == 716 && ix.data[0] == 5
    requires DecodeWire(ix.data[1..50]) == Ok(wire) && wire.action.RecoverAccount? && wire.action.op.RotateOwner?
    requires DecideRecoverRotate(host, w, ix, wire, ix.data[50..716]) == Ok(p)
    ensures SignedOutcome(host, w, ix, p)
  {
    hide DecodeWire, Authorized, MayAuthorize, VaultOf, VaultAfter, NewPrepared, NewWireKey, Get, ConfigAt,
         ClearPending, ConfigWritten, TokensFit;
    AuthorizedExact(host, w, ix.previous, ix.metas[0].key, SysvarOf(ix), wire, SignatureOf(ix));
    RotationNeedsEnabled(host, w, ix.previous, ix.metas[0].key, SysvarOf(ix), wire, SignatureOf(ix));
    RotationLeaves(host, w, VaultAt(host, w, ix.metas[0].key).value, wire.action, NewPrepared(host, ix));
    ClearPendingMeans(host, w, ix.metas[0].key, ix.metas[1], wire.action);
  }

  lemma RecoverOutcome(host: Host, w: World, ix: Instruction, p: Patch)
    requires ix.data != [] && ix.data[0] == 5
    requires DecideRecover(host, w, ix, ix.data[1..]) == Ok(p)
    ensures SignedOutcome(host, w, ix, p)
  {
    hide DecodeWire, DecideRecoverToggle, DecideRecoverRotate, SignedOutcome;
    PayloadRegions(ix);
    var wire := SplitWire(ix.data[1..]).value.0;
    if wire.action.op.RotateOwner? {
      RecoverRotateOutcome(host, w, ix, wire, p);
    } else {
      RecoverToggleOutcome(host, w, ix, wire, p);
    }
  }

  lemma ConfigureMeans(host: Host, w: World, vault: Key, config: Meta, payer: Meta, action: Action)
    requires action.SetRecoveryConfig?
    requires VerifyAddress(ConfigAddress(host, vault), config.key).Ok?
    requires Configure(host, w, config, payer, ConfigAddress(host, vault).value.1, action).Ok?
    ensures var (c, charge) := Configure(host, w, config, payer, ConfigAddress(host, vault).value.1, action).value;
            && ConfigWritten(host, w, vault, action, Some(ConfigWrite(config.key, c)))
            && (ConfigAt(host, w, vault).Some? ==> !ConfigAt(host, w, vault).value.HasPending())
            && forall p: Patch :: p.payment == Payment(payer.key, config.key, charge)
                 ==> PaymentFits(host, w, vault, action, p)
  {
  }

  lemma SetRecoveryConfigOutcome(host: Host, w: World, ix: Instruction, p: Patch)
    requires ix.data != [] && ix.data[0] == 6
    requires DecideSetRecoveryConfig(host, w, ix, ix.data[1..]) == Ok(p)
    ensures SignedOutcome(host, w, ix, p)
  {
    hide VaultOf, Get, DecodeWire, Authorized, MayAuthorize, VaultAt, ConfigAt, Configure, ConfigWritten, PaymentFits;
    PayloadRegions(ix);
    var (wire, signature) := SplitWire(ix.data[1..]).value;
    AuthorizedExact(host, w, ix.previous, ix.metas[0].key, SysvarOf(ix), wire, signature);
    ConfigureMeans(host, w, ix.metas[0].key, ix.metas[1], ix.metas[2], wire.action);
  }

  /** Cancelling, in terms of the stored configuration. */
  lemma CancelMeans(host: Host, w: World, vault: Key, config: Meta, action: Action)
    requires action.CancelSocialRecovery? && VerifyAddress(ConfigAddress(host, vault), config.key).Ok?
    requires Get(w, config.key).owner == host.programId && LoadConfig(Get(w, config.key).data).Ok?
    ensures ConfigAt(host, w, vault) == Some(LoadConfig(Get(w, config.key).data).value)
    ensures ConfigWritten(host, w, vault, action,
                          Some(ConfigWrite(config.key, LoadConfig(Get(w, config.key).data).value.Cleared())))
  {
    hide ConfigOf, Get;
  }

  lemma CancelOutcome(host: Host, w: World, ix: Instruction, p: Patch)
    requires ix.data != [] && ix.data[0] == 9
    requires DecideCancel(host, w, ix, ix.data[1..]) == Ok(p)
    ensures SignedOutcome(host, w, ix, p)
  {
    hide VaultOf, Get, DecodeWire, Authorized, MayAuthorize, ConfigAt, ConfigWritten, LoadConfig, Config.Cleared;
    PayloadRegions(ix);
    var (wire, signature) := SplitWire(ix.data[1..]).value;
    AuthorizedExact(host, w, ix.previous, ix.metas[0].key, SysvarOf(ix), wire, signature);
    CancelMeans(host, w, ix.metas[0].key, ix.metas[1], wire.action);
  }

  lemma SignedInstruction(host: Host, w: World, ix: Instruction, p: Patch)
    requires IsSigned(ix) && Decide(host, w, ix) == Ok(p)
    ensures SignedOutcome(host, w, ix, p)
  {
    hide SignedOutcome, DecideExecute, DecideRotateEd25519, DecideRotateFalcon, DecideChangePolicy, DecideRecover,
         DecideSetRecoveryConfig, DecideCancel;
    match ix.data[0]
    case 1 => ExecuteOutcome(host, w, ix, p);
    case 2 => RotateEd25519Outcome(host, w, ix, p);
    case 3 => RotateFalconOutcome(host, w, ix, p);
    case 4 => ChangePolicyOutcome(host, w, ix, p);
    case 5 => RecoverOutcome(host, w, ix, p);
    case 6 => SetRecoveryConfigOutcome(host, w, ix, p);
    case _ => CancelOutcome(host, w, ix, p);
  }

  // ---------------------------------------------------- the other outcomes

  /** A new vault at an empty program address, funded up to the rent minimum by
      its creator. */
  ghost predicate CreatedOutcome(host: Host, w: World, ix: Instruction, p: Patch) {
    && ix.data != [] && |ix.metas| == 3
    && ix.metas[0].signer
    && p.vault == ix.metas[1].key
    && Get(w, p.vault).owner == SYSTEM && Get(w, p.vault).data == []
    && p.config == None && p.tokens == None
    && p.payment == Payment(ix.metas[0].key, p.vault, Shortfall(host, w, p.vault))
    && (p.payment.amount > 0 ==> Get(w, p.payment.from).owner == SYSTEM && Get(w, p.payment.from).data == [])
    && ParseInitialize(ix.data[1..]).Ok?
    && var args := ParseInitialize(ix.data[1..]).value;
       && host.prepare(args.wireKey).Some?
       && VaultAddress(host, ix.metas[0].key, args.index).Some?
       && VaultAddress(host, ix.metas[0].key, args.index).value.0 == p.vault
       && p.record == Some(NewVault(VaultAddress(host, ix.metas[0].key, args.index).value.1, args.index, args.owner,
                                    host.sha(args.wireKey), args.policy, host.prepare(args.wireKey).value))
  }

  lemma CreatedInstruction(host: Host, w: World, ix: Instruction, p: Patch)
    requires ix.data != [] && ix.data[0] == 0 && Decide(host, w, ix) == Ok(p)
    ensures CreatedOutcome(host, w, ix, p)
  {
    hide DecideExecute, DecideRotateEd25519, DecideRotateFalcon, DecideChangePolicy, DecideRecover,
         DecideSetRecoveryConfig, DecideInitiate, DecideFinalize, DecideCancel, ParseInitialize;
  }

  /** A proposal signed by the guardian; the vault itself is only read. */
  ghost predicate ProposedOutcome(host: Host, w: World, ix: Instruction, p: Patch) {
    && |ix.data| == 33 && |ix.metas| == 3
    && p.vault == SubjectOf(ix)
    && ConfigAddress(host, p.vault).Some?
    && Get(w, p.vault).owner == host.programId && |Get(w, p.vault).data| == ACCOUNT_LEN
    && ConfigAt(host, w, p.vault).Some?
    && var v, c, newOwner: Key := VaultOf(Get(w, p.vault).data), ConfigAt(host, w, p.vault).value, ix.data[1..];
       && v.RecoveryEnabled()
       && newOwner != ZERO_KEY && newOwner != v.owner
       && !c.HasPending()
       && w.slot + c.delay <= U64_MAX
       && Ed25519.Verify(host, SysvarOf(ix), ix.previous, c.guardian, ClaimDigest(host, p.vault, newOwner, v.nonce)).Ok?
       && p == Patch(p.vault, None,
                     Some(ConfigWrite(ConfigAddress(host, p.vault).value.0,
                                      c.(pending := newOwner, ready := w.slot + c.delay))),
                     NO_PAYMENT, None)
  }

  lemma ProposedInstruction(host: Host, w: World, ix: Instruction, p: Patch)
    requires ix.data != [] && ix.data[0] == 7 && Decide(host, w, ix) == Ok(p)
    ensures ProposedOutcome(host, w, ix, p)
  {
    hide DecideInitialize, DecideExecute, DecideRotateEd25519, DecideRotateFalcon, DecideChangePolicy, DecideRecover,
         DecideSetRecoveryConfig, DecideFinalize, DecideCancel, VaultOf, Get, Ed25519.Verify, ClaimDigest;
  }

  /** A matured proposal takes effect. */
  ghost predicate FinalizedOutcome(host: Host, w: World, ix: Instruction, p: Patch) {
    && p.vault == SubjectOf(ix)
    && ConfigAddress(host, p.vault).Some?
    && Get(w, p.vault).owner == host.programId && |Get(w, p.vault).data| == ACCOUNT_LEN
    && ConfigAt(host, w, p.vault).Some?
    && var v, c := VaultOf(Get(w, p.vault).data), ConfigAt(host, w, p.vault).value;
       && v.RecoveryEnabled() && c.HasPending() && w.slot >= c.ready && v.nonce < U64_MAX
       && p == Patch(p.vault, Some(v.(owner := c.pending, nonce := v.nonce + 1)),
                     Some(ConfigWrite(ConfigAddress(host, p.vault).value.0, c.Cleared())), NO_PAYMENT, None)
  }

  lemma FinalizedInstruction(host: Host, w: World, ix: Instruction, p: Patch)
    requires ix.data != [] && ix.data[0] == 8 && Decide(host, w, ix) == Ok(p)
    ensures FinalizedOutcome(host, w, ix, p)
  {
    hide DecideInitialize, DecideExecute, DecideRotateEd25519, DecideRotateFalcon, DecideChangePolicy, DecideRecover,
         DecideSetRecoveryConfig, DecideInitiate, DecideCancel, VaultOf, Get;
  }
}
