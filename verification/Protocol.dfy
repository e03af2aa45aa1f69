/** The ten instructions as decisions: what each one checks, in order, and the
    patch it applies to the accounts when every check passes. */
module Protocol {
  import opened Prelude
  import opened Bytes
  import opened Intent
  import opened Codec
  import opened State
  import opened Recovery
  import opened Host
  import opened Authorize
  import SplToken
  import Ed25519

  datatype Meta = Meta(key: Key, signer: bool, writable: bool)

  /** One top-level instruction of a transaction, with the one before it. */
  datatype Instruction = Instruction(metas: seq<Meta>, data: seq<byte>, previous: Preceding)

  datatype ConfigWrite = ConfigWrite(key: Key, config: Config)
  datatype TokenWrite = TokenWrite(source: Key, sourceData: seq<byte>, destination: Key, destinationData: seq<byte>)

  /** Everything a successful instruction changes. */
  datatype Patch = Patch(
    vault: Key,
    record: Option<Vault>,
    config: Option<ConfigWrite>,
    payment: Payment,
    tokens: Option<TokenWrite>)

  const MAX_LAMPORTS := 0xFFFF_FFFF_FFFF_FFFF
  const AUTH_PAYLOAD_LEN := 715
  const ROTATE_FALCON_PAYLOAD_LEN := 2278
  const INITIALIZE_PAYLOAD_LEN := 934

  // ------------------------------------------------------- applying a patch

  function Apply(host: Host, w: World, p: Patch): World
    requires Payable(w, p.payment)
  {
    var paid := Move(w, p.payment);
    var recorded := if p.record.None? then paid else SetData(paid, p.vault, host.programId, VaultBytes(p.record.value));
    var configured :=
      if p.config.None? then recorded
      else SetData(recorded, p.config.value.key, host.programId, ConfigBytes(p.config.value.config));
    if p.tokens.None? then configured
    else
      var t := p.tokens.value;
      var sourced := SetData(configured, t.source, Get(configured, t.source).owner, t.sourceData);
      SetData(sourced, t.destination, Get(sourced, t.destination).owner, t.destinationData)
  }

  // ------------------------------------------------- System program calls

  /** When the System program accepts a transfer requested with these metas. */
  predicate CanTransfer(w: World, from: Meta, to: Meta, amount: nat) {
    && from.signer && from.writable && to.writable
    && Get(w, from.key).owner == SYSTEM && Get(w, from.key).data == []
    && amount <= Get(w, from.key).lamports
    && Get(w, to.key).lamports + amount <= MAX_LAMPORTS
  }

  /** When it accepts allocating and assigning the account to the program. */
  predicate CanClaim(w: World, m: Meta) {
    m.writable && Get(w, m.key).owner == SYSTEM && Get(w, m.key).data == []
  }

  // -------------------------------------------------------------- Initialize

  datatype InitializeArgs = InitializeArgs(index: u32, owner: Key, policy: Policy, wireKey: seq<byte>)

  /** `initialize::parse`. */
  function ParseInitialize(payload: seq<byte>): (r: Result<InitializeArgs>)
    ensures r.Ok? ==> |r.value.wireKey| == FALCON_WIRE_KEY_LEN
  {
    if |payload| != INITIALIZE_PAYLOAD_LEN then Err(MalformedInstructionData)
    else
      match Policy.FromByte(payload[36])
      case None => Err(PolicyRejected)
      case Some(policy) => Ok(InitializeArgs(U32Of(payload[0..4]), payload[4..36], policy, payload[37..934]))
  }

  /** The part of the rent minimum that the address does not hold already. */
  function Shortfall(host: Host, w: World, vault: Key): nat {
    if Get(w, vault).lamports >= host.vaultRent then 0 else host.vaultRent - Get(w, vault).lamports
  }

  function DecideInitialize(host: Host, w: World, ix: Instruction, payload: seq<byte>): (r: Result<Patch>)
    ensures r.Ok? ==> Payable(w, r.value.payment)
  {
    var args :- ParseInitialize(payload);
    if |ix.metas| != 3 then Err(MalformedInstructionData)
    else
      var creator, vault, system := ix.metas[0], ix.metas[1], ix.metas[2];
      if !creator.signer then Err(MissingSigner)
      else if system.key != SYSTEM then Err(InvalidProgramAccount)
      else
        var bump :- VerifyAddress(VaultAddress(host, creator.key, args.index), vault.key);
        if Get(w, vault.key).data != [] then Err(AccountAlreadyInitialized)
        else
          var shortfall := Shortfall(host, w, vault.key);
          if shortfall > 0 && !CanTransfer(w, creator, vault, shortfall) then Err(CalleeFailed)
          else if !CanClaim(w, vault) then Err(CalleeFailed)
          else
            match host.prepare(args.wireKey)
            case None => Err(MalformedFalcon)
            case Some(prepared) =>
              var v := NewVault(bump, args.index, args.owner, host.sha(args.wireKey), args.policy, prepared);
              Ok(Patch(vault.key, Some(v), None, Payment(creator.key, vault.key, shortfall), None))
  }

  // ----------------------------------------------------------------- Execute

  function DecideTransferSol(
      host: Host, w: World, ix: Instruction, wire: Wire, signature: seq<byte>): (r: Result<Patch>)
    requires wire.action.TransferSol?
    ensures r.Ok? ==> Payable(w, r.value.payment)
  {
    if |ix.metas| != 3 then Err(MalformedInstructionData)
    else
      var vault, recipient, sysvar := ix.metas[0], ix.metas[1], ix.metas[2];
      if !vault.writable || !recipient.writable then Err(InvalidAccountData)
      else if recipient.key != wire.action.recipient then Err(InvalidAccountData)
      else if recipient.key == vault.key then Err(InvalidAccountData)
      else
        var auth :- Authorized(host, w, ix.previous, vault.key, sysvar.key, wire, signature);
        var amount := wire.action.lamports;
        var balance := Get(w, vault.key).lamports;
        if amount > 0 && balance < amount then Err(InsufficientFunds)
        else if amount > 0 && balance - amount < host.vaultRent then Err(InsufficientFunds)
        else if amount > 0 && Get(w, recipient.key).lamports + amount > MAX_LAMPORTS then Err(MathOverflow)
        else Ok(Patch(vault.key, Some(auth.vault.(nonce := auth.nextNonce)), None,
                      Payment(vault.key, recipient.key, amount), None))
  }

  function SignerSeeds(creator: Key, index: u32, bump: byte): seq<seq<byte>> {
    VaultSeeds(creator, index) + [[bump]]
  }

  /** The checks of `transfer_spl` on the mint and the two token accounts. */
  function TokenAccountsFit(w: World, vault: Key, source: Key, mint: Key, destination: Key, amount: u64): Result<Unit> {
    var mintData, sourceData, destinationData := Get(w, mint).data, Get(w, source).data, Get(w, destination).data;
    if |mintData| < SplToken.MINT_LEN then Err(InvalidAccountData)
    else
      var _ :- SplToken.NoTransferHook(mintData, SplToken.MINT_LEN);
      if |sourceData| < SplToken.TOKEN_ACCOUNT_LEN then Err(InvalidAccountData)
      else
        var _ :- SplToken.NoTransferHook(sourceData, SplToken.TOKEN_ACCOUNT_LEN);
        if sourceData[0..32] != mint then Err(InvalidAccountData)
        else if sourceData[32..64] != vault then Err(InvalidAccountData)
        else if U64Of(sourceData[64..72]) < amount then Err(InsufficientFunds)
        else if |destinationData| < SplToken.TOKEN_ACCOUNT_LEN then Err(InvalidAccountData)
        else
          var _ :- SplToken.NoTransferHook(destinationData, SplToken.TOKEN_ACCOUNT_LEN);
          if destinationData[0..32] != mint then Err(InvalidAccountData)
          else Ok(Done)
  }

  /** The token program call, and what it may move. */
  function CallToken(
      host: Host, w: World, program: Key, source: Key, mint: Key, destination: Key, vault: Key, amount: u64)
    : (r: Result<TokenResult>)
    requires |Get(w, mint).data| >= SplToken.MINT_LEN
    ensures r.Ok? ==> Payable(w, Payment(source, destination, r.value.moved))
  {
    var mintData := Get(w, mint).data;
    match host.token(TokenCall(program, source, mint, destination, vault, amount, mintData[44],
                               Get(w, source).data, mintData, Get(w, destination).data))
    case None => Err(CalleeFailed)
    case Some(t) =>
      if t.moved > Get(w, source).lamports || Get(w, destination).lamports + t.moved > MAX_LAMPORTS
      then Err(CalleeFailed) else Ok(t)
  }

  /** The index and bump that `transfer_spl` reads from a vault's data: the bump by
      plain indexing, the index through a checked accessor. */
  function LoadSigner(data: seq<byte>): Result<(u32, byte)> {
    if |data| < 2 then Err(Panicked)
    else if |data| != ACCOUNT_LEN then Err(InvalidAccountData)
    else Ok((VaultOf(data).index, VaultOf(data).bump))
  }

  /** `transfer_spl`: what the token call moves and writes. An amount of zero makes no
      call. */
  function DecideTokens(
      host: Host, w: World, vault: Key, creator: Meta, source: Meta, mint: Meta, destination: Meta, program: Meta,
      wanted: Key, amount: u64)
    : (r: Result<(Payment, Option<TokenWrite>)>)
    ensures r.Ok? ==> Payable(w, r.value.0)
  {
    if destination.key != wanted then Err(InvalidAccountData)
    else if source.key == destination.key then Err(InvalidAccountData)
    else if program.key != host.tokenProgram && program.key != host.token2022Program then Err(InvalidProgramAccount)
    else if Get(w, source.key).owner != program.key || Get(w, destination.key).owner != program.key
            || Get(w, mint.key).owner != program.key then Err(InvalidAccountData)
    else if !source.writable || !destination.writable then Err(InvalidAccountData)
    else
      var (index, bump) :- LoadSigner(Get(w, vault).data);
      if host.create(SignerSeeds(creator.key, index, bump)) != Some(vault) then Err(InvalidPda)
      else
        var _ :- TokenAccountsFit(w, vault, source.key, mint.key, destination.key, amount);
        if amount == 0 then Ok((NO_PAYMENT, None))
        else
          var t :- CallToken(host, w, program.key, source.key, mint.key, destination.key, vault, amount);
          Ok((Payment(source.key, destination.key, t.moved),
              Some(TokenWrite(source.key, t.sourceData, destination.key, t.destinationData))))
  }

  function DecideTransferSpl(
      host: Host, w: World, ix: Instruction, wire: Wire, signature: seq<byte>): (r: Result<Patch>)
    requires wire.action.TransferSpl?
    ensures r.Ok? ==> Payable(w, r.value.payment)
  {
    if |ix.metas| != 7 then Err(MalformedInstructionData)
    else
      var vault, sysvar := ix.metas[0], ix.metas[6];
      if !vault.writable then Err(InvalidAccountData)
      else
        var auth :- Authorized(host, w, ix.previous, vault.key, sysvar.key, wire, signature);
        var (payment, tokens) :- DecideTokens(host, w, vault.key, ix.metas[1], ix.metas[2], ix.metas[3], ix.metas[4],
                                              ix.metas[5], wire.action.destination, wire.action.amount);
        Ok(Patch(vault.key, Some(auth.vault.(nonce := auth.nextNonce)), None, payment, tokens))
  }

  /** The 49-byte fragment and the signature behind it. */
  function SplitWire(payload: seq<byte>): (r: Result<(Wire, seq<byte>)>)
  {
    if |payload| != AUTH_PAYLOAD_LEN then Err(MalformedInstructionData)
    else
      var wire :- DecodeWire(payload[..49]);
      Ok((wire, payload[49..]))
  }

  function DecideExecute(host: Host, w: World, ix: Instruction, payload: seq<byte>): (r: Result<Patch>)
    ensures r.Ok? ==> Payable(w, r.value.payment)
  {
    var (wire, signature) :- SplitWire(payload);
    match wire.action
    case TransferSol(_, _) => DecideTransferSol(host, w, ix, wire, signature)
    case TransferSpl(_, _) => DecideTransferSpl(host, w, ix, wire, signature)
    case _ => Err(UnsupportedAction)
  }

  // ------------------------------------------------------------ key rotation

  /** `clear_pending_after_ed25519_owner_change`: an empty configuration address is
      left alone, an existing configuration loses its proposal. */
  function ClearPending(host: Host, w: World, vault: Key, config: Meta): Result<Option<ConfigWrite>> {
    var _ :- VerifyAddress(ConfigAddress(host, vault), config.key);
    var a := Get(w, config.key);
    if a.data == [] then Ok(None)
    else if a.owner != host.programId then Err(InvalidAccountData)
    else if !config.writable then Err(InvalidAccountData)
    else
      var c :- LoadConfig(a.data);
      Ok(Some(ConfigWrite(config.key, c.Cleared())))
  }

  /** `RecoveryConfig::try_from_bytes`, as a reading. */
  function LoadConfig(data: seq<byte>): Result<Config> {
    if |data| != CONFIG_LEN then Err(InvalidAccountData)
    else if data[0] != CONFIG_VERSION then Err(InvalidAccountData)
    else Ok(ConfigOf(data))
  }

  /** `owner_ed25519_from_slice` and its siblings start with this length check. */
  function LoadVault(data: seq<byte>): Result<Vault> {
    if |data| != ACCOUNT_LEN then Err(InvalidAccountData) else Ok(VaultOf(data))
  }

  function DecideRotateEd25519(host: Host, w: World, ix: Instruction, payload: seq<byte>): (r: Result<Patch>)
    ensures r.Ok? ==> Payable(w, r.value.payment)
  {
    if |payload| != AUTH_PAYLOAD_LEN || |ix.metas| != 3 then Err(MalformedInstructionData)
    else
      var vault, config, sysvar := ix.metas[0], ix.metas[1], ix.metas[2];
      if !vault.writable then Err(InvalidAccountData)
      else
        var (wire, signature) :- SplitWire(payload);
        if !wire.action.RotateEd25519Key? then Err(UnsupportedAction)
        else
          var stored :- LoadVault(Get(w, vault.key).data);
          if wire.action.newOwner == stored.owner then Err(InvalidAccountData)
          else
            var auth :- Authorized(host, w, ix.previous, vault.key, sysvar.key, wire, signature);
            var cleared :- ClearPending(host, w, vault.key, config);
            var v := auth.vault.(nonce := auth.nextNonce, owner := wire.action.newOwner);
            Ok(Patch(vault.key, Some(v), cleared, NO_PAYMENT, None))
  }

  function DecideRotateFalcon(host: Host, w: World, ix: Instruction, payload: seq<byte>): (r: Result<Patch>)
    ensures r.Ok? ==> Payable(w, r.value.payment)
  {
    if |payload| != ROTATE_FALCON_PAYLOAD_LEN || |ix.metas| != 2 then Err(MalformedInstructionData)
    else
      var vault, sysvar := ix.metas[0], ix.metas[1];
      if !vault.writable then Err(InvalidAccountData)
      else
        var signature, wireKey, possession := payload[49..715], payload[715..1612], payload[1612..];
        var wire :- DecodeWire(payload[..49]);
        if !wire.action.RotateFalconKey? then Err(UnsupportedAction)
        else if host.sha(wireKey) != wire.action.newHash then Err(DigestMismatch)
        else
          var stored :- LoadVault(Get(w, vault.key).data);
          if wire.action.newHash == stored.falconHash then Err(InvalidAccountData)
          else
            var auth :- Authorized(host, w, ix.previous, vault.key, sysvar.key, wire, signature);
            var _ :- VerifyRaw(host, wireKey, auth.digest, possession);
            match host.prepare(wireKey)
            case None => Err(MalformedFalcon)
            case Some(prepared) =>
              var v := auth.vault.(nonce := auth.nextNonce, falconHash := wire.action.newHash, prepared := prepared);
              Ok(Patch(vault.key, Some(v), None, NO_PAYMENT, None))
  }

  // ---------------------------------------------------------- policy change

  function DecideChangePolicy(host: Host, w: World, ix: Instruction, payload: seq<byte>): (r: Result<Patch>)
    ensures r.Ok? ==> Payable(w, r.value.payment)
  {
    if |payload| != AUTH_PAYLOAD_LEN || |ix.metas| != 2 then Err(MalformedInstructionData)
    else
      var vault, sysvar := ix.metas[0], ix.metas[1];
      if !vault.writable then Err(InvalidAccountData)
      else
        var (wire, signature) :- SplitWire(payload);
        if !wire.action.ChangePolicy? then Err(UnsupportedAction)
        else
          match Policy.FromByte(wire.action.newPolicy)
          case None => Err(InvalidAccountData)
          case Some(target) =>
            var threshold := ResultingThreshold(target, wire.action.threshold);
            var stored :- LoadVault(Get(w, vault.key).data);
            if Policy.FromByte(stored.policy).None? then Err(InvalidAccountData)
            else if Policy.FromByte(stored.policy) == Some(target) && stored.Threshold() == threshold
            then Err(InvalidAccountData)
            else
              var auth :- Authorized(host, w, ix.previous, vault.key, sysvar.key, wire, signature);
              var v := auth.vault.(nonce := auth.nextNonce, policy := target.AsByte()).WithThreshold(threshold);
              Ok(Patch(vault.key, Some(v), None, NO_PAYMENT, None))
  }

  // --------------------------------------------------------------- recovery

  function DecideRecover(host: Host, w: World, ix: Instruction, payload: seq<byte>): (r: Result<Patch>)
    ensures r.Ok? ==> Payable(w, r.value.payment)
  {
    var (wire, signature) :- SplitWire(payload);
    if !wire.action.RecoverAccount? then Err(UnsupportedAction)
    else if wire.action.op.RotateOwner? then DecideRecoverRotate(host, w, ix, wire, signature)
    else DecideRecoverToggle(host, w, ix, wire, signature)
  }

  function DecideRecoverToggle(
      host: Host, w: World, ix: Instruction, wire: Wire, signature: seq<byte>): (r: Result<Patch>)
    requires wire.action.RecoverAccount? && !wire.action.op.RotateOwner?
    ensures r.Ok? ==> Payable(w, r.value.payment)
  {
    if |ix.metas| != 2 then Err(MalformedInstructionData)
    else
      var vault, sysvar := ix.metas[0], ix.metas[1];
      if !vault.writable then Err(InvalidAccountData)
      else if wire.action.newEd25519 != ZERO_KEY then Err(InvalidAccountData)
      else
        var auth :- Authorized(host, w, ix.previous, vault.key, sysvar.key, wire, signature);
        var enable := wire.action.op.Enable?;
        if auth.vault.RecoveryEnabled() == enable then Err(InvalidAccountData)
        else Ok(Patch(vault.key, Some(auth.vault.(nonce := auth.nextNonce).WithRecovery(enable)), None, NO_PAYMENT,
                      None))
  }

  function DecideRecoverRotate(
      host: Host, w: World, ix: Instruction, wire: Wire, signature: seq<byte>): (r: Result<Patch>)
    requires wire.action.RecoverAccount? && wire.action.op.RotateOwner?
    ensures r.Ok? ==> Payable(w, r.value.payment)
  {
    if |ix.metas| != 3 then Err(MalformedInstructionData)
    else
      var vault, config, sysvar := ix.metas[0], ix.metas[1], ix.metas[2];
      if !vault.writable then Err(InvalidAccountData)
      else
        var stored :- LoadVault(Get(w, vault.key).data);
        if wire.action.newEd25519 == stored.owner || wire.action.newEd25519 == ZERO_KEY then Err(InvalidAccountData)
        else
          var auth :- Authorized(host, w, ix.previous, vault.key, sysvar.key, wire, signature);
          var cleared :- ClearPending(host, w, vault.key, config);
          var v := auth.vault.(nonce := auth.nextNonce, owner := wire.action.newEd25519);
          Ok(Patch(vault.key, Some(v), cleared, NO_PAYMENT, None))
  }

  // --------------------------------------------------------- social recovery

  function DecideSetRecoveryConfig(host: Host, w: World, ix: Instruction, payload: seq<byte>): (r: Result<Patch>)
    ensures r.Ok? ==> Payable(w, r.value.payment)
  {
    if |payload| != AUTH_PAYLOAD_LEN || |ix.metas| != 5 then Err(MalformedInstructionData)
    else
      var vault, config, payer, system, sysvar := ix.metas[0], ix.metas[1], ix.metas[2], ix.metas[3], ix.metas[4];
      if !vault.writable || !config.writable then Err(InvalidAccountData)
      else if !payer.signer then Err(MissingSigner)
      else if system.key != SYSTEM then Err(InvalidProgramAccount)
      else if Get(w, vault.key).owner != host.programId || |Get(w, vault.key).data| != ACCOUNT_LEN
      then Err(InvalidAccountData)
      else
        var bump :- VerifyAddress(ConfigAddress(host, vault.key), config.key);
        var (wire, signature) :- SplitWire(payload);
        if !wire.action.SetRecoveryConfig? then Err(UnsupportedAction)
        else if wire.action.guardian == ZERO_KEY then Err(InvalidAccountData)
        else if wire.action.delay < 1 then Err(InvalidAccountData)
        else
          var auth :- Authorized(host, w, ix.previous, vault.key, sysvar.key, wire, signature);
          var (written, charge) :- Configure(host, w, config, payer, bump, wire.action);
          Ok(Patch(vault.key, Some(auth.vault.(nonce := auth.nextNonce)), Some(ConfigWrite(config.key, written)),
                   Payment(payer.key, config.key, charge), None))
  }

  /** Create the configuration with nothing pending, or update guardian and delay
      of one that has nothing pending. */
  function Configure(
      host: Host, w: World, config: Meta, payer: Meta, bump: byte, action: Action): (r: Result<(Config, nat)>)
    requires action.SetRecoveryConfig?
    ensures r.Ok? ==> Payable(w, Payment(payer.key, config.key, r.value.1))
  {
    var a := Get(w, config.key);
    if a.data == [] then
      if !CanTransfer(w, payer, config, host.configRent) || !CanClaim(w, config) then Err(CalleeFailed)
      else Ok((NewConfig(bump, action.guardian, action.delay), host.configRent))
    else if a.owner != host.programId then Err(InvalidAccountData)
    else
      var c :- LoadConfig(a.data);
      if c.HasPending() then Err(InvalidAccountData)
      else Ok((c.(guardian := action.guardian, delay := action.delay), 0))
  }

  function Claim(host: Host, vault: Key, newOwner: Key, nonce: u64): GuardianClaim {
    GuardianClaim(host.chainDomain, host.programId, vault, newOwner, nonce)
  }

  function ClaimDigest(host: Host, vault: Key, newOwner: Key, nonce: u64): Key {
    host.sha(SocialPreimage(Claim(host, vault, newOwner, nonce)))
  }

  function DecideInitiate(host: Host, w: World, ix: Instruction, payload: seq<byte>): (r: Result<Patch>)
    ensures r.Ok? ==> Payable(w, r.value.payment)
  {
    if |payload| != 32 || |ix.metas| != 3 then Err(MalformedInstructionData)
    else
      var vault, config, sysvar := ix.metas[0], ix.metas[1], ix.metas[2];
      if !config.writable then Err(InvalidAccountData)
      else if Get(w, vault.key).owner != host.programId || Get(w, config.key).owner != host.programId
      then Err(InvalidAccountData)
      else
        var _ :- VerifyAddress(ConfigAddress(host, vault.key), config.key);
        var newOwner: Key := payload;
        if newOwner == ZERO_KEY then Err(InvalidAccountData)
        else
          var v :- LoadVault(Get(w, vault.key).data);
          if !v.RecoveryEnabled() then Err(InvalidAccountData)
          else if newOwner == v.owner then Err(InvalidAccountData)
          else
            var guardian :- GuardianFromSlice(Get(w, config.key).data);
            var _ :- Ed25519.Verify(host, sysvar.key, ix.previous, guardian,
                                    ClaimDigest(host, vault.key, newOwner, v.nonce));
            var c :- LoadConfig(Get(w, config.key).data);
            if c.HasPending() then Err(InvalidAccountData)
            else if w.slot + c.delay > U64_MAX then Err(MathOverflow)
            else
              var proposed := c.(pending := newOwner, ready := w.slot + c.delay);
              Ok(Patch(vault.key, None, Some(ConfigWrite(config.key, proposed)), NO_PAYMENT, None))
  }

  function DecideFinalize(host: Host, w: World, ix: Instruction, payload: seq<byte>): (r: Result<Patch>)
    ensures r.Ok? ==> Payable(w, r.value.payment)
  {
    if |payload| != 0 || |ix.metas| != 2 then Err(MalformedInstructionData)
    else
      var vault, config := ix.metas[0], ix.metas[1];
      if !vault.writable || !config.writable then Err(InvalidAccountData)
      else if Get(w, vault.key).owner != host.programId || Get(w, config.key).owner != host.programId
      then Err(InvalidAccountData)
      else
        var _ :- VerifyAddress(ConfigAddress(host, vault.key), config.key);
        var v :- LoadVault(Get(w, vault.key).data);
        if !v.RecoveryEnabled() then Err(InvalidAccountData)
        else
          var c :- LoadConfig(Get(w, config.key).data);
          if !c.HasPending() then Err(InvalidAccountData)
          else if w.slot < c.ready then Err(IntentExpired)
          else if v.nonce == U64_MAX then Err(MathOverflow)
          else Ok(Patch(vault.key, Some(v.(owner := c.pending, nonce := v.nonce + 1)),
                        Some(ConfigWrite(config.key, c.Cleared())), NO_PAYMENT, None))
  }

  function DecideCancel(host: Host, w: World, ix: Instruction, payload: seq<byte>): (r: Result<Patch>)
    ensures r.Ok? ==> Payable(w, r.value.payment)
  {
    if |payload| != AUTH_PAYLOAD_LEN || |ix.metas| != 3 then Err(MalformedInstructionData)
    else
      var vault, config, sysvar := ix.metas[0], ix.metas[1], ix.metas[2];
      if !vault.writable || !config.writable then Err(InvalidAccountData)
      else if Get(w, vault.key).owner != host.programId || Get(w, config.key).owner != host.programId
      then Err(InvalidAccountData)
      else
        var _ :- VerifyAddress(ConfigAddress(host, vault.key), config.key);
        var stored :- LoadVault(Get(w, vault.key).data);
        if !stored.RecoveryEnabled() then Err(InvalidAccountData)
        else
          var (wire, signature) :- SplitWire(payload);
          if !wire.action.CancelSocialRecovery? then Err(UnsupportedAction)
          else
            var auth :- Authorized(host, w, ix.previous, vault.key, sysvar.key, wire, signature);
            var c :- LoadConfig(Get(w, config.key).data);
            if !c.HasPending() then Err(InvalidAccountData)
            else Ok(Patch(vault.key, Some(auth.vault.(nonce := auth.nextNonce)),
                          Some(ConfigWrite(config.key, c.Cleared())), NO_PAYMENT, None))
  }

  // ---------------------------------------------------------------- dispatch

  /** `processor::process`. */
  function Decide(host: Host, w: World, ix: Instruction): (r: Result<Patch>)
    ensures r.Ok? ==> Payable(w, r.value.payment)
  {
    if ix.data == [] then Err(MalformedInstructionData)
    else
      var payload := ix.data[1..];
      match ix.data[0]
      case 0 => DecideInitialize(host, w, ix, payload)
      case 1 => DecideExecute(host, w, ix, payload)
      case 2 => DecideRotateEd25519(host, w, ix, payload)
      case 3 => DecideRotateFalcon(host, w, ix, payload)
      case 4 => DecideChangePolicy(host, w, ix, payload)
      case 5 => DecideRecover(host, w, ix, payload)
      case 6 => DecideSetRecoveryConfig(host, w, ix, payload)
      case 7 => DecideInitiate(host, w, ix, payload)
      case 8 => DecideFinalize(host, w, ix, payload)
      case 9 => DecideCancel(host, w, ix, payload)
      case _ => Err(MalformedInstructionData)
  }

  /** The world after an instruction: patched and purged when it succeeds, as it was
      when it fails. */
  function After(host: Host, w: World, ix: Instruction): World {
    var r := Decide(host, w, ix);
    if r.Ok? then Purge(Apply(host, w, r.value)) else w
  }
}
