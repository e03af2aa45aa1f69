/** The four social recovery handlers as they run. */
module SocialHandlers {
  import opened Prelude
  import opened Bytes
  import opened Intent
  import opened Codec
  import opened State
  import opened Recovery
  import opened Host
  import opened Authorize
  import opened Protocol
  import opened Writes
  import opened Bank
  import opened Handlers
  import Ed25519

  /** A vault and a configuration are never the same account: their lengths differ. */
  lemma ConfigIsNotVault(w: World, vault: Key, config: Key)
    requires |Get(w, vault).data| == ACCOUNT_LEN
    requires Get(w, config).data == [] || LoadConfig(Get(w, config).data).Ok?
    ensures vault != config
  {
    hide Get, ConfigOf;
  }

  /** `create_recovery_config_account` followed by `RecoveryConfig::initialize`. */
  method CreateConfig(
      bank: Bank, payer: Meta, config: Meta, bump: byte, guardian: Key, delay: u64) returns (r: Result<Unit>)
    modifies bank`accounts
    ensures var w := old(bank.W());
            var pay := Payment(payer.key, config.key, bank.host.configRent);
            && r == Require(CanTransfer(w, payer, config, bank.host.configRent) && CanClaim(w, config), CalleeFailed)
            && (r.Ok? ==>
                  Payable(w, pay)
                  && bank.W() == SetData(Move(w, pay), config.key, bank.host.programId,
                                         ConfigBytes(NewConfig(bump, guardian, delay))))
            && bank.W().slot == w.slot
  {
    hide ConfigBytes, Move, SetData, Write, Zeros, CanTransfer, Payable;
    ghost var w := bank.W();
    ghost var pay := Payment(payer.key, config.key, bank.host.configRent);
    var _ :- bank.SystemTransfer(payer, config, bank.host.configRent);
    MoveKeepsClaim(w, pay, config);
    var _ :- bank.Claim(config, CONFIG_LEN);
    SetDataAt(Move(w, pay), config.key, bank.host.programId, Zeros(CONFIG_LEN), config.key);
    r := bank.InitializeConfig(config.key, bump, guardian, delay);
    WriteAfterSet(Move(w, pay), config.key, bank.host.programId, Zeros(CONFIG_LEN),
                  ConfigBytes(NewConfig(bump, guardian, delay)));
  }

  method ConfigureHandler(bank: Bank, config: Meta, payer: Meta, bump: byte, action: Action, ghost vault: Key)
    returns (r: Result<Unit>)
    requires action.SetRecoveryConfig? && |Get(bank.W(), vault).data| == ACCOUNT_LEN
    modifies bank`accounts
    ensures var w := old(bank.W());
            var decided := Configure(bank.host, w, config, payer, bump, action);
            && (r.Ok? <==> decided.Ok?)
            && (r.Err? ==> r.error == decided.error)
            && bank.W().slot == w.slot
            && (r.Ok? ==>
                  && vault != config.key
                  && Get(bank.W(), vault).data == Get(w, vault).data
                  && bank.W() == Configured(bank.host, w, payer.key, config.key, decided.value))
  {
    hide ConfigBytes, ConfigOf, Move, SetData, Write, Get, CanTransfer, CanClaim, LoadConfig, Payable;
    ghost var w := bank.W();
    if Get(bank.W(), config.key).data == [] {
      r := CreateConfig(bank, payer, config, bump, action.guardian, action.delay);
      if r.Ok? {
        ConfigIsNotVault(w, vault, config.key);
        var pay := Payment(payer.key, config.key, bank.host.configRent);
        MoveAt(w, pay, vault);
        SetDataAt(Move(w, pay), config.key, bank.host.programId,
                  ConfigBytes(NewConfig(bump, action.guardian, action.delay)), vault);
      }
    } else {
      if Get(bank.W(), config.key).owner != bank.host.programId {
        return Err(InvalidAccountData);
      }
      r := bank.UpdateConfig(config.key, action.guardian, action.delay);
      if r.Ok? {
        var c := LoadConfig(Get(w, config.key).data).value.(guardian := action.guardian, delay := action.delay);
        ConfigIsNotVault(w, vault, config.key);
        WriteAt(w, config.key, ConfigBytes(c), vault);
        UpdatedConfig(bank.host, w, payer.key, config.key, c);
      }
    }
  }

  method SetRecoveryConfigHandler(bank: Bank, ix: Instruction, payload: seq<byte>) returns (r: Result<Unit>)
    modifies bank`accounts
    ensures Agrees(bank.host, old(bank.W()), DecideSetRecoveryConfig(bank.host, old(bank.W()), ix, payload), r,
                   bank.W())
  {
    hide Authorized, VaultOf, VaultBytes, Apply, Write, DecodeWire, Get, Configure, ConfigBytes, Configured,
         ConfigAddress, Payable;
    if |payload| != AUTH_PAYLOAD_LEN || |ix.metas| != 5 {
      return Err(MalformedInstructionData);
    }
    var vault, config, payer, system, sysvar := ix.metas[0], ix.metas[1], ix.metas[2], ix.metas[3], ix.metas[4];
    if !vault.writable || !config.writable {
      return Err(InvalidAccountData);
    }
    if !payer.signer {
      return Err(MissingSigner);
    }
    if system.key != SYSTEM {
      return Err(InvalidProgramAccount);
    }
    if Get(bank.W(), vault.key).owner != bank.host.programId || |Get(bank.W(), vault.key).data| != ACCOUNT_LEN {
      return Err(InvalidAccountData);
    }
    var bump :- VerifyAddress(ConfigAddress(bank.host, vault.key), config.key);
    var wire :- DecodeWire(payload[..49]);
    if !wire.action.SetRecoveryConfig? {
      return Err(UnsupportedAction);
    }
    if wire.action.guardian == ZERO_KEY {
      return Err(InvalidAccountData);
    }
    if wire.action.delay < 1 {
      return Err(InvalidAccountData);
    }
    var auth :- bank.Authorize(ix.previous, vault.key, sysvar.key, wire, payload[49..]);
    ghost var w := bank.W();
    AuthorizedVault(bank.host, w, ix.previous, vault.key, sysvar.key, wire, payload[49..]);
    var _ :- ConfigureHandler(bank, config, payer, bump, wire.action, vault.key);
    r := bank.BumpNonce(vault.key, auth.nextNonce);
    ConfiguredPatch(bank.host, w, DecideSetRecoveryConfig(bank.host, w, ix, payload).value);
  }

  method InitiateHandler(bank: Bank, ix: Instruction, payload: seq<byte>) returns (r: Result<Unit>)
    modifies bank`accounts
    ensures Agrees(bank.host, old(bank.W()), DecideInitiate(bank.host, old(bank.W()), ix, payload), r, bank.W())
  {
    hide VaultOf, VaultBytes, Apply, Write, Get, ConfigBytes, ConfigAddress, LoadConfig, Ed25519.Verify, SocialPreimage;
    if |payload| != 32 || |ix.metas| != 3 {
      return Err(MalformedInstructionData);
    }
    var vault, config, sysvar := ix.metas[0], ix.metas[1], ix.metas[2];
    if !config.writable {
      return Err(InvalidAccountData);
    }
    if Get(bank.W(), vault.key).owner != bank.host.programId || Get(bank.W(), config.key).owner != bank.host.programId {
      return Err(InvalidAccountData);
    }
    var _ :- VerifyAddress(ConfigAddress(bank.host, vault.key), config.key);
    var newOwner: Key := payload;
    if newOwner == ZERO_KEY {
      return Err(InvalidAccountData);
    }
    var account :- bank.BorrowVault(vault.key);
    if !account.RecoveryEnabled() {
      return Err(InvalidAccountData);
    }
    if newOwner == account.Owner() {
      return Err(InvalidAccountData);
    }
    var guardian :- GuardianFromSlice(Get(bank.W(), config.key).data);
    var preimage := GuardianPreimage(Claim(bank.host, vault.key, newOwner, account.Nonce()));
    var _ :- Ed25519.Verify(bank.host, sysvar.key, ix.previous, guardian, bank.host.sha(preimage[..]));
    ghost var w := bank.W();
    r := bank.Propose(config.key, newOwner);
    if r.Ok? {
      ApplyConfig(bank.host, w, DecideInitiate(bank.host, w, ix, payload).value);
    }
  }

  method FinalizeHandler(bank: Bank, ix: Instruction, payload: seq<byte>) returns (r: Result<Unit>)
    modifies bank`accounts
    ensures Agrees(bank.host, old(bank.W()), DecideFinalize(bank.host, old(bank.W()), ix, payload), r, bank.W())
  {
    hide VaultOf, VaultBytes, Apply, Write, Get, ConfigBytes, ConfigAddress, LoadConfig;
    if |payload| != 0 || |ix.metas| != 2 {
      return Err(MalformedInstructionData);
    }
    var vault, config := ix.metas[0], ix.metas[1];
    if !vault.writable || !config.writable {
      return Err(InvalidAccountData);
    }
    if Get(bank.W(), vault.key).owner != bank.host.programId || Get(bank.W(), config.key).owner != bank.host.programId {
      return Err(InvalidAccountData);
    }
    var _ :- VerifyAddress(ConfigAddress(bank.host, vault.key), config.key);
    var account :- bank.BorrowVault(vault.key);
    if !account.RecoveryEnabled() {
      return Err(InvalidAccountData);
    }
    ghost var w := bank.W();
    var pending :- bank.TakePending(config.key, true);
    ghost var c := LoadConfig(Get(w, config.key).data).value.Cleared();
    ConfigIsNotVault(w, vault.key, config.key);
    WriteAt(w, config.key, ConfigBytes(c), vault.key);
    WriteSlot(w, config.key, ConfigBytes(c));
    r := bank.InstallOwner(vault.key, pending);
    if r.Ok? {
      ApplyBothReversed(bank.host, w, DecideFinalize(bank.host, w, ix, payload).value);
    }
  }

  method CancelHandler(bank: Bank, ix: Instruction, payload: seq<byte>) returns (r: Result<Unit>)
    modifies bank`accounts
    ensures Agrees(bank.host, old(bank.W()), DecideCancel(bank.host, old(bank.W()), ix, payload), r, bank.W())
  {
    hide VaultOf, VaultBytes, Apply, Write, Get, ConfigBytes, ConfigAddress, LoadConfig, Authorized, DecodeWire;
    if |payload| != AUTH_PAYLOAD_LEN || |ix.metas| != 3 {
      return Err(MalformedInstructionData);
    }
    var vault, config, sysvar := ix.metas[0], ix.metas[1], ix.metas[2];
    if !vault.writable || !config.writable {
      return Err(InvalidAccountData);
    }
    if Get(bank.W(), vault.key).owner != bank.host.programId || Get(bank.W(), config.key).owner != bank.host.programId {
      return Err(InvalidAccountData);
    }
    var _ :- VerifyAddress(ConfigAddress(bank.host, vault.key), config.key);
    var account :- bank.BorrowVault(vault.key);
    if !account.RecoveryEnabled() {
      return Err(InvalidAccountData);
    }
    var wire :- DecodeWire(payload[..49]);
    if !wire.action.CancelSocialRecovery? {
      return Err(UnsupportedAction);
    }
    var auth :- bank.Authorize(ix.previous, vault.key, sysvar.key, wire, payload[49..]);
    ghost var w := bank.W();
    AuthorizedVault(bank.host, w, ix.previous, vault.key, sysvar.key, wire, payload[49..]);
    var _ :- bank.TakePending(config.key, false);
    ghost var c := LoadConfig(Get(w, config.key).data).value.Cleared();
    ConfigIsNotVault(w, vault.key, config.key);
    WriteAt(w, config.key, ConfigBytes(c), vault.key);
    r := bank.BumpNonce(vault.key, auth.nextNonce);
    ApplyBothReversed(bank.host, w, DecideCancel(bank.host, w, ix, payload).value);
  }
}
