/** The handlers as they run: checks interleaved with in-place writes, some of them
    before the last thing that can fail. */
module Handlers {
  import opened Prelude
  import opened Bytes
  import opened Intent
  import opened Codec
  import opened State
  import opened Host
  import opened Authorize
  import opened Protocol
  import opened Writes
  import opened Bank
  import SplToken
  import Ed25519

  /** A handler that returned `r` and left `after` did what was decided. A failed
      handler may leave anything behind. */
  ghost predicate Agrees(host: Host, w: World, decided: Result<Patch>, r: Result<Unit>, after: World) {
    && (r.Ok? <==> decided.Ok?)
    && (r.Err? ==> r.error == decided.error)
    && (r.Ok? ==> Payable(w, decided.value.payment) && after == Apply(host, w, decided.value))
    && after.slot == w.slot
  }

  lemma AuthorizedVault(
      host: Host, w: World, previous: Preceding, vault: Key, sysvar: Key, wire: Wire, signature: seq<byte>)
    requires Authorized(host, w, previous, vault, sysvar, wire, signature).Ok?
    ensures var auth := Authorized(host, w, previous, vault, sysvar, wire, signature).value;
            && Get(w, vault).owner == host.programId && |Get(w, vault).data| == ACCOUNT_LEN
            && auth.vault == VaultOf(Get(w, vault).data)
  {
    hide VaultOf, Get, Digest, Ed25519.Verify, VerifyPrepared, EffectiveRequirement, Judge;
  }

  // -------------------------------------------------------------- initialize

  /** `create_pda_account`: tops the address up to the rent minimum, then claims it. */
  method CreateVaultAccount(bank: Bank, creator: Meta, vault: Meta) returns (r: Result<Unit>)
    modifies bank`accounts
    ensures var w := old(bank.W());
            var shortfall := Shortfall(bank.host, w, vault.key);
            var pay := Payment(creator.key, vault.key, shortfall);
            && r == Require((shortfall == 0 || CanTransfer(w, creator, vault, shortfall)) && CanClaim(w, vault),
                            CalleeFailed)
            && (r.Ok? ==>
                  Payable(w, pay)
                  && bank.W() == SetData(Move(w, pay), vault.key, bank.host.programId, Zeros(ACCOUNT_LEN)))
            && bank.W().slot == w.slot
  {
    hide SetData, Zeros, Get, CanTransfer, CanClaim;
    ghost var w := bank.W();
    var required, held := bank.host.vaultRent, Get(bank.W(), vault.key).lamports;
    var shortfall := if held >= required then 0 else required - held;
    ghost var pay := Payment(creator.key, vault.key, shortfall);
    if shortfall > 0 {
      var _ :- bank.SystemTransfer(creator, vault, shortfall);
    }
    MoveKeepsClaim(w, pay, vault);
    r := bank.Claim(vault, ACCOUNT_LEN);
  }

  method InitializeHandler(bank: Bank, ix: Instruction, payload: seq<byte>) returns (r: Result<Unit>)
    modifies bank`accounts
    ensures Agrees(bank.host, old(bank.W()), DecideInitialize(bank.host, old(bank.W()), ix, payload), r, bank.W())
  {
    hide ParseInitialize, VaultAddress, VaultBytes, SetData, Zeros, Get, CanTransfer, CanClaim, Move, Write, NewVault,
         Payable, Shortfall;
    var args :- ParseInitialize(payload);
    if |ix.metas| != 3 {
      return Err(MalformedInstructionData);
    }
    var creator, vault, system := ix.metas[0], ix.metas[1], ix.metas[2];
    if !creator.signer {
      return Err(MissingSigner);
    }
    if system.key != SYSTEM {
      return Err(InvalidProgramAccount);
    }
    var bump :- VerifyAddress(VaultAddress(bank.host, creator.key, args.index), vault.key);
    if Get(bank.W(), vault.key).data != [] {
      return Err(AccountAlreadyInitialized);
    }
    ghost var w := bank.W();
    ghost var pay := Payment(creator.key, vault.key, Shortfall(bank.host, w, vault.key));
    var _ :- CreateVaultAccount(bank, creator, vault);
    ghost var z := Move(w, pay);
    SetDataAt(z, vault.key, bank.host.programId, Zeros(ACCOUNT_LEN), vault.key);
    r := bank.InitializeVault(vault.key, bump, args.index, args.owner, args.policy, args.wireKey);
    InitializedWorld(bank.host, w, pay, NewVault(bump, args.index, args.owner, bank.host.sha(args.wireKey), args.policy,
                                                 if r.Ok? then bank.host.prepare(args.wireKey).value
                                                 else Zeros(PREPARED_LEN)));
  }

  // ----------------------------------------------------------------- execute

  method TransferSolHandler(bank: Bank, ix: Instruction, wire: Wire, signature: seq<byte>) returns (r: Result<Unit>)
    requires wire.action.TransferSol?
    modifies bank`accounts
    ensures Agrees(bank.host, old(bank.W()), DecideTransferSol(bank.host, old(bank.W()), ix, wire, signature), r,
                   bank.W())
  {
    hide Authorized, VaultOf, VaultBytes, Apply, Move, Write;
    if |ix.metas| != 3 {
      return Err(MalformedInstructionData);
    }
    var vault, recipient, sysvar := ix.metas[0], ix.metas[1], ix.metas[2];
    if !vault.writable || !recipient.writable {
      return Err(InvalidAccountData);
    }
    if recipient.key != wire.action.recipient {
      return Err(InvalidAccountData);
    }
    if recipient.key == vault.key {
      return Err(InvalidAccountData);
    }
    var auth :- bank.Authorize(ix.previous, vault.key, sysvar.key, wire, signature);
    ghost var w := bank.W();
    AuthorizedVault(bank.host, w, ix.previous, vault.key, sysvar.key, wire, signature);
    var bumped := bank.BumpNonce(vault.key, auth.nextNonce);
    WriteAt(w, vault.key, VaultBytes(auth.vault.(nonce := auth.nextNonce)), vault.key);
    WriteAt(w, vault.key, VaultBytes(auth.vault.(nonce := auth.nextNonce)), recipient.key);
    r := bank.TransferSol(vault.key, recipient.key, wire.action.lamports);
    if r.Ok? {
      ApplyPaid(bank.host, w, DecideTransferSol(bank.host, w, ix, wire, signature).value);
    }
  }

  /** The three account checks of `transfer_spl`. */
  method CheckTokenAccounts(bank: Bank, vault: Key, source: Key, mint: Key, destination: Key, amount: u64)
    returns (r: Result<Unit>)
    ensures r == TokenAccountsFit(bank.W(), vault, source, mint, destination, amount)
  {
    hide SplToken.NoTransferHook, Get;
    var mintData := Get(bank.W(), mint).data;
    if |mintData| < SplToken.MINT_LEN {
      return Err(InvalidAccountData);
    }
    var mintHook := SplToken.RejectIfTransferHook(mintData, SplToken.MINT_LEN);
    var _ :- mintHook;
    var sourceData := Get(bank.W(), source).data;
    if |sourceData| < SplToken.TOKEN_ACCOUNT_LEN {
      return Err(InvalidAccountData);
    }
    var sourceHook := SplToken.RejectIfTransferHook(sourceData, SplToken.TOKEN_ACCOUNT_LEN);
    var _ :- sourceHook;
    if sourceData[0..32] != mint {
      return Err(InvalidAccountData);
    }
    if sourceData[32..64] != vault {
      return Err(InvalidAccountData);
    }
    if U64Of(sourceData[64..72]) < amount {
      return Err(InsufficientFunds);
    }
    var destinationData := Get(bank.W(), destination).data;
    if |destinationData| < SplToken.TOKEN_ACCOUNT_LEN {
      return Err(InvalidAccountData);
    }
    var destinationHook := SplToken.RejectIfTransferHook(destinationData, SplToken.TOKEN_ACCOUNT_LEN);
    var _ :- destinationHook;
    if destinationData[0..32] != mint {
      return Err(InvalidAccountData);
    }
    return Ok(Done);
  }

  lemma FitMeansMint(w: World, vault: Key, source: Key, mint: Key, destination: Key, amount: u64)
    requires TokenAccountsFit(w, vault, source, mint, destination, amount).Ok?
    ensures |Get(w, mint).data| >= SplToken.MINT_LEN
  {
  }

  /** `transfer_spl`; bump and index are read from the vault's data. */
  method TransferSpl(
      bank: Bank, vault: Key, creator: Meta, source: Meta, mint: Meta, destination: Meta, program: Meta,
      amount: u64, wanted: Key)
    returns (r: Result<Unit>)
    modifies bank`accounts
    ensures var w := old(bank.W());
            var decided := DecideTokens(bank.host, w, vault, creator, source, mint, destination, program, wanted,
                                        amount);
            && (r.Ok? <==> decided.Ok?)
            && (r.Err? ==> r.error == decided.error && bank.W() == w)
            && (r.Ok? ==> bank.W() == TokensApplied(w, decided.value))
  {
    hide TokenAccountsFit, CallToken, VaultOf, TokenMoved, Get, SignerSeeds;
    if destination.key != wanted {
      return Err(InvalidAccountData);
    }
    if source.key == destination.key {
      return Err(InvalidAccountData);
    }
    if program.key != bank.host.tokenProgram && program.key != bank.host.token2022Program {
      return Err(InvalidProgramAccount);
    }
    if Get(bank.W(), source.key).owner != program.key || Get(bank.W(), destination.key).owner != program.key
       || Get(bank.W(), mint.key).owner != program.key {
      return Err(InvalidAccountData);
    }
    if !source.writable || !destination.writable {
      return Err(InvalidAccountData);
    }
    if |Get(bank.W(), vault).data| < 2 {
      return Err(Panicked);
    }
    var account :- bank.BorrowVault(vault);
    if bank.host.create(SignerSeeds(creator.key, account.AccountIndex(), account.Bump())) != Some(vault) {
      return Err(InvalidPda);
    }
    var _ :- CheckTokenAccounts(bank, vault, source.key, mint.key, destination.key, amount);
    FitMeansMint(bank.W(), vault, source.key, mint.key, destination.key, amount);
    if amount == 0 {
      return Ok(Done);
    }
    r := bank.TokenTransferChecked(program.key, source.key, mint.key, destination.key, vault, amount);
  }

  /** Writing the vault's nonce changes nothing that the token checks read. */
  lemma TokensAfterWrite(
      host: Host, w: World, vault: Key, v: Vault, u: Vault, creator: Meta, source: Meta, mint: Meta, destination: Meta,
      program: Meta, wanted: Key, amount: u64)
    requires host.programId != host.tokenProgram && host.programId != host.token2022Program
    requires Get(w, vault).owner == host.programId && LoadVault(Get(w, vault).data) == Ok(v)
    requires u.index == v.index && u.bump == v.bump
    ensures DecideTokens(host, WriteVault(w, vault, u), vault, creator, source, mint, destination, program, wanted,
                         amount)
            == DecideTokens(host, w, vault, creator, source, mint, destination, program, wanted, amount)
  {
    hide VaultBytes, VaultOf, Get, Write, TokenAccountsFit, CallToken, SignerSeeds;
    VaultRoundTrip(u);
    WriteAt(w, vault, VaultBytes(u), vault);
    var z := WriteVault(w, vault, u);
    WriteAt(w, vault, VaultBytes(u), source.key);
    WriteAt(w, vault, VaultBytes(u), mint.key);
    WriteAt(w, vault, VaultBytes(u), destination.key);
    if source.key != vault && mint.key != vault && destination.key != vault {
      SameTokenAccounts(host, w, z, vault, source.key, mint.key, destination.key, program.key, amount);
    }
  }

  lemma SameTokenAccounts(
      host: Host, w: World, z: World, vault: Key, source: Key, mint: Key, destination: Key, program: Key, amount: u64)
    requires Get(z, source) == Get(w, source) && Get(z, mint) == Get(w, mint)
             && Get(z, destination) == Get(w, destination)
    ensures TokenAccountsFit(z, vault, source, mint, destination, amount)
            == TokenAccountsFit(w, vault, source, mint, destination, amount)
    ensures TokenAccountsFit(w, vault, source, mint, destination, amount).Ok? ==>
              && |Get(w, mint).data| >= SplToken.MINT_LEN
              && CallToken(host, z, program, source, mint, destination, vault, amount)
                 == CallToken(host, w, program, source, mint, destination, vault, amount)
  {
    hide Get, SplToken.NoTransferHook;
  }

  lemma TokensDecided(
      host: Host, w: World, vault: Key, creator: Meta, source: Meta, mint: Meta, destination: Meta, program: Meta,
      wanted: Key, amount: u64)
    ensures var decided := DecideTokens(host, w, vault, creator, source, mint, destination, program, wanted, amount);
            decided.Ok? && decided.value.1.None? ==> decided.value.0 == NO_PAYMENT
  {
    hide TokenAccountsFit, CallToken, Get, SignerSeeds, LoadSigner;
  }

  method TransferSplHandler(bank: Bank, ix: Instruction, wire: Wire, signature: seq<byte>) returns (r: Result<Unit>)
    requires wire.action.TransferSpl?
    requires bank.host.programId != bank.host.tokenProgram && bank.host.programId != bank.host.token2022Program
    modifies bank`accounts
    ensures Agrees(bank.host, old(bank.W()), DecideTransferSpl(bank.host, old(bank.W()), ix, wire, signature), r,
                   bank.W())
  {
    hide Authorized, VaultOf, VaultBytes, Apply, Move, Write, DecideTokens, Get, Payable;
    if |ix.metas| != 7 {
      return Err(MalformedInstructionData);
    }
    var vault, sysvar := ix.metas[0], ix.metas[6];
    if !vault.writable {
      return Err(InvalidAccountData);
    }
    var auth :- bank.Authorize(ix.previous, vault.key, sysvar.key, wire, signature);
    ghost var w := bank.W();
    AuthorizedVault(bank.host, w, ix.previous, vault.key, sysvar.key, wire, signature);
    var bumped := bank.BumpNonce(vault.key, auth.nextNonce);
    ghost var v := auth.vault.(nonce := auth.nextNonce);
    TokensAfterWrite(bank.host, w, vault.key, auth.vault, v, ix.metas[1], ix.metas[2], ix.metas[3], ix.metas[4],
                     ix.metas[5], wire.action.destination, wire.action.amount);
    r := TransferSpl(bank, vault.key, ix.metas[1], ix.metas[2], ix.metas[3], ix.metas[4], ix.metas[5],
                     wire.action.amount, wire.action.destination);
    if r.Ok? {
      TokensDecided(bank.host, w, vault.key, ix.metas[1], ix.metas[2], ix.metas[3], ix.metas[4], ix.metas[5],
                    wire.action.destination, wire.action.amount);
      ApplyTokens(bank.host, w, DecideTransferSpl(bank.host, w, ix, wire, signature).value);
    }
  }

  method ExecuteHandler(bank: Bank, ix: Instruction, payload: seq<byte>) returns (r: Result<Unit>)
    requires bank.host.programId != bank.host.tokenProgram && bank.host.programId != bank.host.token2022Program
    modifies bank`accounts
    ensures Agrees(bank.host, old(bank.W()), DecideExecute(bank.host, old(bank.W()), ix, payload), r, bank.W())
  {
    hide DecodeWire, DecideTransferSol, DecideTransferSpl, Apply, Payable;
    if |payload| != AUTH_PAYLOAD_LEN {
      return Err(MalformedInstructionData);
    }
    var wire :- DecodeWire(payload[..49]);
    match wire.action {
      case TransferSol(_, _) => r := TransferSolHandler(bank, ix, wire, payload[49..]);
      case TransferSpl(_, _) => r := TransferSplHandler(bank, ix, wire, payload[49..]);
      case _ => r := Err(UnsupportedAction);
    }
  }

  // -------------------------------------------------- keys, policy, recovery

  method RotateEd25519Handler(bank: Bank, ix: Instruction, payload: seq<byte>) returns (r: Result<Unit>)
    modifies bank`accounts
    ensures Agrees(bank.host, old(bank.W()), DecideRotateEd25519(bank.host, old(bank.W()), ix, payload), r, bank.W())
  {
    hide Authorized, VaultOf, VaultBytes, Apply, Write, ClearPending, DecodeWire;
    if |payload| != AUTH_PAYLOAD_LEN || |ix.metas| != 3 {
      return Err(MalformedInstructionData);
    }
    var vault, config, sysvar := ix.metas[0], ix.metas[1], ix.metas[2];
    if !vault.writable {
      return Err(InvalidAccountData);
    }
    var wire :- DecodeWire(payload[..49]);
    if !wire.action.RotateEd25519Key? {
      return Err(UnsupportedAction);
    }
    var account :- bank.BorrowVault(vault.key);
    if wire.action.newOwner == account.Owner() {
      return Err(InvalidAccountData);
    }
    var auth :- bank.Authorize(ix.previous, vault.key, sysvar.key, wire, payload[49..]);
    ghost var w := bank.W();
    AuthorizedVault(bank.host, w, ix.previous, vault.key, sysvar.key, wire, payload[49..]);
    var applied := bank.ApplyEd25519Rotation(vault.key, wire.action.newOwner, auth.nextNonce);
    ClearAfterWrite(bank.host, w, vault.key, auth.vault.(nonce := auth.nextNonce, owner := wire.action.newOwner),
                    config);
    r := bank.ClearPendingAfterOwnerChange(vault.key, config);
    if r.Ok? {
      ClearedPatch(bank.host, w, vault.key, auth.vault.(nonce := auth.nextNonce, owner := wire.action.newOwner),
                   config);
    }
  }

  method RotateFalconHandler(bank: Bank, ix: Instruction, payload: seq<byte>) returns (r: Result<Unit>)
    modifies bank`accounts
    ensures Agrees(bank.host, old(bank.W()), DecideRotateFalcon(bank.host, old(bank.W()), ix, payload), r, bank.W())
  {
    hide Authorized, VaultOf, VaultBytes, Apply, Write, DecodeWire, VerifyRaw, Get;
    if |payload| != ROTATE_FALCON_PAYLOAD_LEN || |ix.metas| != 2 {
      return Err(MalformedInstructionData);
    }
    var vault, sysvar := ix.metas[0], ix.metas[1];
    if !vault.writable {
      return Err(InvalidAccountData);
    }
    var signature, wireKey, possession := payload[49..715], payload[715..1612], payload[1612..];
    var wire :- DecodeWire(payload[..49]);
    if !wire.action.RotateFalconKey? {
      return Err(UnsupportedAction);
    }
    if bank.host.sha(wireKey) != wire.action.newHash {
      return Err(DigestMismatch);
    }
    var account :- bank.BorrowVault(vault.key);
    if wire.action.newHash == account.FalconHash() {
      return Err(InvalidAccountData);
    }
    var auth :- bank.Authorize(ix.previous, vault.key, sysvar.key, wire, signature);
    ghost var w := bank.W();
    AuthorizedVault(bank.host, w, ix.previous, vault.key, sysvar.key, wire, signature);
    var _ :- VerifyRaw(bank.host, wireKey, auth.digest, possession);
    r := bank.ApplyFalconRotation(vault.key, wireKey, wire.action.newHash, auth.nextNonce);
    if r.Ok? {
      ApplyRecord(bank.host, w, DecideRotateFalcon(bank.host, w, ix, payload).value);
    }
  }

  method ChangePolicyHandler(bank: Bank, ix: Instruction, payload: seq<byte>) returns (r: Result<Unit>)
    modifies bank`accounts
    ensures Agrees(bank.host, old(bank.W()), DecideChangePolicy(bank.host, old(bank.W()), ix, payload), r, bank.W())
  {
    hide Authorized, VaultOf, VaultBytes, Apply, Write, DecodeWire, Get, Policy.FromByte;
    if |payload| != AUTH_PAYLOAD_LEN || |ix.metas| != 2 {
      return Err(MalformedInstructionData);
    }
    var vault, sysvar := ix.metas[0], ix.metas[1];
    if !vault.writable {
      return Err(InvalidAccountData);
    }
    var wire :- DecodeWire(payload[..49]);
    if !wire.action.ChangePolicy? {
      return Err(UnsupportedAction);
    }
    var target := Policy.FromByte(wire.action.newPolicy);
    if target.None? {
      return Err(InvalidAccountData);
    }
    var threshold := ResultingThreshold(target.value, wire.action.threshold);
    var account :- bank.BorrowVault(vault.key);
    if account.GetPolicy().None? {
      return Err(InvalidAccountData);
    }
    if account.GetPolicy() == target && account.FalconRequiredAbove() == threshold {
      return Err(InvalidAccountData);
    }
    var auth :- bank.Authorize(ix.previous, vault.key, sysvar.key, wire, payload[49..]);
    ghost var w := bank.W();
    AuthorizedVault(bank.host, w, ix.previous, vault.key, sysvar.key, wire, payload[49..]);
    r := bank.ApplyPolicyChange(vault.key, target.value, threshold, auth.nextNonce);
    ApplyRecord(bank.host, w, DecideChangePolicy(bank.host, w, ix, payload).value);
  }

  method RecoverToggleHandler(bank: Bank, ix: Instruction, wire: Wire, signature: seq<byte>) returns (r: Result<Unit>)
    requires wire.action.RecoverAccount? && !wire.action.op.RotateOwner?
    modifies bank`accounts
    ensures Agrees(bank.host, old(bank.W()), DecideRecoverToggle(bank.host, old(bank.W()), ix, wire, signature), r,
                   bank.W())
  {
    hide Authorized, VaultOf, VaultBytes, Apply, Write, Get;
    if |ix.metas| != 2 {
      return Err(MalformedInstructionData);
    }
    var vault, sysvar := ix.metas[0], ix.metas[1];
    if !vault.writable {
      return Err(InvalidAccountData);
    }
    if wire.action.newEd25519 != ZERO_KEY {
      return Err(InvalidAccountData);
    }
    var auth :- bank.Authorize(ix.previous, vault.key, sysvar.key, wire, signature);
    ghost var w := bank.W();
    AuthorizedVault(bank.host, w, ix.previous, vault.key, sysvar.key, wire, signature);
    r := bank.ApplyRecovery(vault.key, wire.action.op, wire.action.newEd25519, auth.nextNonce);
    if r.Ok? {
      ApplyRecord(bank.host, w, DecideRecoverToggle(bank.host, w, ix, wire, signature).value);
    } else {
      WriteSlot(w, vault.key, VaultBytes(auth.vault.(nonce := auth.nextNonce)));
    }
  }

  method RecoverRotateHandler(bank: Bank, ix: Instruction, wire: Wire, signature: seq<byte>) returns (r: Result<Unit>)
    requires wire.action.RecoverAccount? && wire.action.op.RotateOwner?
    modifies bank`accounts
    ensures Agrees(bank.host, old(bank.W()), DecideRecoverRotate(bank.host, old(bank.W()), ix, wire, signature), r,
                   bank.W())
  {
    hide Authorized, VaultOf, VaultBytes, Apply, Write, ClearPending;
    if |ix.metas| != 3 {
      return Err(MalformedInstructionData);
    }
    var vault, config, sysvar := ix.metas[0], ix.metas[1], ix.metas[2];
    if !vault.writable {
      return Err(InvalidAccountData);
    }
    var account :- bank.BorrowVault(vault.key);
    if wire.action.newEd25519 == account.Owner() || wire.action.newEd25519 == ZERO_KEY {
      return Err(InvalidAccountData);
    }
    var auth :- bank.Authorize(ix.previous, vault.key, sysvar.key, wire, signature);
    ghost var w := bank.W();
    AuthorizedVault(bank.host, w, ix.previous, vault.key, sysvar.key, wire, signature);
    var applied := bank.ApplyRecovery(vault.key, wire.action.op, wire.action.newEd25519, auth.nextNonce);
    ClearAfterWrite(bank.host, w, vault.key, auth.vault.(nonce := auth.nextNonce, owner := wire.action.newEd25519),
                    config);
    r := bank.ClearPendingAfterOwnerChange(vault.key, config);
    if r.Ok? {
      ClearedPatch(bank.host, w, vault.key, auth.vault.(nonce := auth.nextNonce, owner := wire.action.newEd25519),
                   config);
    }
  }

  method RecoverHandler(bank: Bank, ix: Instruction, payload: seq<byte>) returns (r: Result<Unit>)
    modifies bank`accounts
    ensures Agrees(bank.host, old(bank.W()), DecideRecover(bank.host, old(bank.W()), ix, payload), r, bank.W())
  {
    hide DecodeWire, DecideRecoverToggle, DecideRecoverRotate, Apply, Payable;
    if |payload| != AUTH_PAYLOAD_LEN {
      return Err(MalformedInstructionData);
    }
    var wire :- DecodeWire(payload[..49]);
    if !wire.action.RecoverAccount? {
      return Err(UnsupportedAction);
    }
    if wire.action.op.RotateOwner? {
      r := RecoverRotateHandler(bank, ix, wire, payload[49..]);
    } else {
      r := RecoverToggleHandler(bank, ix, wire, payload[49..]);
    }
  }
}
