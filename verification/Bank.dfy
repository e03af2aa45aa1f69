/** The mutable side: accounts that change in place, and the writes the handlers
    make to them, in the handlers' own order. */
module Bank {
  import opened Prelude
  import opened Bytes
  import opened Intent
  import opened Codec
  import opened State
  import opened Recovery
  import opened Host
  import opened Authorize
  import opened Protocol
  import opened Writes
  import Ed25519
  import SplToken

  class Bank {
    const host: Host
    var accounts: map<Key, Account>
    var slot: u64

    constructor (host: Host, w: World)
      ensures this.host == host && W() == w
    {
      this.host := host;
      accounts := w.accounts;
      slot := w.slot;
    }

    /** The world as it stands. */
    function W(): World
      reads this
    {
      World(accounts, slot)
    }

    // ---------------------------------------------------------- borrowing

    /** A mutable borrow of an account's data; `Release` ends it. */
    method Borrow(k: Key) returns (data: array<byte>)
      ensures fresh(data) && data[..] == Get(W(), k).data
    {
      var bytes := Get(W(), k).data;
      data := new byte[|bytes|](i requires 0 <= i < |bytes| => bytes[i]);
    }

    method Release(k: Key, data: array<byte>)
      modifies this`accounts
      ensures W() == Write(old(W()), k, data[..])
    {
      accounts := accounts[k := Get(W(), k).(data := data[..])];
    }

    /** Borrowing an account as a vault. */
    method BorrowVault(k: Key) returns (r: Result<HybridAccount>)
      ensures r.Ok? <==> |Get(W(), k).data| == ACCOUNT_LEN
      ensures r.Err? ==> r.error == InvalidAccountData
      ensures r.Ok? ==> fresh(r.value) && fresh(r.value.data) && r.value.Valid()
      ensures r.Ok? ==> r.value.View() == VaultOf(Get(W(), k).data)
    {
      hide VaultOf;
      var data := Borrow(k);
      r := HybridAccount.TryFromBytes(data);
    }

    method ReleaseVault(k: Key, account: HybridAccount)
      requires account.Valid()
      modifies this`accounts
      ensures W() == WriteVault(old(W()), k, account.View())
    {
      hide VaultOf, VaultBytes;
      State.BytesRoundTrip(account.data[..]);
      Release(k, account.data);
    }

    /** Borrowing an account as a recovery configuration. */
    method BorrowConfig(k: Key) returns (r: Result<RecoveryConfig>)
      ensures r.Ok? <==> LoadConfig(Get(W(), k).data).Ok?
      ensures r.Err? ==> r.error == LoadConfig(Get(W(), k).data).error
      ensures r.Ok? ==> fresh(r.value) && fresh(r.value.data) && r.value.Valid()
      ensures r.Ok? ==> r.value.View() == LoadConfig(Get(W(), k).data).value
    {
      hide ConfigOf;
      var data := Borrow(k);
      assert data.Length > 0 ==> data[0] == data[..][0];
      r := RecoveryConfig.TryFromBytes(data);
    }

    method ReleaseConfig(k: Key, config: RecoveryConfig)
      requires config.Valid()
      modifies this`accounts
      ensures W() == WriteConfig(old(W()), k, config.View())
    {
      hide ConfigOf, ConfigBytes;
      Recovery.BytesRoundTrip(config.data[..]);
      Release(k, config.data);
    }

    // ------------------------------------------------------ authorization

    /** `reconstruct_and_digest`: the digest and the nonce it covers. */
    method ReconstructAndDigest(vault: Key, wire: Wire) returns (r: Result<(Key, u64)>)
      ensures r == if Get(W(), vault).owner != host.programId then Err(InvalidAccountData)
                   else if |Get(W(), vault).data| != ACCOUNT_LEN then Err(InvalidAccountData)
                   else
                     var v := VaultOf(Get(W(), vault).data);
                     if v.version != ACCOUNT_VERSION then Err(UnsupportedVersion)
                     else Ok((Digest(host, vault, v.nonce, wire), v.nonce))
    {
      hide VaultOf, Preimage;
      if Get(W(), vault).owner != host.programId {
        return Err(InvalidAccountData);
      }
      var account :- BorrowVault(vault);
      if account.Version() != ACCOUNT_VERSION {
        return Err(UnsupportedVersion);
      }
      var nonce := account.Nonce();
      var preimage := CanonicalPreimage(IntentAt(host, vault, nonce, wire));
      return Ok((host.sha(preimage[..]), nonce));
    }

    /** `authorize`. */
    method Authorize(previous: Preceding, vault: Key, sysvar: Key, wire: Wire, signature: seq<byte>)
      returns (r: Result<Authorization>)
      ensures r == Authorized(host, W(), previous, vault, sysvar, wire, signature)
    {
      hide VaultOf, Digest, Ed25519.Verify, VerifyPrepared, EffectiveRequirement, Judge, Get;
      if |signature| != FALCON_SIGNATURE_LEN {
        return Err(MalformedInstructionData);
      }
      if slot > wire.expirySlot {
        return Err(IntentExpired);
      }
      var rebuilt :- ReconstructAndDigest(vault, wire);
      var (digest, nonce) := rebuilt;
      var borrowed := BorrowVault(vault);
      var account := borrowed.value;
      var policy := account.GetPolicy();
      if policy.None? {
        return Err(InvalidAccountData);
      }
      if nonce == U64_MAX {
        return Err(MathOverflow);
      }
      var req :- EffectiveRequirement(policy.value, account.FalconRequiredAbove(), account.RecoveryEnabled(),
                                      wire.action);
      var _ :- CollectAndEvaluate(host, req, sysvar, previous, account.Owner(), account.PreparedKey(), digest,
                                  signature);
      return Ok(Authorization(digest, VaultOf(Get(W(), vault).data), nonce + 1));
    }

    // ------------------------------------------------------- vault writes

    method BumpNonce(vault: Key, next: u64) returns (r: Result<Unit>)
      modifies this`accounts
      ensures r == Require(|Get(old(W()), vault).data| == ACCOUNT_LEN, InvalidAccountData)
      ensures r.Err? ==> W() == old(W())
      ensures r.Ok? ==> W() == WriteVault(old(W()), vault, VaultOf(Get(old(W()), vault).data).(nonce := next))
    {
      hide VaultOf, VaultBytes, Get;
      var account :- BorrowVault(vault);
      account.SetNonce(next);
      ReleaseVault(vault, account);
      return Ok(Done);
    }

    method ApplyEd25519Rotation(vault: Key, newOwner: Key, next: u64) returns (r: Result<Unit>)
      modifies this`accounts
      ensures r == Require(|Get(old(W()), vault).data| == ACCOUNT_LEN, InvalidAccountData)
      ensures r.Err? ==> W() == old(W())
      ensures r.Ok? ==>
                W() == WriteVault(old(W()), vault,
                                  VaultOf(Get(old(W()), vault).data).(nonce := next, owner := newOwner))
    {
      hide VaultOf, VaultBytes, Get;
      var account :- BorrowVault(vault);
      account.SetNonce(next);
      account.SetOwner(newOwner);
      ReleaseVault(vault, account);
      return Ok(Done);
    }

    /** Prepares the new key before anything is written. */
    method ApplyFalconRotation(vault: Key, wireKey: seq<byte>, newHash: Key, next: u64) returns (r: Result<Unit>)
      modifies this`accounts
      ensures r == if host.prepare(wireKey).None? then Err(MalformedFalcon)
                   else Require(|Get(old(W()), vault).data| == ACCOUNT_LEN, InvalidAccountData)
      ensures r.Err? ==> W() == old(W())
      ensures r.Ok? ==>
                W() == WriteVault(old(W()), vault,
                                  VaultOf(Get(old(W()), vault).data).(nonce := next, falconHash := newHash,
                                                                      prepared := host.prepare(wireKey).value))
    {
      hide VaultOf, VaultBytes, Get;
      var prepared := host.prepare(wireKey);
      if prepared.None? {
        return Err(MalformedFalcon);
      }
      var account :- BorrowVault(vault);
      account.SetNonce(next);
      account.SetFalconHash(newHash);
      account.StorePreparedKey(prepared.value);
      ReleaseVault(vault, account);
      return Ok(Done);
    }

    method ApplyPolicyChange(vault: Key, target: Policy, threshold: Option<u64>, next: u64) returns (r: Result<Unit>)
      modifies this`accounts
      ensures r == Require(|Get(old(W()), vault).data| == ACCOUNT_LEN, InvalidAccountData)
      ensures r.Err? ==> W() == old(W())
      ensures r.Ok? ==>
                W() == WriteVault(old(W()), vault,
                                  VaultOf(Get(old(W()), vault).data).(nonce := next, policy := target.AsByte())
                                  .WithThreshold(threshold))
    {
      hide VaultOf, VaultBytes, Get;
      var account :- BorrowVault(vault);
      account.SetNonce(next);
      account.SetPolicy(target);
      account.SetFalconRequiredAbove(threshold);
      ReleaseVault(vault, account);
      return Ok(Done);
    }

    /** The nonce is written first, so a refused toggle fails with the nonce moved;
        the runtime is what undoes it. */
    method ApplyRecovery(vault: Key, op: RecoveryOp, newOwner: Key, next: u64) returns (r: Result<Unit>)
      modifies this`accounts
      ensures |Get(old(W()), vault).data| != ACCOUNT_LEN ==> r == Err(InvalidAccountData) && W() == old(W())
      ensures |Get(old(W()), vault).data| == ACCOUNT_LEN ==>
              var v := VaultOf(Get(old(W()), vault).data);
              && r == Require(op.RotateOwner? || v.RecoveryEnabled() != op.Enable?, InvalidAccountData)
              && (r.Err? ==> W() == WriteVault(old(W()), vault, v.(nonce := next)))
              && (r.Ok? && op.RotateOwner? ==> W() == WriteVault(old(W()), vault, v.(nonce := next, owner := newOwner)))
              && (r.Ok? && !op.RotateOwner? ==>
                    W() == WriteVault(old(W()), vault, v.(nonce := next).WithRecovery(op.Enable?)))
    {
      hide VaultOf, VaultBytes, Get;
      var account :- BorrowVault(vault);
      account.SetNonce(next);
      r := Ok(Done);
      match op {
        case Enable =>
          if account.RecoveryEnabled() {
            r := Err(InvalidAccountData);
          } else {
            account.SetRecoveryEnabled(true);
          }
        case Disable =>
          if !account.RecoveryEnabled() {
            r := Err(InvalidAccountData);
          } else {
            account.SetRecoveryEnabled(false);
          }
        case RotateOwner =>
          account.SetOwner(newOwner);
      }
      ReleaseVault(vault, account);
    }

    /** Owner and nonce of a finalized proposal; the overflow check comes after the
        proposal has been cleared. */
    method InstallOwner(vault: Key, newOwner: Key) returns (r: Result<Unit>)
      modifies this`accounts
      ensures |Get(old(W()), vault).data| != ACCOUNT_LEN ==> r == Err(InvalidAccountData) && W() == old(W())
      ensures |Get(old(W()), vault).data| == ACCOUNT_LEN ==>
              var v := VaultOf(Get(old(W()), vault).data);
              && r == Require(v.nonce < U64_MAX, MathOverflow)
              && (r.Err? ==> W() == old(W()))
              && (r.Ok? ==> W() == WriteVault(old(W()), vault, v.(owner := newOwner, nonce := v.nonce + 1)))
    {
      hide VaultOf, VaultBytes, Get;
      var account :- BorrowVault(vault);
      var nonce := account.Nonce();
      if nonce == U64_MAX {
        return Err(MathOverflow);
      }
      account.SetOwner(newOwner);
      account.SetNonce(nonce + 1);
      ReleaseVault(vault, account);
      return Ok(Done);
    }

    /** Fills a freshly claimed account; the key is prepared after the other fields
        are written. */
    method InitializeVault(vault: Key, bump: byte, index: u32, owner: Key, policy: Policy, wireKey: seq<byte>)
      returns (r: Result<Unit>)
      modifies this`accounts
      ensures |Get(old(W()), vault).data| != ACCOUNT_LEN ==> r == Err(InvalidAccountData) && W() == old(W())
      ensures |Get(old(W()), vault).data| == ACCOUNT_LEN ==>
              && r == Require(host.prepare(wireKey).Some?, MalformedFalcon)
              && var prepared := if r.Ok? then host.prepare(wireKey).value else Zeros(PREPARED_LEN);
                 W() == WriteVault(old(W()), vault, NewVault(bump, index, owner, host.sha(wireKey), policy, prepared))
    {
      hide VaultOf, VaultBytes, Get;
      var data := Borrow(vault);
      var created := HybridAccount.InitializeWithoutFalconKey(data, bump, index, owner, host.sha(wireKey), policy);
      var account :- created;
      var prepared := host.prepare(wireKey);
      if prepared.None? {
        ReleaseVault(vault, account);
        return Err(MalformedFalcon);
      }
      account.StorePreparedKey(prepared.value);
      ReleaseVault(vault, account);
      return Ok(Done);
    }

    // ---------------------------------------------- configuration writes

    /** Fills a freshly claimed account. */
    method InitializeConfig(config: Key, bump: byte, guardian: Key, delay: u64) returns (r: Result<Unit>)
      modifies this`accounts
      ensures r == Require(|Get(old(W()), config).data| == CONFIG_LEN, InvalidAccountData)
      ensures r.Err? ==> W() == old(W())
      ensures r.Ok? ==> W() == WriteConfig(old(W()), config, NewConfig(bump, guardian, delay))
    {
      hide ConfigBytes, Get;
      var data := Borrow(config);
      var created := RecoveryConfig.Initialize(data, bump, guardian, delay);
      var _ :- created;
      Release(config, data);
      return Ok(Done);
    }

    /** `clear_pending_after_ed25519_owner_change`. */
    method ClearPendingAfterOwnerChange(vault: Key, config: Meta) returns (r: Result<Unit>)
      modifies this`accounts
      ensures var cleared := ClearPending(host, old(W()), vault, config);
              && (r.Ok? <==> cleared.Ok?)
              && (r.Err? ==> r.error == cleared.error && W() == old(W()))
              && (r.Ok? && cleared.value.None? ==> W() == old(W()))
              && (r.Ok? && cleared.value.Some? ==>
                    W() == WriteConfig(old(W()), cleared.value.value.key, cleared.value.value.config))
    {
      hide ConfigBytes, ConfigOf, LoadConfig, Get, ConfigAddress;
      var _ :- VerifyAddress(ConfigAddress(host, vault), config.key);
      if Get(W(), config.key).data == [] {
        return Ok(Done);
      }
      if Get(W(), config.key).owner != host.programId {
        return Err(InvalidAccountData);
      }
      if !config.writable {
        return Err(InvalidAccountData);
      }
      var cfg :- BorrowConfig(config.key);
      cfg.ClearPending();
      ReleaseConfig(config.key, cfg);
      return Ok(Done);
    }

    /** The guard and the two writes of an accepted proposal. */
    method Propose(config: Key, newOwner: Key) returns (r: Result<Unit>)
      modifies this`accounts
      ensures var c := LoadConfig(Get(old(W()), config).data);
              && (r.Ok? <==> c.Ok? && !c.value.HasPending() && slot + c.value.delay <= U64_MAX)
              && (c.Err? ==> r == Err(c.error))
              && (c.Ok? && c.value.HasPending() ==> r == Err(InvalidAccountData))
              && (c.Ok? && !c.value.HasPending() && slot + c.value.delay > U64_MAX ==> r == Err(MathOverflow))
              && (r.Err? ==> W() == old(W()))
              && (r.Ok? ==>
                  W() == WriteConfig(old(W()), config, c.value.(pending := newOwner, ready := slot + c.value.delay)))
    {
      hide ConfigBytes, ConfigOf, LoadConfig, Get;
      var cfg :- BorrowConfig(config);
      if cfg.HasPending() {
        return Err(InvalidAccountData);
      }
      var ready := slot + cfg.Delay();
      if ready > U64_MAX {
        return Err(MathOverflow);
      }
      cfg.SetPending(newOwner);
      cfg.SetReady(ready);
      ReleaseConfig(config, cfg);
      return Ok(Done);
    }

    /** Takes the proposal out of a configuration, mature or not. */
    method TakePending(config: Key, matured: bool) returns (r: Result<Key>)
      modifies this`accounts
      ensures var c := LoadConfig(Get(old(W()), config).data);
              && (r.Ok? <==> c.Ok? && c.value.HasPending() && (matured ==> slot >= c.value.ready))
              && (c.Err? ==> r == Err(c.error))
              && (c.Ok? && !c.value.HasPending() ==> r == Err(InvalidAccountData))
              && (c.Ok? && c.value.HasPending() && matured && slot < c.value.ready ==> r == Err(IntentExpired))
              && (r.Err? ==> W() == old(W()))
              && (r.Ok? ==> r.value == c.value.pending && W() == WriteConfig(old(W()), config, c.value.Cleared()))
    {
      hide ConfigBytes, ConfigOf, LoadConfig, Get;
      var cfg :- BorrowConfig(config);
      if !cfg.HasPending() {
        return Err(InvalidAccountData);
      }
      if matured && slot < cfg.Ready() {
        return Err(IntentExpired);
      }
      var pending := cfg.Pending();
      cfg.ClearPending();
      ReleaseConfig(config, cfg);
      return Ok(pending);
    }

    /** Guardian and delay of a configuration with nothing pending. */
    method UpdateConfig(config: Key, guardian: Key, delay: u64) returns (r: Result<Unit>)
      modifies this`accounts
      ensures var c := LoadConfig(Get(old(W()), config).data);
              && (r.Ok? <==> c.Ok? && !c.value.HasPending())
              && (r.Err? ==> r.error == (if c.Err? then c.error else InvalidAccountData) && W() == old(W()))
              && (r.Ok? ==> W() == WriteConfig(old(W()), config, c.value.(guardian := guardian, delay := delay)))
    {
      hide ConfigBytes, ConfigOf, LoadConfig, Get;
      var cfg :- BorrowConfig(config);
      if cfg.HasPending() {
        return Err(InvalidAccountData);
      }
      cfg.SetGuardian(guardian);
      cfg.SetDelay(delay);
      ReleaseConfig(config, cfg);
      return Ok(Done);
    }

    // ------------------------------------------------------------ lamports

    /** Moves lamports by direct debit and credit, both borrowed first, so that a vault
        cannot pay itself. The vault is debited before the credit can overflow. */
    method TransferSol(vault: Key, recipient: Key, amount: u64) returns (r: Result<Unit>)
      modifies this`accounts
      ensures var w := old(W());
              var covered := Get(w, vault).lamports >= amount + host.vaultRent;
              && (amount == 0 ==> r == Ok(Done) && W() == w)
              && (amount > 0 && !covered ==> r == Err(InsufficientFunds) && W() == w)
              && (amount > 0 && covered && vault == recipient ==> r == Err(InvalidAccountData) && W() == w)
              && (amount > 0 && covered && vault != recipient ==>
                    r == Require(Get(w, recipient).lamports + amount <= MAX_LAMPORTS, MathOverflow))
              && (amount > 0 && r == Err(MathOverflow) ==>
                    W() == SetLamports(w, vault, Get(w, vault).lamports - amount))
              && (r.Ok? ==>
                    Payable(w, Payment(vault, recipient, amount)) && W() == Move(w, Payment(vault, recipient, amount)))
    {
      if amount == 0 {
        return Ok(Done);
      }
      var held := Get(W(), vault).lamports;
      if held < amount {
        return Err(InsufficientFunds);
      }
      var remaining := held - amount;
      if remaining < host.vaultRent {
        return Err(InsufficientFunds);
      }
      if vault == recipient {
        return Err(InvalidAccountData);
      }
      accounts := accounts[vault := Get(W(), vault).(lamports := remaining)];
      var credited := Get(W(), recipient).lamports + amount;
      if credited > MAX_LAMPORTS {
        return Err(MathOverflow);
      }
      accounts := accounts[recipient := Get(W(), recipient).(lamports := credited)];
      return Ok(Done);
    }

    // ------------------------------------------------- System program calls

    method SystemTransfer(from: Meta, to: Meta, amount: nat) returns (r: Result<Unit>)
      modifies this`accounts
      ensures r == Require(CanTransfer(old(W()), from, to, amount), CalleeFailed)
      ensures r.Err? ==> W() == old(W())
      ensures r.Ok? ==> Payable(old(W()), Payment(from.key, to.key, amount))
      ensures r.Ok? ==> W() == Move(old(W()), Payment(from.key, to.key, amount))
    {
      hide Get;
      if !CanTransfer(W(), from, to, amount) {
        return Err(CalleeFailed);
      }
      accounts := Move(W(), Payment(from.key, to.key, amount)).accounts;
      MoveSlot(old(W()), Payment(from.key, to.key, amount));
      return Ok(Done);
    }

    method SystemAllocate(m: Meta, len: nat) returns (r: Result<Unit>)
      modifies this`accounts
      ensures r == Require(CanClaim(old(W()), m), CalleeFailed)
      ensures r.Err? ==> W() == old(W())
      ensures r.Ok? ==> W() == Write(old(W()), m.key, Zeros(len))
    {
      if !CanClaim(W(), m) {
        return Err(CalleeFailed);
      }
      accounts := accounts[m.key := Get(W(), m.key).(data := Zeros(len))];
      return Ok(Done);
    }

    method SystemAssign(m: Meta) returns (r: Result<Unit>)
      modifies this`accounts
      ensures r == Require(m.writable && Get(old(W()), m.key).owner == SYSTEM, CalleeFailed)
      ensures r.Err? ==> W() == old(W())
      ensures r.Ok? ==> W() == SetData(old(W()), m.key, host.programId, Get(old(W()), m.key).data)
    {
      if !m.writable || Get(W(), m.key).owner != SYSTEM {
        return Err(CalleeFailed);
      }
      accounts := accounts[m.key := Get(W(), m.key).(owner := host.programId)];
      return Ok(Done);
    }

    /** `transfer_checked` with the vault as authority. */
    method TokenTransferChecked(program: Key, source: Key, mint: Key, destination: Key, vault: Key, amount: u64)
      returns (r: Result<Unit>)
      requires |Get(W(), mint).data| >= SplToken.MINT_LEN
      modifies this`accounts
      ensures var called := CallToken(host, old(W()), program, source, mint, destination, vault, amount);
              && (r.Ok? <==> called.Ok?)
              && (r.Err? ==> r.error == called.error && W() == old(W()))
              && (r.Ok? ==>
                    var t := called.value;
                    Payable(old(W()), Payment(source, destination, t.moved))
                    && W() == TokenMoved(old(W()), Payment(source, destination, t.moved),
                                         TokenWrite(source, t.sourceData, destination, t.destinationData)))
    {
      hide Get, Move, Write, Payable;
      var t :- CallToken(host, W(), program, source, mint, destination, vault, amount);
      var pay := Payment(source, destination, t.moved);
      accounts := TokenMoved(W(), pay, TokenWrite(source, t.sourceData, destination, t.destinationData)).accounts;
      MovedSlot(old(W()), pay, TokenWrite(source, t.sourceData, destination, t.destinationData));
      return Ok(Done);
    }

    /** Allocate, then assign: an empty System account becomes a zero-filled account
        of this program. */
    method Claim(m: Meta, len: nat) returns (r: Result<Unit>)
      modifies this`accounts
      ensures r == Require(CanClaim(old(W()), m), CalleeFailed)
      ensures r.Ok? ==> W() == SetData(old(W()), m.key, host.programId, Zeros(len))
    {
      hide Zeros;
      var _ :- SystemAllocate(m, len);
      r := SystemAssign(m);
    }
  }
}
