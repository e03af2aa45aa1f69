/** Every step keeps the world's invariant and is one event of each vault's machine. */
module Steps {
  import opened Prelude
  import opened Bytes
  import opened Intent
  import opened Codec
  import opened State
  import opened Recovery
  import opened Host
  import opened Authorize
  import opened Protocol
  import opened Outcome
  import opened Machine
  import opened Ledger
  import Ed25519

  // ----------------------------------------------- patches of each outcome

  lemma SeedsCreate(host: Host, creator: Key, index: u32)
    requires HostOk(host) && VaultAddress(host, creator, index).Some?
    ensures host.create(SignerSeeds(creator, index, VaultAddress(host, creator, index).value.1))
            == Some(VaultAddress(host, creator, index).value.0)
  {
    var seeds := VaultSeeds(creator, index);
    assert host.find(seeds).Some?;
    assert host.create(seeds + [[host.find(seeds).value.1]]) == Some(host.find(seeds).value.0);
  }

  /** No signer is the vault or the configuration derived from an account at hand. */
  lemma SignerIsNotDerived(host: Host, ix: Instruction, i: nat, j: nat)
    requires Admissible(host, ix) && i < |ix.metas| && j < |ix.metas| && ix.metas[i].signer
    ensures ConfigAddress(host, ix.metas[j].key).Some? ==>
              ix.metas[i].key != ConfigAddress(host, ix.metas[j].key).value.0
    ensures forall index: u32 {:trigger VaultAddress(host, ix.metas[j].key, index)} ::
              VaultAddress(host, ix.metas[j].key, index).Some? ==>
                ix.metas[i].key != VaultAddress(host, ix.metas[j].key, index).value.0
  {
    hide VaultAddress, ConfigAddress, Ed25519.RuntimeVerified;
    assert !DerivedFrom(host, ix.metas[i].key, ix.metas[j].key);
  }

  lemma InUse(host: Host, ix: Instruction, k: Key)
    requires Admissible(host, ix) && NamesVault(ix, k)
    ensures k in host.vaults
  {
  }

  lemma Origin(host: Host, creator: Key, index: u32)
    requires VaultAddress(host, creator, index).Some?
    ensures var (vault, bump) := VaultAddress(host, creator, index).value;
            forall v: Vault :: v.index == index && v.bump == bump ==> HasOrigin(host, vault, v)
  {
    var (vault, bump) := VaultAddress(host, creator, index).value;
    forall v: Vault | v.index == index && v.bump == bump ensures HasOrigin(host, vault, v) {
      assert VaultAddress(host, creator, v.index) == Some((vault, v.bump));
    }
  }

  lemma OneWireKey(host: Host, wireKey: seq<byte>)
    requires |wireKey| == FALCON_WIRE_KEY_LEN && host.prepare(wireKey).Some?
    ensures FromOneWireKey(host, host.sha(wireKey), host.prepare(wireKey).value)
  {
  }

  lemma CreatedFits(host: Host, w: World, ix: Instruction, p: Patch)
    requires HostOk(host) && Inv(host, w) && Admissible(host, ix) && ix.data != [] && ix.data[0] == 0
    requires CreatedOutcome(host, w, ix, p) && Payable(w, p.payment)
    ensures PatchFits(host, w, p)
    ensures VaultAt(host, w, p.vault).None?
    ensures VaultOk(host, p.vault, p.record.value) && p.record.value.nonce == 0 && p.record.value.flags == 0
  {
    hide HostOk, Inv, Admissible, ParseInitialize, VaultAddress, HasOrigin, FromOneWireKey, SYSTEM;
    Distinct(host);
    var args := ParseInitialize(ix.data[1..]).value;
    SignerIsNotDerived(host, ix, 0, 0);
    InUse(host, ix, p.vault);
    Origin(host, ix.metas[0].key, args.index);
    OneWireKey(host, args.wireKey);
  }

  lemma SignedRecordFits(host: Host, w: World, ix: Instruction, p: Patch)
    requires HostOk(host) && Inv(host, w) && SignedOutcome(host, w, ix, p) && Payable(w, p.payment)
    ensures RecordFits(host, w, p)
  {
    hide HostOk, Inv, VaultAfter, WireOf, SignatureOf, NewPrepared, NewWireKey, Permits, ConfigOf, SYSTEM, AllZero,
         DiscriminatorOf, EffectiveRequirement, Digest, Policy.FromByte, ConfigWritten, ConfigAt;
    Distinct(host);
    var wire := WireOf(ix).value;
    VaultAfterKeeps(VaultAt(host, w, p.vault).value, wire.action, NewPrepared(host, ix));
    AccountInv(host, w, p.vault);
  }

  lemma SignedPaymentOrigin(host: Host, w: World, ix: Instruction, p: Patch)
    requires HostOk(host) && Admissible(host, ix) && SignedOutcome(host, w, ix, p)
    ensures PaymentOrigin(host, w, p)
  {
    hide HostOk, Admissible, VaultAfter, WireOf, SignatureOf, NewPrepared, NewWireKey, Permits, VaultOf, ConfigOf,
         SYSTEM, DiscriminatorOf, MayAuthorize, ConfigWritten, ConfigAt;
    Distinct(host);
    if WireOf(ix).value.action.SetRecoveryConfig? {
      SignerIsNotDerived(host, ix, 2, 0);
    }
  }

  lemma SignedConfigFits(host: Host, w: World, ix: Instruction, p: Patch)
    requires HostOk(host) && Inv(host, w) && SignedOutcome(host, w, ix, p) && Payable(w, p.payment)
    requires PaymentOrigin(host, w, p)
    ensures ConfigFits(host, w, p)
  {
    if p.config.Some? {
      var c := p.config.value.key;
      AccountInv(host, w, c);
      ConfigWriteFits(host, w, WireOf(ix).value.action, p) by {
        hide Inv, ConfigFits, VaultAfter, WireOf, NewPrepared, Permits, ConfigWritten, PaymentFits, PaymentOrigin,
             VaultAt, ConfigAt, AccountOk;
      }
    }
  }

  lemma ConfigWriteFits(host: Host, w: World, action: Action, p: Patch)
    requires VaultAt(host, w, p.vault).Some? && Payable(w, p.payment)
    requires p.config.Some? && ConfigWritten(host, w, p.vault, action, p.config)
    requires PaymentFits(host, w, p.vault, action, p) && PaymentOrigin(host, w, p)
    requires AccountOk(host, p.config.value.key, Get(w, p.config.value.key))
    ensures ConfigFits(host, w, p)
  {
    hide VaultOf, SYSTEM, AllZero, Get;
  }

  lemma SignedFits(host: Host, w: World, ix: Instruction, p: Patch)
    requires HostOk(host) && Inv(host, w) && Admissible(host, ix)
    requires SignedOutcome(host, w, ix, p) && Payable(w, p.payment) && p.vault in host.vaults
    ensures PatchFits(host, w, p)
  {
    assert TokensFit(host, w, WireOf(ix).value.action, p.tokens);
    SignedRecordFits(host, w, ix, p);
    SignedPaymentOrigin(host, w, ix, p);
    SignedConfigFits(host, w, ix, p);
  }

  /** A program-owned buffer of vault length that is not a vault is blank. */
  lemma RecoveryFlagMeansVault(host: Host, w: World, k: Key)
    requires Inv(host, w)
    requires Get(w, k).owner == host.programId && |Get(w, k).data| == ACCOUNT_LEN
    requires VaultOf(Get(w, k).data).RecoveryEnabled()
    ensures VaultAt(host, w, k) == Some(VaultOf(Get(w, k).data))
  {
    AccountInv(host, w, k);
  }

  lemma ProposedFits(host: Host, w: World, ix: Instruction, p: Patch)
    requires HostOk(host) && Inv(host, w) && ProposedOutcome(host, w, ix, p) && p.vault in host.vaults
    ensures PatchFits(host, w, p)
    ensures VaultAt(host, w, p.vault) == Some(VaultOf(Get(w, p.vault).data))
  {
    hide HostOk, Inv, VaultOk, VaultOf, ConfigOf, SYSTEM, AllZero, ClaimDigest, SysvarOf;
    RecoveryFlagMeansVault(host, w, p.vault);
    AccountInv(host, w, p.config.value.key);
    PairInv(host, w, p.vault);
  }

  lemma FinalizedFits(host: Host, w: World, ix: Instruction, p: Patch)
    requires HostOk(host) && Inv(host, w) && FinalizedOutcome(host, w, ix, p) && p.vault in host.vaults
    ensures PatchFits(host, w, p)
    ensures VaultAt(host, w, p.vault) == Some(VaultOf(Get(w, p.vault).data))
  {
    RecoveryFlagMeansVault(host, w, p.vault);
    AccountInv(host, w, p.config.value.key);
    AccountInv(host, w, p.vault);
    PairInv(host, w, p.vault);
  }

  /** A decided patch is about the vault the instruction names. */
  lemma DecidedNames(host: Host, w: World, ix: Instruction, p: Patch)
    requires Decide(host, w, ix) == Ok(p)
    ensures NamesVault(ix, p.vault)
  {
    hide DecideInitialize, DecideExecute, DecideRotateEd25519, DecideRotateFalcon, DecideChangePolicy, DecideRecover,
         DecideSetRecoveryConfig, DecideInitiate, DecideFinalize, DecideCancel;
    var payload := ix.data[1..];
    match ix.data[0]
    case 0 => InitializeNames(host, w, ix, payload, p);
    case 1 => ExecuteNames(host, w, ix, payload, p);
    case 5 => RecoverNames(host, w, ix, payload, p);
    case 7 => GuardianNames(host, w, ix, payload, p);
    case 8 => GuardianNames(host, w, ix, payload, p);
    case _ => SignedNames(host, w, ix, payload, p);
  }

  lemma InitializeNames(host: Host, w: World, ix: Instruction, payload: seq<byte>, p: Patch)
    requires DecideInitialize(host, w, ix, payload) == Ok(p)
    ensures |ix.metas| > 1 && p.vault == ix.metas[1].key
  {
    hide ParseInitialize, CanTransfer, CanClaim, Get, NewVault, VaultAddress;
  }

  lemma ExecuteNames(host: Host, w: World, ix: Instruction, payload: seq<byte>, p: Patch)
    requires DecideExecute(host, w, ix, payload) == Ok(p)
    ensures ix.metas != [] && p.vault == ix.metas[0].key
  {
    hide SplitWire, Authorized, Get, DecideTokens;
  }

  lemma RecoverNames(host: Host, w: World, ix: Instruction, payload: seq<byte>, p: Patch)
    requires DecideRecover(host, w, ix, payload) == Ok(p)
    ensures ix.metas != [] && p.vault == ix.metas[0].key
  {
    hide SplitWire, Authorized, Get, ClearPending, LoadVault;
  }

  lemma GuardianNames(host: Host, w: World, ix: Instruction, payload: seq<byte>, p: Patch)
    requires DecideInitiate(host, w, ix, payload) == Ok(p) || DecideFinalize(host, w, ix, payload) == Ok(p)
    ensures ix.metas != [] && p.vault == ix.metas[0].key
  {
    hide Get, LoadVault, LoadConfig, VerifyAddress, ConfigAddress, GuardianFromSlice, ClaimDigest, Ed25519.Verify;
  }

  lemma SignedNames(host: Host, w: World, ix: Instruction, payload: seq<byte>, p: Patch)
    requires || DecideRotateEd25519(host, w, ix, payload) == Ok(p) || DecideRotateFalcon(host, w, ix, payload) == Ok(p)
             || DecideChangePolicy(host, w, ix, payload) == Ok(p) || DecideCancel(host, w, ix, payload) == Ok(p)
             || DecideSetRecoveryConfig(host, w, ix, payload) == Ok(p)
    ensures ix.metas != [] && p.vault == ix.metas[0].key
  {
    hide SplitWire, Authorized, Get, ClearPending, LoadVault, LoadConfig, VerifyAddress, DecodeWire, VerifyRaw,
         Configure, ConfigAddress, ResultingThreshold;
  }

  lemma DecidedFits(host: Host, w: World, ix: Instruction, p: Patch)
    requires HostOk(host) && Inv(host, w) && Admissible(host, ix) && Decide(host, w, ix) == Ok(p)
    ensures PatchFits(host, w, p)
  {
    hide DecideInitialize, DecideExecute, DecideRotateEd25519, DecideRotateFalcon, DecideChangePolicy, DecideRecover,
         DecideSetRecoveryConfig, DecideInitiate, DecideFinalize, DecideCancel;
    hide HostOk, Inv, Admissible, NamesVault, PatchFits, CreatedOutcome, SignedOutcome, ProposedOutcome,
         FinalizedOutcome;
    DecidedNames(host, w, ix, p);
    InUse(host, ix, p.vault);
    if ix.data[0] == 0 {
      CreatedInstruction(host, w, ix, p);
      CreatedFits(host, w, ix, p);
    } else if ix.data[0] == 7 {
      ProposedInstruction(host, w, ix, p);
      ProposedFits(host, w, ix, p);
    } else if ix.data[0] == 8 {
      FinalizedInstruction(host, w, ix, p);
      FinalizedFits(host, w, ix, p);
    } else {
      SignedInstruction(host, w, ix, p);
      SignedFits(host, w, ix, p);
    }
  }

  // -------------------------------------- projection onto the vault's machine

  /** The pair of every vault after a patch. */
  lemma PairAfterPatch(host: Host, w: World, ix: Instruction, p: Patch, vault: Key)
    requires HostOk(host) && Inv(host, w) && Decide(host, w, ix) == Ok(p) && PatchFits(host, w, p)
    requires vault in host.vaults
    ensures var s := PairAt(host, w, vault);
            PairAt(host, After(host, w, ix), vault) == if vault != p.vault then s else Patched(s, p)
  {
    hide Decide, VaultAt, ConfigAt, Apply, Purge, Inv, HostOk, PatchFits;
    VaultAfterPatch(host, w, p, vault);
    ConfigAfterPatch(host, w, p, vault);
  }

  /** What the vault's own pair becomes under a patch. */
  function Patched(s: Pair, p: Patch): Pair {
    Pair(if p.record.Some? then p.record else s.vault,
         if p.config.Some? then Some(p.config.value.config) else s.config)
  }

  lemma CreatedNext(host: Host, w: World, ix: Instruction, p: Patch)
    requires HostOk(host) && Inv(host, w) && Admissible(host, ix) && ix.data != [] && ix.data[0] == 0
    requires CreatedOutcome(host, w, ix, p) && Payable(w, p.payment)
    ensures Next(host, p.vault, w.slot, PairAt(host, w, p.vault), Created(p.record.value),
                 Patched(PairAt(host, w, p.vault), p))
  {
    hide VaultAt, ConfigAt, Inv, HostOk, PatchFits, VaultOk, NewVault, ParseInitialize, Admissible;
    CreatedFits(host, w, ix, p);
  }

  lemma ProposedNext(host: Host, w: World, ix: Instruction, p: Patch)
    requires HostOk(host) && Inv(host, w) && ProposedOutcome(host, w, ix, p) && p.vault in host.vaults
    ensures Next(host, p.vault, w.slot, PairAt(host, w, p.vault), Proposed(ix.data[1..]),
                 Patched(PairAt(host, w, p.vault), p))
  {
    hide VaultAt, ConfigAt, Inv, HostOk, PatchFits, VaultOf, ClaimDigest, Ed25519.Verify, SysvarOf, Get, ConfigAddress,
         SubjectOf, SYSTEM, Next, Patched;
    ProposedFits(host, w, ix, p);
    ProposedPair(host, w.slot, p.vault, PairAt(host, w, p.vault), ix.data[1..], p);
  }

  lemma ProposedPair(host: Host, slot: u64, vault: Key, s: Pair, newOwner: Key, p: Patch)
    requires s.vault.Some? && s.config.Some? && s.vault.value.RecoveryEnabled()
    requires newOwner != ZERO_KEY && newOwner != s.vault.value.owner && !s.config.value.HasPending()
    requires slot + s.config.value.delay <= U64_MAX
    requires p.record.None? && p.config.Some?
    requires p.config.value.config == s.config.value.(pending := newOwner, ready := slot + s.config.value.delay)
    ensures Next(host, vault, slot, s, Proposed(newOwner), Patched(s, p))
  {
    hide VaultOk, VaultAfter, ConfigAfter, Permits, TouchesConfig, FromOneWireKey, ConfigAddress;
  }

  lemma FinalizedNext(host: Host, w: World, ix: Instruction, p: Patch)
    requires HostOk(host) && Inv(host, w) && FinalizedOutcome(host, w, ix, p) && p.vault in host.vaults
    ensures Next(host, p.vault, w.slot, PairAt(host, w, p.vault), Finalized, Patched(PairAt(host, w, p.vault), p))
  {
    hide VaultAt, ConfigAt, Inv, HostOk, PatchFits, VaultOf, Get, ConfigAddress, SubjectOf, SYSTEM, Next, Patched;
    FinalizedFits(host, w, ix, p);
    FinalizedPair(host, w.slot, p.vault, PairAt(host, w, p.vault), p);
  }

  lemma FinalizedPair(host: Host, slot: u64, vault: Key, s: Pair, p: Patch)
    requires s.vault.Some? && s.config.Some? && s.vault.value.RecoveryEnabled() && s.vault.value.nonce < U64_MAX
    requires s.config.value.HasPending() && slot >= s.config.value.ready
    requires p.record == Some(s.vault.value.(owner := s.config.value.pending, nonce := s.vault.value.nonce + 1))
    requires p.config.Some? && p.config.value.config == s.config.value.Cleared()
    ensures Next(host, vault, slot, s, Finalized, Patched(s, p))
  {
    hide VaultOk, VaultAfter, ConfigAfter, Permits, TouchesConfig, FromOneWireKey, ConfigAddress;
  }

  lemma WrittenConfigIsAfter(host: Host, w: World, vault: Key, action: Action, config: Option<ConfigWrite>)
    requires ConfigWritten(host, w, vault, action, config)
    ensures var derived := ConfigAddress(host, vault);
            var c := ConfigAt(host, w, vault);
            && (TouchesConfig(action) ==> derived.Some?)
            && (if config.Some? then Some(config.value.config) else c)
               == ConfigAfter(c, action, if derived.Some? then derived.value.1 else 0)
  {
    hide ConfigAt, ConfigAddress;
  }

  lemma PreparedIsNew(host: Host, ix: Instruction)
    requires host.prepare(NewWireKey(ix)).Some?
    ensures NewPrepared(host, ix) == host.prepare(NewWireKey(ix)).value
  {
  }

  lemma SignedNext(host: Host, w: World, ix: Instruction, p: Patch)
    requires SignedOutcome(host, w, ix, p)
    ensures Next(host, p.vault, w.slot, PairAt(host, w, p.vault),
                 Signed(WireOf(ix).value.action, NewPrepared(host, ix)),
                 Patched(PairAt(host, w, p.vault), p))
  {
    hide VaultAt, ConfigAt, VaultAfter, ConfigAfter, ConfigWritten, Permits, WireOf, NewPrepared, NewWireKey,
         FromOneWireKey, PaymentFits, TokensFit, EffectiveRequirement, Digest, TouchesConfig, Policy.FromByte,
         ConfigAddress, SysvarOf, SignatureOf;
    var action := WireOf(ix).value.action;
    if action.RotateFalconKey? {
      PreparedIsNew(host, ix);
      OneWireKey(host, NewWireKey(ix));
    }
    WrittenConfigIsAfter(host, w, p.vault, action, p.config);
  }

  /** The event of a successful instruction at its own vault. */
  lemma OwnEvent(host: Host, w: World, ix: Instruction, p: Patch)
    requires Decide(host, w, ix) == Ok(p)
    ensures ix.data[0] == 0 && p.record.Some? ==> EventOf(host, w, Invoke(ix), p.vault) == Created(p.record.value)
    ensures ix.data[0] == 7 && |ix.data| == 33 ==> EventOf(host, w, Invoke(ix), p.vault) == Proposed(ix.data[1..])
    ensures ix.data[0] == 8 ==> EventOf(host, w, Invoke(ix), p.vault) == Finalized
    ensures IsSigned(ix) && WireOf(ix).Ok? ==>
              EventOf(host, w, Invoke(ix), p.vault) == Signed(WireOf(ix).value.action, NewPrepared(host, ix))
  {
    hide Decide, WireOf, NewPrepared;
  }

  lemma OwnProjects(host: Host, w: World, ix: Instruction, p: Patch)
    requires HostOk(host) && Inv(host, w) && Admissible(host, ix) && Decide(host, w, ix) == Ok(p)
    ensures Next(host, p.vault, w.slot, PairAt(host, w, p.vault), EventOf(host, w, Invoke(ix), p.vault),
                 PairAt(host, After(host, w, ix), p.vault))
  {
    hide HostOk, Inv, Admissible, NamesVault, PairAt, Next, EventOf, After, PatchFits, Patched, DecideInitialize,
         DecideExecute, DecideRotateEd25519, DecideRotateFalcon, DecideChangePolicy, DecideRecover,
         DecideSetRecoveryConfig, DecideInitiate, DecideFinalize, DecideCancel;
    DecidedNames(host, w, ix, p);
    InUse(host, ix, p.vault);
    DecidedFits(host, w, ix, p);
    PairAfterPatch(host, w, ix, p, p.vault);
    OwnEvent(host, w, ix, p);
    if ix.data[0] == 0 {
      CreatedInstruction(host, w, ix, p);
      CreatedNext(host, w, ix, p);
    } else if ix.data[0] == 7 {
      ProposedInstruction(host, w, ix, p);
      ProposedNext(host, w, ix, p);
    } else if ix.data[0] == 8 {
      FinalizedInstruction(host, w, ix, p);
      FinalizedNext(host, w, ix, p);
    } else {
      SignedInstruction(host, w, ix, p);
      SignedNext(host, w, ix, p);
    }
  }

  lemma InvokeProjects(host: Host, w: World, ix: Instruction, vault: Key)
    requires HostOk(host) && Inv(host, w) && Admissible(host, ix) && vault in host.vaults
    ensures Next(host, vault, w.slot, PairAt(host, w, vault), EventOf(host, w, Invoke(ix), vault),
                 PairAt(host, After(host, w, ix), vault))
  {
    hide HostOk, Inv, Admissible, PairAt, DecideInitialize, DecideExecute, DecideRotateEd25519, DecideRotateFalcon,
         DecideChangePolicy, DecideRecover, DecideSetRecoveryConfig, DecideInitiate, DecideFinalize, DecideCancel;
    if Decide(host, w, ix).Ok? {
      var p := Decide(host, w, ix).value;
      if p.vault != vault {
        DecidedFits(host, w, ix, p);
        PairAfterPatch(host, w, ix, p, vault);
      } else {
        OwnProjects(host, w, ix, p);
      }
    }
  }

  lemma ElsewhereProjects(host: Host, w: World, w': World, vault: Key)
    requires Elsewhere(host, w, w')
    ensures PairAt(host, w', vault) == PairAt(host, w, vault)
  {
    var a, b := Get(w, vault), Get(w', vault);
    var derived := ConfigAddress(host, vault);
    if derived.Some? {
      var c, d := Get(w, derived.value.0), Get(w', derived.value.0);
    }
  }

  /** Refinement: whatever happens in the world, each vault takes one step of its
      own machine. */
  lemma StepProjects(host: Host, w: World, l: Label, w': World, vault: Key)
    requires HostOk(host) && Inv(host, w) && Step(host, w, l, w') && vault in host.vaults
    ensures Next(host, vault, w.slot, PairAt(host, w, vault), EventOf(host, w, l, vault), PairAt(host, w', vault))
  {
    if l.Invoke? {
      InvokeProjects(host, w, l.ix, vault);
    } else {
      ElsewhereProjects(host, w, w', vault);
    }
  }

  /** Every step keeps the invariant. */
  lemma StepKeepsInv(host: Host, w: World, l: Label, w': World)
    requires HostOk(host) && Inv(host, w) && Step(host, w, l, w')
    ensures Inv(host, w') && w.slot <= w'.slot
  {
    hide Decide, Apply, Purge, HostOk, PairAt, PairOk, Next;
    forall k: Key ensures AccountOk(host, k, Get(w', k)) {
      AccountInv(host, w, k);
      if l.Invoke? && Decide(host, w, l.ix).Ok? {
        var p := Decide(host, w, l.ix).value;
        DecidedFits(host, w, l.ix, p);
        PatchKeepsAccount(host, w, p, k);
      }
    }
    forall k | k in host.vaults ensures PairOk(host, k, PairAt(host, w', k)) {
      PairInv(host, w, k);
      StepProjects(host, w, l, w', k);
      NextKeepsPairOk(host, k, w.slot, PairAt(host, w, k), EventOf(host, w, l, k), PairAt(host, w', k));
    }
    if l.Invoke? && Decide(host, w, l.ix).Ok? {
      ApplySlot(host, w, Decide(host, w, l.ix).value);
    }
  }

  lemma ApplySlot(host: Host, w: World, p: Patch)
    requires Payable(w, p.payment)
    ensures Purge(Apply(host, w, p)).slot == w.slot
  {
    hide Move;
    MoveAt(w, p.payment, SYSTEM);
  }
}
