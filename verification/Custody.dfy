/** Who can take what: lamports, bytes and signer seeds of a vault over steps and runs. */
module Custody {
  import opened Prelude
  import opened Bytes
  import opened Intent
  import opened State
  import opened Recovery
  import opened Host
  import opened Authorize
  import opened Protocol
  import opened Outcome
  import opened Machine
  import opened Ledger
  import opened Steps
  import opened Runs
  import Ed25519

  // ------------------------------------------------------ the vault's lamports

  /** What a payment of a fitting patch can do to a live vault. */
  lemma OutgoingPayment(host: Host, w: World, p: Patch, vault: Key)
    requires PatchFits(host, w, p) && Get(w, vault).owner == host.programId
    requires LamportsAfter(w, p.payment, vault) < Get(w, vault).lamports
    ensures p.payment.amount > 0 && p.payment.from == vault == p.vault && p.payment.to != vault && p.record.Some?
    ensures LamportsAfter(w, p.payment, vault) == Get(w, vault).lamports - p.payment.amount
  {
    hide Get;
  }

  predicate IsTransferOf(action: Action, recipient: Key, amount: nat) {
    action.TransferSol? && action.recipient == recipient && action.lamports == amount
  }

  /** Only a signed SOL transfer pays out of a vault, and only what it names. */
  lemma SignedPaysOut(host: Host, w: World, ix: Instruction, p: Patch)
    requires HostOk(host) && SignedOutcome(host, w, ix, p)
    requires p.payment.amount > 0 && p.payment.from == p.vault
    ensures WireOf(ix).Ok? && IsTransferOf(WireOf(ix).value.action, p.payment.to, p.payment.amount)
    ensures Get(w, p.vault).lamports >= p.payment.amount + host.vaultRent
  {
    hide HostOk, VaultAfter, WireOf, SignatureOf, NewPrepared, NewWireKey, Permits, VaultOf, SYSTEM, DiscriminatorOf,
         MayAuthorize, ConfigWritten, ConfigAt, ConfigAddress, SysvarOf;
    Distinct(host);
    var action := WireOf(ix).value.action;
    SubjectIsVault(host, w, ix, p);
    assert PaymentFits(host, w, p.vault, action, p);
    assert TokensFit(host, w, action, p.tokens);
  }

  lemma SubjectIsVault(host: Host, w: World, ix: Instruction, p: Patch)
    requires SignedOutcome(host, w, ix, p)
    ensures Get(w, p.vault).owner == host.programId
  {
    hide WireOf, NewPrepared, VaultAfter, ConfigWritten, PaymentFits, Permits, VaultOf, DiscriminatorOf, SysvarOf,
         TokensFit;
  }

  lemma CreatedSubject(host: Host, w: World, ix: Instruction, p: Patch)
    requires CreatedOutcome(host, w, ix, p)
    ensures Get(w, p.vault).owner == SYSTEM
  {
  }

  lemma GuardianPaysNothing(host: Host, w: World, ix: Instruction, p: Patch)
    requires ProposedOutcome(host, w, ix, p) || FinalizedOutcome(host, w, ix, p)
    ensures p.payment.amount == 0
  {
    hide VaultOf, ConfigOf, Get, ConfigAt, SubjectOf, SysvarOf, Ed25519.Verify, ClaimDigest;
  }

  /** A vault's payment is never made by an unsigned instruction. */
  lemma PayerIsSigned(host: Host, w: World, ix: Instruction, p: Patch)
    requires HostOk(host) && Decide(host, w, ix) == Ok(p)
    requires Get(w, p.vault).owner == host.programId && p.payment.amount > 0
    ensures IsSigned(ix)
  {
    hide HostOk, CreatedOutcome, ProposedOutcome, FinalizedOutcome, Get, SYSTEM, DecideInitialize, DecideExecute,
         DecideRotateEd25519, DecideRotateFalcon, DecideChangePolicy, DecideRecover, DecideSetRecoveryConfig,
         DecideInitiate, DecideFinalize, DecideCancel;
    Distinct(host);
    if ix.data[0] == 0 {
      CreatedInstruction(host, w, ix, p);
      CreatedSubject(host, w, ix, p);
    } else if ix.data[0] == 7 {
      ProposedInstruction(host, w, ix, p);
      GuardianPaysNothing(host, w, ix, p);
    } else if ix.data[0] == 8 {
      FinalizedInstruction(host, w, ix, p);
      GuardianPaysNothing(host, w, ix, p);
    }
  }

  lemma DecidedPaysOut(host: Host, w: World, ix: Instruction, p: Patch)
    requires HostOk(host) && Decide(host, w, ix) == Ok(p)
    requires Get(w, p.vault).owner == host.programId && p.payment.amount > 0 && p.payment.from == p.vault
    ensures var e := EventOf(host, w, Invoke(ix), p.vault);
            e.Signed? && IsTransferOf(e.action, p.payment.to, p.payment.amount)
    ensures Get(w, p.vault).lamports >= p.payment.amount + host.vaultRent
  {
    hide *;
    PayerIsSigned(host, w, ix, p);
    SignedInstruction(host, w, ix, p);
    SignedParts(host, w, ix, p);
    OwnEvent(host, w, ix, p);
    SignedPaysOut(host, w, ix, p);
  }

  /** In every step, a vault's lamports fall only by a signed SOL transfer of exactly
      that amount, which leaves the rent minimum. */
  lemma LamportsStep(host: Host, w: World, l: Label, w': World, vault: Key)
    requires HostOk(host) && Inv(host, w) && Step(host, w, l, w') && VaultAt(host, w, vault).Some?
    requires Get(w', vault).lamports < Get(w, vault).lamports
    ensures var e := EventOf(host, w, l, vault);
            && e.Signed? && e.action.TransferSol?
            && Get(w', vault).lamports == Get(w, vault).lamports - e.action.lamports >= host.vaultRent
  {
    hide HostOk, Inv, VaultOf, Decide, EventOf, Apply, Purge, Get, PatchFits, LamportsAfter, SYSTEM, Admissible;
    assert l.Invoke?;
    if Decide(host, w, l.ix).Ok? {
      var p := Decide(host, w, l.ix).value;
      DecidedFits(host, w, l.ix, p);
      ApplyAt(host, w, p, vault);
      GetPurged(Apply(host, w, p), vault);
      OutgoingPayment(host, w, p, vault);
      DecidedPaysOut(host, w, l.ix, p);
    }
  }

  // --------------------------------------------------------- bytes at rest

  /** A step that is no event of a vault leaves its bytes and ownership alone. */
  lemma QuietKeepsVault(host: Host, w: World, l: Label, w': World, vault: Key)
    requires HostOk(host) && Inv(host, w) && Step(host, w, l, w') && VaultAt(host, w, vault).Some?
    requires EventOf(host, w, l, vault).Quiet?
    ensures VaultAt(host, w', vault) == VaultAt(host, w, vault)
    ensures Get(w', vault).data == Get(w, vault).data
  {
    hide HostOk, Inv, Step, EventOf, Get, VaultOf;
    StoredInUse(host, w, vault);
    StepProjects(host, w, l, w', vault);
    VaultBytesAt(host, w, vault);
    VaultBytesAt(host, w', vault);
  }

  lemma VaultBytesAt(host: Host, w: World, vault: Key)
    requires VaultAt(host, w, vault).Some?
    ensures Get(w, vault).data == VaultBytes(VaultAt(host, w, vault).value)
  {
    hide VaultOf, VaultBytes;
    State.BytesRoundTrip(Get(w, vault).data);
  }

  /** Stored records determine stored bytes, for configurations too. */
  lemma ConfigBytesAt(host: Host, w: World, vault: Key)
    requires ConfigAt(host, w, vault).Some?
    ensures ConfigAddress(host, vault).Some?
    ensures Get(w, ConfigAddress(host, vault).value.0).data == ConfigBytes(ConfigAt(host, w, vault).value)
  {
    hide ConfigOf, ConfigBytes;
    Recovery.BytesRoundTrip(Get(w, ConfigAddress(host, vault).value.0).data);
  }

  // --------------------------------------------------- one-scheme compromise

  /** Guarded by both schemes, with no recovery path open. */
  predicate Locked(s: Pair) {
    s.vault.Some? && s.vault.value.policy == HybridAnd.AsByte() && !s.vault.value.RecoveryEnabled()
  }

  lemma LockedNeedsBoth(host: Host, w: World, ix: Instruction, p: Patch)
    requires Ed25519.RuntimeVerified(host, ix.previous) && SignedOutcome(host, w, ix, p)
    requires Locked(PairAt(host, w, p.vault))
    ensures Endorsed(host, w, Invoke(ix), p.vault, Both)
  {
    hide SignedOutcome, WireOf, SignatureOf, VaultAt, ConfigAt, Digest, Ed25519.RuntimeVerified, Ed25519.Carries,
         EffectiveRequirement, SysvarOf;
    SignedEndorsed(host, w, ix, p);
    var wire, v := WireOf(ix).value, VaultAt(host, w, p.vault).value;
    var digest := Digest(host, p.vault, v.nonce, wire);
    HybridAndNeedsBoth(v.Threshold(), wire.action, Ed25519.Carries(host, SysvarOf(ix), ix.previous, v.owner, digest),
                       host.falcon(v.prepared, digest, SignatureOf(ix)) == Valid);
  }

  lemma LockedInvoke(host: Host, w: World, ix: Instruction, p: Patch)
    requires HostOk(host) && Inv(host, w) && Admissible(host, ix) && Decide(host, w, ix) == Ok(p)
    requires Locked(PairAt(host, w, p.vault))
    ensures Endorsed(host, w, Invoke(ix), p.vault, Both)
  {
    hide HostOk, Inv, NamesVault, SignedOutcome, WireOf, EventOf, Endorsed, DecideInitialize, DecideExecute, PairAt,
         DecideRotateEd25519, DecideRotateFalcon, DecideChangePolicy, DecideRecover, DecideSetRecoveryConfig,
         DecideInitiate, DecideFinalize, DecideCancel, ParseInitialize, After, Ed25519.RuntimeVerified;
    OwnProjects(host, w, ix, p);
    OwnEvent(host, w, ix, p);
    if ix.data[0] == 0 {
      CreatedInstruction(host, w, ix, p);
    } else if ix.data[0] == 7 {
      ProposedInstruction(host, w, ix, p);
    } else if ix.data[0] == 8 {
    } else {
      SignedInstruction(host, w, ix, p);
      LockedNeedsBoth(host, w, ix, p);
    }
  }

  /** A step is a successful instruction on a vault: it may write the vault, move its
      lamports, or call a token program with its authority. */
  predicate ActsOn(host: Host, w: World, l: Label, vault: Key) {
    l.Invoke? && Decide(host, w, l.ix).Ok? && Decide(host, w, l.ix).value.vault == vault
  }

  lemma LockedStep(host: Host, w: World, l: Label, w': World, vault: Key)
    requires HostOk(host) && Inv(host, w) && Step(host, w, l, w')
    requires Locked(PairAt(host, w, vault)) && !Endorsed(host, w, l, vault, Both)
    ensures !ActsOn(host, w, l, vault) && EventOf(host, w, l, vault).Quiet?
  {
    hide HostOk, Inv, Admissible, PairAt, Decide, Endorsed, Locked, WireOf, After;
    if ActsOn(host, w, l, vault) {
      LockedInvoke(host, w, l.ix, Decide(host, w, l.ix).value);
    }
  }

  /** One-scheme compromise: from HybridAnd with recovery disabled, along any run in
      which no step carries both an Ed25519 and a Falcon signature that verify over its
      digest, no instruction acts on the vault, not even by calling a token
      program in its name; neither its bytes nor its recovery configuration's ever
      change, and its lamports never fall. */
  lemma {:induction false} OneSchemeCompromise(host: Host, ws: seq<World>, ls: seq<Label>, vault: Key, j: nat)
    requires SoundRun(host, ws, ls) && j <= |ls|
    requires Locked(At(host, ws, vault, 0))
    requires forall i :: 0 <= i < j ==> !Endorsed(host, ws[i], ls[i], vault, Both)
    ensures forall i :: 0 <= i < j ==> !ActsOn(host, ws[i], ls[i], vault)
    ensures At(host, ws, vault, j) == At(host, ws, vault, 0)
    ensures Get(ws[j], vault).data == Get(ws[0], vault).data
    ensures Get(ws[j], vault).lamports >= Get(ws[0], vault).lamports
    ensures At(host, ws, vault, 0).config.Some? ==>
              var k := ConfigAddress(host, vault).value.0;
              Get(ws[j], k).data == Get(ws[0], k).data
  {
    hide HostOk, Inv, Step, VaultOf, ConfigOf, Endorsed, EventOf, ActsOn, Get, VaultAt, ConfigAt;
    if j > 0 {
      OneSchemeCompromise(host, ws, ls, vault, j - 1);
      LockedForOneStep(host, ws, ls, vault, j - 1);
    }
    if At(host, ws, vault, 0).config.Some? {
      ConfigBytesAt(host, ws[0], vault);
      ConfigBytesAt(host, ws[j], vault);
    }
  }

  lemma LockedForOneStep(host: Host, ws: seq<World>, ls: seq<Label>, vault: Key, i: nat)
    requires SoundRun(host, ws, ls) && i < |ls|
    requires Locked(At(host, ws, vault, i)) && !Endorsed(host, ws[i], ls[i], vault, Both)
    ensures !ActsOn(host, ws[i], ls[i], vault)
    ensures At(host, ws, vault, i + 1) == At(host, ws, vault, i)
    ensures Get(ws[i + 1], vault).data == Get(ws[i], vault).data
    ensures Get(ws[i + 1], vault).lamports >= Get(ws[i], vault).lamports
  {
    hide HostOk, Inv, Step, VaultOf, ConfigOf, Endorsed, EventOf, ActsOn, Get, VaultAt, ConfigAt;
    assert Step(host, ws[i], ls[i], ws[i + 1]);
    RunKeepsInv(host, ws, ls, i, i);
    VaultInUse(host, ws, ls, vault, i);
    LockedStep(host, ws[i], ls[i], ws[i + 1], vault);
    StepProjects(host, ws[i], ls[i], ws[i + 1], vault);
    QuietKeepsVault(host, ws[i], ls[i], ws[i + 1], vault);
    if Get(ws[i + 1], vault).lamports < Get(ws[i], vault).lamports {
      LamportsStep(host, ws[i], ls[i], ws[i + 1], vault);
    }
  }

  // ------------------------------------------------------------ signer seeds

  lemma CreatedBy(host: Host, w: World, ix: Instruction, vault: Key)
    requires HostOk(host) && EventOf(host, w, Invoke(ix), vault).Created?
    ensures ix.metas != []
    ensures var v := EventOf(host, w, Invoke(ix), vault).vault;
            host.create(SignerSeeds(ix.metas[0].key, v.index, v.bump)) == Some(vault)
  {
    hide HostOk, Decide, WireOf, VaultAddress, ParseInitialize, SignerSeeds, Get;
    var p := Decide(host, w, ix).value;
    DecidedHasData(host, w, ix);
    CreatedInstruction(host, w, ix, p);
    SeedsCreate(host, ix.metas[0].key, ParseInitialize(ix.data[1..]).value.index);
  }

  /** The seed check of a token transfer accepts the vault's creator in every later
      state, since the stored index and bump never change. */
  lemma CreatorSeedsAccepted(host: Host, ws: seq<World>, ls: seq<Label>, vault: Key, i: nat, j: nat)
    requires SoundRun(host, ws, ls) && i < j <= |ls|
    requires EventAt(host, ws, ls, vault, i).Created?
    ensures ls[i].Invoke? && ls[i].ix.metas != [] && At(host, ws, vault, j).vault.Some?
    ensures var v := At(host, ws, vault, j).vault.value;
            host.create(SignerSeeds(ls[i].ix.metas[0].key, v.index, v.bump)) == Some(vault)
  {
    hide HostOk, Inv, Step, Decide, PairAt, SignerSeeds, VaultOk, WireOf;
    EventInUse(host, ws, ls, vault, i);
    CreatedBy(host, ws[i], ls[i].ix, vault);
    RunStep(host, ws, ls, vault, i);
    NonceCounts(host, ws, ls, vault, i + 1, j);
  }
}
