/** Theorems about whole runs: any interleaving of instructions over any number of
    vaults, mixed with anything else that happens on the chain. */
module Runs {
  import opened Prelude
  import opened Bytes
  import opened Intent
  import opened Codec
  import opened State
  import opened Host
  import opened Authorize
  import opened Protocol
  import opened Outcome
  import opened Machine
  import opened Ledger
  import opened Steps
  import Ed25519

  ghost predicate Run(host: Host, ws: seq<World>, ls: seq<Label>) {
    |ws| == |ls| + 1 && forall i :: 0 <= i < |ls| ==> Step(host, ws[i], ls[i], ws[i + 1])
  }

  /** A run of a sound deployment from a state that satisfies the invariant, such
      as a chain on which the program has no accounts yet. */
  ghost predicate SoundRun(host: Host, ws: seq<World>, ls: seq<Label>)
    ensures SoundRun(host, ws, ls) ==> |ws| == |ls| + 1
  {
    HostOk(host) && Run(host, ws, ls) && Inv(host, ws[0])
  }

  ghost function At(host: Host, ws: seq<World>, vault: Key, i: nat): Pair
    requires i < |ws|
  {
    PairAt(host, ws[i], vault)
  }

  ghost function EventAt(host: Host, ws: seq<World>, ls: seq<Label>, vault: Key, i: nat): Event
    requires i < |ls| < |ws|
  {
    EventOf(host, ws[i], ls[i], vault)
  }

  /** Every reachable world satisfies the invariant, and time does not run back. */
  lemma {:induction false} RunKeepsInv(host: Host, ws: seq<World>, ls: seq<Label>, i: nat, j: nat)
    requires SoundRun(host, ws, ls) && i <= j < |ws|
    ensures Inv(host, ws[j]) && ws[i].slot <= ws[j].slot
    decreases j
  {
    hide HostOk, Inv, Step;
    if i < j {
      RunKeepsInv(host, ws, ls, i, j - 1);
      StepKeepsInv(host, ws[j - 1], ls[j - 1], ws[j]);
    } else if j > 0 {
      RunKeepsInv(host, ws, ls, j - 1, j - 1);
      StepKeepsInv(host, ws[j - 1], ls[j - 1], ws[j]);
    }
  }

  /** From a chain without program accounts, every reachable vault and the
      configuration beside it satisfy their invariants and hold their rent, and no vault
      in use has a configuration before it exists. */
  lemma ReachableVaultInvariant(host: Host, ws: seq<World>, ls: seq<Label>, vault: Key, i: nat)
    requires HostOk(host) && Run(host, ws, ls) && Genesis(host, ws[0]) && i < |ws|
    ensures var s := At(host, ws, vault, i);
            && (s.vault.Some? ==>
                  VaultOk(host, vault, s.vault.value) && Get(ws[i], vault).lamports >= host.vaultRent > 0)
            && (s.vault.Some? && s.config.Some? ==> ConfigOk(host, vault, s.vault.value, s.config.value))
            && (vault in host.vaults && s.config.Some? ==> s.vault.Some?)
  {
    hide VaultOk, ConfigOk, Inv, HostOk, ConfigAt, VaultOf;
    GenesisInv(host, ws[0]);
    RunKeepsInv(host, ws, ls, i, i);
    if At(host, ws, vault, i).vault.Some? {
      StoredInUse(host, ws[i], vault);
    }
    if vault in host.vaults {
      PairInv(host, ws[i], vault);
    }
    AccountInv(host, ws[i], vault);
    Distinct(host);
  }

  /** A stored vault is in use, and so is one that a step acts on. */
  lemma VaultInUse(host: Host, ws: seq<World>, ls: seq<Label>, vault: Key, i: nat)
    requires SoundRun(host, ws, ls) && i < |ws| && At(host, ws, vault, i).vault.Some?
    ensures vault in host.vaults
  {
    hide HostOk, Inv, Step, VaultAt, ConfigAt;
    RunKeepsInv(host, ws, ls, i, i);
    StoredInUse(host, ws[i], vault);
  }

  lemma EventInUse(host: Host, ws: seq<World>, ls: seq<Label>, vault: Key, i: nat)
    requires SoundRun(host, ws, ls) && i < |ls| && !EventAt(host, ws, ls, vault, i).Quiet?
    ensures vault in host.vaults
  {
    hide HostOk, Inv, Decide, NamesVault, Admissible, WireOf, NewPrepared;
    assert Step(host, ws[i], ls[i], ws[i + 1]);
    DecidedNames(host, ws[i], ls[i].ix, Decide(host, ws[i], ls[i].ix).value);
    InUse(host, ls[i].ix, vault);
  }

  /** One step of a run, seen by one vault. */
  lemma RunStep(host: Host, ws: seq<World>, ls: seq<Label>, vault: Key, i: nat)
    requires SoundRun(host, ws, ls) && i < |ls| && vault in host.vaults
    ensures Next(host, vault, ws[i].slot, At(host, ws, vault, i), EventAt(host, ws, ls, vault, i),
                 At(host, ws, vault, i + 1))
    ensures PairOk(host, vault, At(host, ws, vault, i))
    ensures ws[i].slot <= ws[i + 1].slot
  {
    hide HostOk, Step, Next, PairAt, PairOk, EventOf;
    RunKeepsInv(host, ws, ls, i, i + 1);
    RunKeepsInv(host, ws, ls, i, i);
    PairInv(host, ws[i], vault);
    StepProjects(host, ws[i], ls[i], ws[i + 1], vault);
  }

  // -------------------------------------------------------------- the nonce

  /** How many steps of `i..j` consume a nonce of the vault. */
  ghost function Consumed(host: Host, ws: seq<World>, ls: seq<Label>, vault: Key, i: nat, j: nat): nat
    requires i <= j <= |ls| < |ws|
    decreases j
  {
    if i == j then 0
    else Consumed(host, ws, ls, vault, i, j - 1) + (if Consumes(EventAt(host, ws, ls, vault, j - 1)) then 1 else 0)
  }

  lemma ConsumedStep(host: Host, ws: seq<World>, ls: seq<Label>, vault: Key, i: nat, j: nat)
    requires i <= j <= |ls| < |ws|
    ensures Consumed(host, ws, ls, vault, i, j) ==
            if i == j then 0
            else
              Consumed(host, ws, ls, vault, i, j - 1) + (if Consumes(EventAt(host, ws, ls, vault, j - 1)) then 1 else 0)
  {
  }

  /** A vault never disappears, keeps its bump and index, and its nonce counts the
      consuming steps. */
  lemma {:induction false} NonceCounts(host: Host, ws: seq<World>, ls: seq<Label>, vault: Key, i: nat, j: nat)
    requires SoundRun(host, ws, ls) && i <= j <= |ls|
    requires At(host, ws, vault, i).vault.Some?
    ensures At(host, ws, vault, j).vault.Some?
    ensures var v, u := At(host, ws, vault, i).vault.value, At(host, ws, vault, j).vault.value;
            u.bump == v.bump && u.index == v.index && u.nonce == v.nonce + Consumed(host, ws, ls, vault, i, j)
    decreases j
  {
    hide *;
    VaultInUse(host, ws, ls, vault, i);
    ConsumedStep(host, ws, ls, vault, i, j);
    if i < j {
      NonceCounts(host, ws, ls, vault, i, j - 1);
      RunStep(host, ws, ls, vault, j - 1);
      NonceStep(host, vault, ws[j - 1].slot, At(host, ws, vault, j - 1), EventAt(host, ws, ls, vault, j - 1),
                At(host, ws, vault, j));
    }
  }

  /** A step that consumes a nonce leaves a larger one, for good. */
  lemma ConsumedForGood(host: Host, ws: seq<World>, ls: seq<Label>, vault: Key, i: nat, j: nat)
    requires SoundRun(host, ws, ls) && i < j <= |ls|
    requires At(host, ws, vault, i).vault.Some? && Consumes(EventAt(host, ws, ls, vault, i))
    ensures At(host, ws, vault, j).vault.Some?
    ensures At(host, ws, vault, j).vault.value.nonce > At(host, ws, vault, i).vault.value.nonce
  {
    hide SoundRun, PairAt, EventOf;
    NonceCounts(host, ws, ls, vault, i, i + 1);
    NonceCounts(host, ws, ls, vault, i + 1, j);
  }

  /** A vault is created once, and from then on its nonce is the number of
      successful consuming steps. */
  lemma CreatedOnce(host: Host, ws: seq<World>, ls: seq<Label>, vault: Key, i: nat, j: nat)
    requires SoundRun(host, ws, ls) && i < j <= |ls|
    requires EventAt(host, ws, ls, vault, i).Created?
    ensures At(host, ws, vault, j).vault.Some?
    ensures At(host, ws, vault, j).vault.value.nonce == Consumed(host, ws, ls, vault, i + 1, j)
    ensures j < |ls| ==> !EventAt(host, ws, ls, vault, j).Created?
  {
    hide SoundRun, PairAt, EventOf, PairOk, VaultOk;
    EventInUse(host, ws, ls, vault, i);
    RunStep(host, ws, ls, vault, i);
    NonceCounts(host, ws, ls, vault, i + 1, j);
    if j < |ls| {
      RunStep(host, ws, ls, vault, j);
    }
  }

  // ----------------------------------------------------------- at most once

  /** The canonical preimage a step was authorized by, if it is a successful signed
      instruction. */
  function PreimageUsed(host: Host, w: World, l: Label): Option<seq<byte>> {
    if l.Other? || !IsSigned(l.ix) || Decide(host, w, l.ix).Err? || WireOf(l.ix).Err?
       || VaultAt(host, w, SubjectOf(l.ix)).None? then None
    else Some(Preimage(IntentAt(host, SubjectOf(l.ix), VaultAt(host, w, SubjectOf(l.ix)).value.nonce,
                                WireOf(l.ix).value)))
  }

  /** `PreimageUsed` misses no successful signed instruction. */
  lemma SignedUsesPreimage(host: Host, w: World, ix: Instruction)
    requires IsSigned(ix) && Decide(host, w, ix).Ok?
    ensures PreimageUsed(host, w, Invoke(ix)).Some?
    ensures EventOf(host, w, Invoke(ix), SubjectOf(ix)).Signed?
    ensures VaultAt(host, w, SubjectOf(ix)).Some?
  {
    hide Decide, WireOf, SubjectOf, VaultAt, SignedOutcome, NewPrepared, EventOf;
    var p := Decide(host, w, ix).value;
    SignedInstruction(host, w, ix, p);
    SignedParts(host, w, ix, p);
    OwnEvent(host, w, ix, p);
  }

  lemma SignedParts(host: Host, w: World, ix: Instruction, p: Patch)
    requires SignedOutcome(host, w, ix, p)
    ensures p.vault == SubjectOf(ix) && WireOf(ix).Ok? && VaultAt(host, w, SubjectOf(ix)).Some?
  {
    hide WireOf, SubjectOf, VaultAt, NewPrepared, VaultAfter, ConfigWritten, PaymentFits, Permits;
  }

  /** At-most-once, globally: no canonical preimage authorizes two successful steps
      of a run, on the same or different vaults. */
  lemma AtMostOnce(host: Host, ws: seq<World>, ls: seq<Label>, i: nat, j: nat)
    requires SoundRun(host, ws, ls) && i < |ls| && j < |ls|
    requires PreimageUsed(host, ws[i], ls[i]).Some?
    requires PreimageUsed(host, ws[i], ls[i]) == PreimageUsed(host, ws[j], ls[j])
    ensures i == j
  {
    if i < j {
      UsedOnce(host, ws, ls, i, j);
    } else if j < i {
      UsedOnce(host, ws, ls, j, i);
    }
  }

  lemma UsedOnce(host: Host, ws: seq<World>, ls: seq<Label>, i: nat, j: nat)
    requires SoundRun(host, ws, ls) && i < j < |ls|
    requires PreimageUsed(host, ws[i], ls[i]).Some? && PreimageUsed(host, ws[j], ls[j]).Some?
    ensures PreimageUsed(host, ws[i], ls[i]) != PreimageUsed(host, ws[j], ls[j])
  {
    hide Decide, SubjectOf, VaultAt, WireOf, SoundRun, Preimage, IsSigned;
    var vault := SubjectOf(ls[i].ix);
    SignedUsesPreimage(host, ws[i], ls[i].ix);
    ConsumedForGood(host, ws, ls, vault, i, j);
    var a := IntentAt(host, vault, VaultAt(host, ws[i], vault).value.nonce, WireOf(ls[i].ix).value);
    var other := SubjectOf(ls[j].ix);
    var b := IntentAt(host, other, VaultAt(host, ws[j], other).value.nonce, WireOf(ls[j].ix).value);
    if Preimage(a) == Preimage(b) {
      PreimageInjective(a, b);
    }
  }

  /** The digests that signatures cover repeat only if SHA-256 collides: two steps with
      one digest exhibit two preimages with one hash. */
  lemma DigestsAreFresh(host: Host, ws: seq<World>, ls: seq<Label>, i: nat, j: nat)
    requires SoundRun(host, ws, ls) && i < |ls| && j < |ls| && i != j
    requires PreimageUsed(host, ws[i], ls[i]).Some? && PreimageUsed(host, ws[j], ls[j]).Some?
    requires host.sha(PreimageUsed(host, ws[i], ls[i]).value) == host.sha(PreimageUsed(host, ws[j], ls[j]).value)
    ensures PreimageUsed(host, ws[i], ls[i]).value != PreimageUsed(host, ws[j], ls[j]).value
  {
    hide PreimageUsed, SoundRun;
    if PreimageUsed(host, ws[i], ls[i]) == PreimageUsed(host, ws[j], ls[j]) {
      AtMostOnce(host, ws, ls, i, j);
    }
  }

  // ---------------------------------------------------------- endorsements

  /** The signatures a step carries satisfy a requirement over its digest: the Ed25519
      instruction in front of it carries one by the stored owner that verifies, the
      Falcon signature in its own data verifies under the stored key, or both. */
  ghost predicate Endorsed(host: Host, w: World, l: Label, vault: Key, req: Requirement) {
    && l.Invoke? && WireOf(l.ix).Ok? && VaultAt(host, w, vault).Some?
    && var v := VaultAt(host, w, vault).value;
       var digest := Digest(host, vault, v.nonce, WireOf(l.ix).value);
       req.AcceptedBy(Ed25519.Carries(host, SysvarOf(l.ix), l.ix.previous, v.owner, digest),
                      host.falcon(v.prepared, digest, SignatureOf(l.ix)) == Valid)
  }

  /** What a stored vault requires for an action. */
  function RequiredOf(v: Vault, action: Action): Result<Requirement> {
    var policy := Policy.FromByte(v.policy);
    if policy.None? then Err(InvalidAccountData)
    else EffectiveRequirement(policy.value, v.Threshold(), v.RecoveryEnabled(), action)
  }

  lemma SignedEndorsed(host: Host, w: World, ix: Instruction, p: Patch)
    requires Ed25519.RuntimeVerified(host, ix.previous) && SignedOutcome(host, w, ix, p)
    ensures WireOf(ix).Ok? && VaultAt(host, w, p.vault).Some?
    ensures RequiredOf(VaultAt(host, w, p.vault).value, WireOf(ix).value.action).Ok?
    ensures Endorsed(host, w, Invoke(ix), p.vault,
                     RequiredOf(VaultAt(host, w, p.vault).value, WireOf(ix).value.action).value)
  {
    hide VaultAfter, WireOf, SignatureOf, NewPrepared, NewWireKey, Permits, DiscriminatorOf, VaultAt, ConfigWritten,
         SysvarOf, Digest, Ed25519.Verify, Ed25519.RuntimeVerified, EffectiveRequirement, Ed25519.Carries, PaymentFits,
         TokensFit, SubjectOf, Policy.FromByte;
    var wire, v := WireOf(ix).value, VaultAt(host, w, p.vault).value;
    Ed25519.IntrospectionSound(host, SysvarOf(ix), ix.previous, v.owner, Digest(host, p.vault, v.nonce, wire));
  }

  /** Every signed event was endorsed as the stored vault required for that action. */
  lemma EventEndorsed(host: Host, w: World, l: Label, vault: Key)
    requires l.Invoke? ==> Admissible(host, l.ix)
    requires EventOf(host, w, l, vault).Signed?
    ensures VaultAt(host, w, vault).Some?
    ensures var req := RequiredOf(VaultAt(host, w, vault).value, EventOf(host, w, l, vault).action);
            req.Ok? && Endorsed(host, w, l, vault, req.value)
  {
    hide Decide, SignedOutcome, Endorsed, RequiredOf, WireOf, VaultAt, Ed25519.RuntimeVerified, NewPrepared;
    DecidedHasData(host, w, l.ix);
    var p := Decide(host, w, l.ix).value;
    SignedDiscriminator(host, w, l.ix);
    SignedInstruction(host, w, l.ix, p);
    SignedEndorsed(host, w, l.ix, p);
  }

  lemma DecidedHasData(host: Host, w: World, ix: Instruction)
    requires Decide(host, w, ix).Ok?
    ensures ix.data != [] && ix.data[0] <= 9
  {
    hide DecideInitialize, DecideExecute, DecideRotateEd25519, DecideRotateFalcon, DecideChangePolicy, DecideRecover,
         DecideSetRecoveryConfig, DecideInitiate, DecideFinalize, DecideCancel;
  }

  lemma SignedDiscriminator(host: Host, w: World, ix: Instruction)
    requires Decide(host, w, ix).Ok? && ix.data != [] && ix.data[0] !in {0, 7, 8}
    ensures IsSigned(ix)
  {
    hide Decide;
    DecidedHasData(host, w, ix);
  }

  /** A policy change was endorsed under the policy it leaves and under the policy it
      installs. */
  lemma PolicyChangeEndorsed(host: Host, w: World, l: Label, vault: Key)
    requires l.Invoke? ==> Admissible(host, l.ix)
    requires EventOf(host, w, l, vault).Signed? && EventOf(host, w, l, vault).action.ChangePolicy?
    ensures VaultAt(host, w, vault).Some?
    ensures var v, action := VaultAt(host, w, vault).value, EventOf(host, w, l, vault).action;
            var current, target := Policy.FromByte(v.policy), Policy.FromByte(action.newPolicy);
            && current.Some? && target.Some?
            && Endorsed(host, w, l, vault, current.value.SignatureRequirement(action, v.Threshold()))
            && Endorsed(host, w, l, vault,
                        target.value.SignatureRequirement(action, ResultingThreshold(target.value, action.threshold)))
  {
    hide WireOf, VaultAt, Ed25519.Carries, SysvarOf, EventOf, Digest, SignatureOf, Admissible, EffectiveRequirement,
         Policy.FromByte;
    EventEndorsed(host, w, l, vault);
    var v, action := VaultAt(host, w, vault).value, EventOf(host, w, l, vault).action;
    var digest := Digest(host, vault, v.nonce, WireOf(l.ix).value);
    PolicyChangeNeedsBoth(Policy.FromByte(v.policy).value, v.Threshold(), v.RecoveryEnabled(), action.newPolicy,
                          action.threshold,
                          Ed25519.Carries(host, SysvarOf(l.ix), l.ix.previous, v.owner, digest),
                          host.falcon(v.prepared, digest, SignatureOf(l.ix)) == Valid);
  }

  // -------------------------------------------------------- social recovery

  predicate Pending(s: Pair) {
    s.config.Some? && s.config.value.HasPending()
  }

  /** A proposal that was not there before comes from exactly one kind of step. */
  lemma PendingBirth(host: Host, vault: Key, slot: u64, s: Pair, e: Event, t: Pair)
    requires Next(host, vault, slot, s, e, t) && !Pending(s) && Pending(t)
    ensures e == Proposed(t.config.value.pending)
  {
    hide VaultAfter;
  }

  /** Every pending proposal has one initiating step, and since then its key, ready
      slot, guardian and delay, and the owner it would replace, have not moved. */
  lemma {:induction false} PendingOrigin(host: Host, ws: seq<World>, ls: seq<Label>, vault: Key, i: nat, j: nat)
    returns (t: nat)
    requires SoundRun(host, ws, ls) && i <= j <= |ls| && vault in host.vaults
    requires !Pending(At(host, ws, vault, i)) && Pending(At(host, ws, vault, j))
    ensures i <= t < j
    ensures EventAt(host, ws, ls, vault, t) == Proposed(At(host, ws, vault, j).config.value.pending)
    ensures forall k :: t < k <= j ==>
              && At(host, ws, vault, k).config == At(host, ws, vault, j).config
              && At(host, ws, vault, k).vault.Some? && At(host, ws, vault, j).vault.Some?
              && At(host, ws, vault, k).vault.value.owner == At(host, ws, vault, j).vault.value.owner
              && (k < j ==> !EventAt(host, ws, ls, vault, k).Finalized?)
    decreases j
  {
    hide SoundRun, Next, PairAt, EventOf, VaultOk, ConfigOk;
    assert i < j;
    RunStep(host, ws, ls, vault, j - 1);
    var s, e, u := At(host, ws, vault, j - 1), EventAt(host, ws, ls, vault, j - 1), At(host, ws, vault, j);
    if Pending(s) {
      t := PendingOrigin(host, ws, ls, vault, i, j - 1);
      PendingStep(host, vault, ws[j - 1].slot, s, e, u);
      NonceStep(host, vault, ws[j - 1].slot, s, e, u);
    } else {
      PendingBirth(host, vault, ws[j - 1].slot, s, e, u);
      ProposedEffect(host, vault, ws[j - 1].slot, s, e, u);
      t := j - 1;
    }
  }

  /** What a proposing event reads and writes. */
  lemma ProposedEffect(host: Host, vault: Key, slot: u64, s: Pair, e: Event, t: Pair)
    requires Next(host, vault, slot, s, e, t) && e.Proposed?
    ensures s.vault.Some? && t.vault == s.vault && s.config.Some? && !Pending(s) && Pending(t)
    ensures s.vault.value.RecoveryEnabled()
    ensures t.config.Some? && t.config.value.pending == e.newOwner && t.config.value.guardian == s.config.value.guardian
    ensures t.config.value.delay == s.config.value.delay && t.config.value.ready == slot + s.config.value.delay
  {
  }

  /** A step carries the signature of a guardian over the claim of a new owner. */
  predicate CarriesClaim(host: Host, l: Label, guardian: Key, vault: Key, newOwner: Key, nonce: u64) {
    l.Invoke?
    && Ed25519.Carries(host, SysvarOf(l.ix), l.ix.previous, guardian, ClaimDigest(host, vault, newOwner, nonce))
  }

  /** Every successful initiate carries its guardian's signature. */
  lemma ProposedBySignature(host: Host, w: World, l: Label, vault: Key)
    requires HostOk(host) && Inv(host, w)
    requires l.Invoke? && Admissible(host, l.ix) && EventOf(host, w, l, vault).Proposed?
    ensures VaultAt(host, w, vault).Some? && ConfigAt(host, w, vault).Some?
    ensures CarriesClaim(host, l, ConfigAt(host, w, vault).value.guardian, vault, EventOf(host, w, l, vault).newOwner,
                         VaultAt(host, w, vault).value.nonce)
  {
    hide Decide, VaultAt, ConfigAt, HostOk, Inv, NamesVault, Ed25519.Verify, Ed25519.RuntimeVerified, ClaimDigest,
         PatchFits, VaultOf, Ed25519.Carries, NewPrepared, WireOf, SysvarOf;
    var p := Decide(host, w, l.ix).value;
    ProposedInstruction(host, w, l.ix, p);
    DecidedNames(host, w, l.ix, p);
    InUse(host, l.ix, vault);
    ProposedFits(host, w, l.ix, p);
    var c, v := ConfigAt(host, w, vault).value, VaultAt(host, w, vault).value;
    Ed25519.IntrospectionSound(host, SysvarOf(l.ix), l.ix.previous, c.guardian,
                               ClaimDigest(host, vault, l.ix.data[1..], v.nonce));
  }

  /** Timelock over runs: a successful finalize at step `j` was initiated at an
      earlier step `t` with the same key, under the guardian and delay configured
      still, at least that many slots before, with recovery enabled at both steps
      and neither owner change nor cancellation in between. */
  lemma Timelock(host: Host, ws: seq<World>, ls: seq<Label>, vault: Key, j: nat) returns (t: nat)
    requires SoundRun(host, ws, ls) && j < |ls|
    requires !Pending(At(host, ws, vault, 0))
    requires EventAt(host, ws, ls, vault, j).Finalized?
    ensures t < j
    ensures At(host, ws, vault, t).vault.Some? && At(host, ws, vault, t).config.Some?
    ensures At(host, ws, vault, j).vault.Some? && At(host, ws, vault, j).config.Some?
            && At(host, ws, vault, j + 1).vault.Some?
    ensures var v, c := At(host, ws, vault, t).vault.value, At(host, ws, vault, t).config.value;
            var u, d := At(host, ws, vault, j).vault.value, At(host, ws, vault, j).config.value;
            var newOwner := At(host, ws, vault, j + 1).vault.value.owner;
            && EventAt(host, ws, ls, vault, t) == Proposed(newOwner)
            && CarriesClaim(host, ls[t], c.guardian, vault, newOwner, v.nonce)
            && c.guardian == d.guardian && c.delay == d.delay && d.delay >= 1
            && ws[j].slot >= ws[t].slot + d.delay
            && v.RecoveryEnabled() && u.RecoveryEnabled()
            && forall k :: t < k <= j ==>
                 && At(host, ws, vault, k).vault.Some? && At(host, ws, vault, k).vault.value.owner == v.owner
                 && At(host, ws, vault, k).config == Some(d) && d.pending == newOwner
  {
    hide Next, Run;
    hide HostOk, PairAt, EventOf, VaultOk, Step, CarriesClaim, Inv;
    EventInUse(host, ws, ls, vault, j);
    RunStep(host, ws, ls, vault, j);
    FinalizedEffect(host, vault, ws[j].slot, At(host, ws, vault, j), At(host, ws, vault, j + 1));
    t := PendingOrigin(host, ws, ls, vault, 0, j);
    RunStep(host, ws, ls, vault, t);
    RunKeepsInv(host, ws, ls, t, t);
    ProposedEffect(host, vault, ws[t].slot, At(host, ws, vault, t), EventAt(host, ws, ls, vault, t),
                   At(host, ws, vault, t + 1));
    GuardianSigned(host, ws, ls, vault, t);
  }

  lemma FinalizedEffect(host: Host, vault: Key, slot: u64, s: Pair, t: Pair)
    requires Next(host, vault, slot, s, Finalized, t)
    ensures s.vault.Some? && s.config.Some? && t.vault.Some? && Pending(s) && !Pending(t)
    ensures s.vault.value.RecoveryEnabled() && slot >= s.config.value.ready
    ensures t.vault.value.owner == s.config.value.pending && t.vault.value.nonce == s.vault.value.nonce + 1
  {
  }

  lemma GuardianSigned(host: Host, ws: seq<World>, ls: seq<Label>, vault: Key, t: nat)
    requires SoundRun(host, ws, ls) && t < |ls| && EventAt(host, ws, ls, vault, t).Proposed?
    ensures At(host, ws, vault, t).vault.Some? && At(host, ws, vault, t).config.Some?
    ensures CarriesClaim(host, ls[t], At(host, ws, vault, t).config.value.guardian, vault,
                         EventAt(host, ws, ls, vault, t).newOwner, At(host, ws, vault, t).vault.value.nonce)
  {
    hide HostOk, Inv, Decide, VaultAt, ConfigAt, CarriesClaim, NamesVault;
    assert Step(host, ws[t], ls[t], ws[t + 1]);
    RunKeepsInv(host, ws, ls, t, t);
    ProposedBySignature(host, ws[t], ls[t], vault);
  }

  lemma RecoveryRequiresFalcon(v: Vault, action: Action)
    requires action.RecoverAccount? && action.op.RotateOwner? && RequiredOf(v, action).Ok?
    ensures RequiredOf(v, action) == Ok(Falcon) && v.RecoveryEnabled()
  {
  }

  lemma RotationRequiresPolicy(v: Vault, action: Action)
    requires action.RotateEd25519Key? && RequiredOf(v, action).Ok?
    ensures Policy.FromByte(v.policy).Some?
    ensures RequiredOf(v, action) == Ok(Policy.FromByte(v.policy).value.SignatureRequirement(action, v.Threshold()))
  {
    hide Policy.FromByte;
  }

  /** Owner provenance: a changed owner comes from a rotation endorsed under the
      current policy, from an opted-in recovery endorsed by Falcon, or from a matured
      proposal; each bumps the nonce by one and leaves nothing pending. */
  lemma OwnerProvenance(host: Host, ws: seq<World>, ls: seq<Label>, vault: Key, i: nat)
    requires SoundRun(host, ws, ls) && i < |ls| && At(host, ws, vault, i).vault.Some?
    requires At(host, ws, vault, i + 1).vault.Some?
    requires At(host, ws, vault, i + 1).vault.value.owner != At(host, ws, vault, i).vault.value.owner
    ensures var v, u := At(host, ws, vault, i).vault.value, At(host, ws, vault, i + 1).vault.value;
            var e := EventAt(host, ws, ls, vault, i);
            && (|| (&& e.Signed? && e.action == RotateEd25519Key(u.owner) && Policy.FromByte(v.policy).Some?
                    && Endorsed(host, ws[i], ls[i], vault,
                                Policy.FromByte(v.policy).value.SignatureRequirement(e.action, v.Threshold())))
                || (&& e.Signed? && e.action == RecoverAccount(RotateOwner, u.owner) && v.RecoveryEnabled()
                    && Endorsed(host, ws[i], ls[i], vault, Falcon))
                || (&& e.Finalized? && v.RecoveryEnabled() && Pending(At(host, ws, vault, i))
                    && At(host, ws, vault, i).config.value.pending == u.owner
                    && ws[i].slot >= At(host, ws, vault, i).config.value.ready))
            && u.nonce == v.nonce + 1
            && !Pending(At(host, ws, vault, i + 1))
  {
    hide HostOk, Inv, Next, Decide, VaultAt, ConfigAt, EventOf, PairOk, Endorsed, RequiredOf, Admissible,
         Policy.FromByte;
    assert Step(host, ws[i], ls[i], ws[i + 1]);
    VaultInUse(host, ws, ls, vault, i);
    RunStep(host, ws, ls, vault, i);
    var s, e := At(host, ws, vault, i), EventAt(host, ws, ls, vault, i);
    OwnerStep(host, vault, ws[i].slot, s, e, At(host, ws, vault, i + 1));
    if e.Signed? {
      EventEndorsed(host, ws[i], ls[i], vault);
      if e.action.RotateEd25519Key? {
        RotationRequiresPolicy(s.vault.value, e.action);
      } else {
        RecoveryRequiresFalcon(s.vault.value, e.action);
      }
    }
  }

  /** After an owner change no finalize succeeds before a fresh initiate. */
  lemma FreshInitiateNeeded(host: Host, ws: seq<World>, ls: seq<Label>, vault: Key, i: nat, j: nat) returns (t: nat)
    requires SoundRun(host, ws, ls) && i < j < |ls|
    requires At(host, ws, vault, i).vault.Some? && At(host, ws, vault, i + 1).vault.Some?
    requires At(host, ws, vault, i + 1).vault.value.owner != At(host, ws, vault, i).vault.value.owner
    requires EventAt(host, ws, ls, vault, j).Finalized?
    ensures i < t < j && EventAt(host, ws, ls, vault, t).Proposed?
  {
    hide SoundRun, PairAt, EventOf, PairOk, Next;
    VaultInUse(host, ws, ls, vault, i);
    RunStep(host, ws, ls, vault, i);
    OwnerStep(host, vault, ws[i].slot, At(host, ws, vault, i), EventAt(host, ws, ls, vault, i),
              At(host, ws, vault, i + 1));
    RunStep(host, ws, ls, vault, j);
    FinalizedEffect(host, vault, ws[j].slot, At(host, ws, vault, j), At(host, ws, vault, j + 1));
    t := PendingOrigin(host, ws, ls, vault, i + 1, j);
  }

  /** A vault that has spent a nonce above `floor`, or still has its proposal. */
  predicate PendingOrPast(s: Pair, floor: u64) {
    s.vault.Some? && s.vault.value.nonce >= floor && (Pending(s) || s.vault.value.nonce > floor)
  }

  lemma PastHasVault(s: Pair, floor: u64)
    requires PendingOrPast(s, floor)
    ensures s.vault.Some?
  {
  }

  lemma PendingOrPastStep(host: Host, vault: Key, slot: u64, s: Pair, e: Event, t: Pair, floor: u64)
    requires Next(host, vault, slot, s, e, t) && PendingOrPast(s, floor)
    ensures PendingOrPast(t, floor)
  {
    NonceStep(host, vault, slot, s, e, t);
    if Pending(s) {
      PendingStep(host, vault, slot, s, e, t);
    }
  }

  /** While a proposal stays it blocks another, and losing it costs a nonce. */
  lemma {:induction false} PendingOrConsumed(
      host: Host, ws: seq<World>, ls: seq<Label>, vault: Key, i: nat, j: nat, floor: u64)
    requires SoundRun(host, ws, ls) && i <= j <= |ls|
    requires PendingOrPast(At(host, ws, vault, i), floor)
    ensures PendingOrPast(At(host, ws, vault, j), floor)
    decreases j
  {
    hide *;
    PastHasVault(At(host, ws, vault, i), floor);
    VaultInUse(host, ws, ls, vault, i);
    if i < j {
      PendingOrConsumed(host, ws, ls, vault, i, j - 1, floor);
      RunStep(host, ws, ls, vault, j - 1);
      PendingOrPastStep(host, vault, ws[j - 1].slot, At(host, ws, vault, j - 1), EventAt(host, ws, ls, vault, j - 1),
                        At(host, ws, vault, j), floor);
    }
  }

  /** Guardian proposals are single use: two successful initiates for a vault never
      see the same nonce, though initiating consumes none. */
  lemma ProposalsSingleUse(host: Host, ws: seq<World>, ls: seq<Label>, vault: Key, i: nat, j: nat)
    requires SoundRun(host, ws, ls) && i < j < |ls|
    requires EventAt(host, ws, ls, vault, i).Proposed? && EventAt(host, ws, ls, vault, j).Proposed?
    ensures At(host, ws, vault, i).vault.Some? && At(host, ws, vault, j).vault.Some?
    ensures At(host, ws, vault, i).vault.value.nonce < At(host, ws, vault, j).vault.value.nonce
  {
    hide SoundRun, Next, PairAt, EventOf, PairOk;
    EventInUse(host, ws, ls, vault, i);
    RunStep(host, ws, ls, vault, i);
    ProposedEffect(host, vault, ws[i].slot, At(host, ws, vault, i), EventAt(host, ws, ls, vault, i),
                   At(host, ws, vault, i + 1));
    RunStep(host, ws, ls, vault, j);
    ProposedEffect(host, vault, ws[j].slot, At(host, ws, vault, j), EventAt(host, ws, ls, vault, j),
                   At(host, ws, vault, j + 1));
    PendingOrConsumed(host, ws, ls, vault, i + 1, j, At(host, ws, vault, i).vault.value.nonce);
  }

  /** No guardian preimage supports two successful initiates, on one vault or several. */
  lemma GuardianClaimsOnce(host: Host, ws: seq<World>, ls: seq<Label>, vault: Key, other: Key, i: nat, j: nat)
    requires SoundRun(host, ws, ls) && i < j < |ls|
    requires EventAt(host, ws, ls, vault, i).Proposed? && EventAt(host, ws, ls, other, j).Proposed?
    requires At(host, ws, vault, i).vault.Some? && At(host, ws, other, j).vault.Some?
    ensures SocialPreimage(Claim(host, vault, EventAt(host, ws, ls, vault, i).newOwner,
                                 At(host, ws, vault, i).vault.value.nonce))
            != SocialPreimage(Claim(host, other, EventAt(host, ws, ls, other, j).newOwner,
                                    At(host, ws, other, j).vault.value.nonce))
  {
    hide SoundRun, PairAt, EventOf, SocialPreimage;
    var g := Claim(host, vault, EventAt(host, ws, ls, vault, i).newOwner, At(host, ws, vault, i).vault.value.nonce);
    var h := Claim(host, other, EventAt(host, ws, ls, other, j).newOwner, At(host, ws, other, j).vault.value.nonce);
    if SocialPreimage(g) == SocialPreimage(h) {
      SocialPreimageInjective(g, h);
      ProposalsSingleUse(host, ws, ls, vault, i, j);
    }
  }

  /** Nothing happens to a stored pair without its authority: a change is a creation, a
      signed action endorsed as the vault required, a proposal its guardian signed, or
      a matured proposal taking effect. */
  lemma ChangeHasAuthority(host: Host, ws: seq<World>, ls: seq<Label>, vault: Key, i: nat)
    requires SoundRun(host, ws, ls) && i < |ls| && vault in host.vaults
    requires At(host, ws, vault, i + 1) != At(host, ws, vault, i)
    ensures var s, e := At(host, ws, vault, i), EventAt(host, ws, ls, vault, i);
            || (e.Created? && s.vault.None?)
            || (&& e.Signed? && s.vault.Some? && RequiredOf(s.vault.value, e.action).Ok?
                && Endorsed(host, ws[i], ls[i], vault, RequiredOf(s.vault.value, e.action).value))
            || (&& e.Proposed? && s.vault.Some? && s.config.Some? && s.vault.value.RecoveryEnabled()
                && CarriesClaim(host, ls[i], s.config.value.guardian, vault, e.newOwner, s.vault.value.nonce))
            || (&& e.Finalized? && Pending(s) && s.vault.Some? && s.vault.value.RecoveryEnabled()
                && ws[i].slot >= s.config.value.ready)
  {
    hide HostOk, Inv, Decide, VaultAt, ConfigAt, EventOf, PairOk, Endorsed, RequiredOf, Admissible, VaultAfter,
         ConfigAfter, Permits, CarriesClaim, VaultOk;
    assert Step(host, ws[i], ls[i], ws[i + 1]);
    RunStep(host, ws, ls, vault, i);
    var e := EventAt(host, ws, ls, vault, i);
    if e.Signed? {
      EventEndorsed(host, ws[i], ls[i], vault);
    } else if e.Proposed? {
      GuardianSigned(host, ws, ls, vault, i);
    }
  }
}
