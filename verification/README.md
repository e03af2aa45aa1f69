# DualKey: a verified model of the on-chain account

DualKey guards a Solana vault with two signature schemes at once, Ed25519 and
Falcon-512. A vault is a 1120-byte account; beside it an optional 128-byte recovery
configuration lets a guardian propose a new owner that takes effect after a delay.
Ten instructions step over vault, configuration, lamports and the slot clock. This
project models those instructions, the byte layouts and codecs under them and the
client that builds them, and proves what they promise over whole histories.

## How the model is built

| file | holds |
|---|---|
| `Prelude`, `Bytes`, `Intent` | results and error codes; little-endian words and region copies; actions, policies and the requirement lattice |
| `Codec`, `Ed25519`, `SplToken` | the three fixed-width encodings, the precompile parser, the transfer-hook walk |
| `State`, `Recovery` | the two accounts: record, byte layout, and a class that edits a borrowed array in place |
| `Host`, `Authorize`, `Protocol` | the world, shared authorization, and each instruction as a decision: its checks in order with their exact errors, then the patch it makes |
| `Writes`, `Bank`, `Handlers`, `SocialHandlers`, `Runtime` | the same instructions as they run: accounts edited in place, some writes before the last check, undone by the runtime when an instruction fails |
| `Outcome`, `Machine` | what success of each instruction means; the protocol of one vault, freed of bytes and addresses |
| `Ledger`, `Steps` | the world's invariant, and the refinement: every step of the world is one step of every vault's machine |
| `Runs`, `Custody`, `Effects`, `Conservation` | theorems over runs and steps |
| `Client`, `Completeness` | the instruction builders, and exactly when the program accepts what they build |
| `Bytewise`, `ByteEffects`, `ByteRuns` | what is signed, who may act, what every instruction does and what runs guarantee, over literal offsets, codes and values of instruction data and account bytes |
| `Lifecycle` | a deployment and a run that meet every assumption |

Three layers meet. The handlers, methods over mutable accounts, are proved to agree
with the decisions on result, error code and final accounts (`Runtime.ProcessInstruction`).
The decisions, over byte-level worlds with any number of vaults, are proved to refine
the machine of a single vault (`Steps.StepProjects`). The theorems about histories are
proved on the machine and hold of the bytes, because buffers and records correspond
one to one.

Handlers and decisions share definitions: codes of actions and policies, address seeds, the
records an instruction leaves. The byte-level modules say what those definitions must be
without using them. Their statements name instruction bytes, account bytes before and
after, slots, lamports and the oracles, and no function that computes an outcome.

A run is any sequence of steps, each an instruction or anything else that may happen on
the chain: deposits, other programs, passing time. Runs start from any world that
satisfies the invariant; a chain on which the program has no accounts yet does
(`Ledger.Genesis`).

## What is assumed

Everything the program calls but does not contain is an arbitrary function of the
`Host`: SHA-256, the two ways of deriving program addresses, Ed25519 and Falcon
verification, Falcon key preparation, and the token programs. `Host.HostOk` and
`Ledger.Admissible` state all that is taken for granted about them and about the
runtime:

- the search for a program address and its check agree;
- among the addresses in use as vaults, finitely many in any history (`vaults`, which every
  instruction's vault must belong to), no two derive the same configuration address;
  two that did would be a SHA-256 collision;
- rent minima are positive, and this program is neither the System program nor a token program;
- no signer of an instruction is the vault or the configuration address that the program
  derives from one of that instruction's accounts;
- the Ed25519 precompile has verified the triple that its own offsets name;
- other programs cannot touch data or take lamports of this program's accounts, and an
  account handed to the program is zero-filled.

Nothing is said of addresses the history does not use: other programs may hold derived
accounts wherever they like. `Lifecycle.Recovered` shows that the assumptions can be met
together, in a run that exercises the whole recovery protocol.

Nothing is assumed about collisions of SHA-256 on signed data: where a digest matters,
the theorem speaks of the preimage, or says that a collision is exhibited.

The rent minima, the chain domain and the well-known program addresses are parameters.
Failures inside the System or token programs surface as one error, since the runtime
then aborts the instruction with the callee's code.

Where the code and its documentation differ, the model follows the code. The threat
model speaks of cancelling a proposal before its timelock elapses
(docs/threat-model.md:90); the code lets a pending proposal be cancelled, with recovery
enabled, at any time until it is finalized. The comment on the transfer-hook check gives a
layout with an optional zero pad (program/src/spl_token.rs:55); the code tells padded
from unpadded data by its content, so unpadded data that is zero where the pad would be
is read as padded. `SplToken.HookCheckSound` shows this never lets a hook through and
says exactly when it refuses an account it need not.

## Model

| member | source | states |
|---|---|---|
| Bytes.FromToLe | core/src/state.rs:173-180 | reading back a little-endian integer that fits its field gives the integer |
| Bytes.ToFromLe | core/src/state.rs:173-180 | writing back the integer read from a field gives the field's bytes |
| Bytes.WordRoundTrip | core/src/recovery.rs:154-165 | 32- and 64-bit little-endian words round-trip in both directions |
| Bytes.LittleEndian | core/src/state.rs:173-180 | words of two, four and eight bytes have their least significant byte first, byte by byte |
| Intent.MeetIsConjunction | core/src/policy.rs:49-58 | the meet of two requirements accepts exactly the signature sets that both accept |
| Codec.CanonicalPreimage | core/src/canonical.rs:63-134 | the region-by-region fill of a 172-byte array produces the specified preimage |
| Codec.EncodeWire | core/src/wire.rs:61-117 | the separately written 49-byte encoder produces the specified fragment |
| Codec.GuardianPreimage | core/src/recovery.rs:56-82 | the moving-index fill of a 169-byte array produces the specified guardian preimage |
| Codec.WireRoundTrip | core/src/wire.rs:61-140 | decoding inverts encoding for every expiry and all eight actions |
| Codec.DecodeDomain | core/src/wire.rs:123-239 | exactly which fragments decode, any pad included, and the error of those that do not |
| Codec.ReencodeNormalises | core/src/wire.rs:153-239 | re-encoding an accepted fragment is a normalisation: it decodes to the same action, and gives the input back if and only if the ignored pads were zero |
| Codec.OneFormat | core/src/canonical.rs:72-131 | bytes 123..172 of the preimage are the wire fragment of the same intent and decode to it |
| Codec.PreimageInjective | core/src/canonical.rs:63-134 | distinct intents have distinct signing preimages |
| Codec.SocialPreimageInjective | core/src/recovery.rs:56-82 | distinct guardian claims have distinct preimages |
| Codec.DomainsSeparate | core/src/recovery.rs:42-51 | a reconstructed intent preimage never equals a guardian preimage nor starts with one; they part at byte 18 |
| Codec.FragmentFields | core/src/wire.rs:153-239 | for every accepted fragment: byte 8 is 1 to 8 exactly for the eight actions in their documented order, and each action's fields stand at their literal offsets, the recovery operations at bytes 0, 1 and 2 |
| Codec.BodyIsNormal | core/src/wire.rs:69-117 | the body that is signed is the accepted body with every ignored pad zeroed, under the same tag |
| Codec.PreimageBytes | core/src/canonical.rs:63-134 | the 172 signed bytes at literal offsets: domain tag, version, chain, program, vault, nonce, expiry, tag at byte 131, body |
| Codec.SocialBytes | core/src/recovery.rs:42-82 | the 169 guardian bytes at literal offsets: both tags spelled out, chain, program, vault, new owner, nonce |
| State.VaultRoundTrip | core/src/state.rs:110-122 | a record written at the layout's offsets reads back as itself |
| State.BytesRoundTrip | core/src/state.rs:110-122 | a 1120-byte buffer is determined by the record read from it, so statements about records are statements about bytes |
| State.Raised | core/src/state.rs:288-290 | testing a mask in the flag byte reads the named bit, for both flags |
| State.Raise | core/src/state.rs:292-300 | raising a mask in the flag byte sets the named bit and no other |
| State.Lower | core/src/state.rs:292-300 | lowering a mask in the flag byte clears the named bit and no other |
| State.Vault.WithRecovery | core/src/state.rs:292-300 | the recovery flag moves, the threshold flag and the reserved bits stay |
| State.Vault.WithThreshold | core/src/state.rs:347-362 | the threshold reads back as set, an absent one zeroes its bytes, the recovery flag and the reserved bits stay |
| State.HybridAccount.TryFromBytes | core/src/state.rs:232-237 | a buffer is a vault view if and only if its length is 1120 |
| State.HybridAccount.SetVersion | core/src/state.rs:248-250 | the in-place write is the record update of that field alone |
| State.HybridAccount.SetBump | core/src/state.rs:256-258 | as above, for the bump |
| State.HybridAccount.AccountIndex | core/src/state.rs:260-264 | the getter reads the record's index |
| State.HybridAccount.SetAccountIndex | core/src/state.rs:266-269 | the in-place write is the record update of the index alone |
| State.HybridAccount.GetPolicy | core/src/state.rs:271-274 | the getter decodes the policy byte |
| State.HybridAccount.SetPolicy | core/src/state.rs:276-278 | the in-place write is the record update of the policy byte alone |
| State.HybridAccount.RecoveryEnabled | core/src/state.rs:288-290 | the getter reads flag bit 0 |
| State.HybridAccount.SetRecoveryEnabled | core/src/state.rs:292-300 | the masked write to the flag byte is the record update of flag bit 0 alone |
| State.HybridAccount.Owner | core/src/state.rs:302-306 | the getter reads the record's owner |
| State.HybridAccount.SetOwner | core/src/state.rs:308-310 | the in-place write is the record update of the owner alone |
| State.HybridAccount.FalconHash | core/src/state.rs:312-318 | the getter reads the record's Falcon key hash |
| State.HybridAccount.SetFalconHash | core/src/state.rs:320-323 | the in-place write is the record update of the hash alone |
| State.HybridAccount.Nonce | core/src/state.rs:325-329 | the getter reads the record's nonce |
| State.HybridAccount.SetNonce | core/src/state.rs:331-333 | the in-place write is the record update of the nonce alone |
| State.HybridAccount.FalconRequiredAbove | core/src/state.rs:336-345 | the getter reads the threshold exactly when its flag is set |
| State.HybridAccount.SetFalconRequiredAbove | core/src/state.rs:347-362 | the interleaved writes to flag byte and value bytes are one record update of the threshold |
| State.HybridAccount.PreparedKey | core/src/state.rs:365-369 | the getter reads the prepared key |
| State.HybridAccount.StorePreparedKey | core/src/state.rs:372-376 | the in-place write is the record update of the prepared key alone |
| State.HybridAccount.InitializeWithoutFalconKey | core/src/state.rs:387-408 | succeeds if and only if the buffer has the right length, and leaves a whole fresh record whatever was there |
| Recovery.ConfigRoundTrip | core/src/recovery.rs:27-37 | a configuration written at its offsets reads back as itself |
| Recovery.BytesRoundTrip | core/src/recovery.rs:27-37 | a 128-byte buffer is determined by the configuration read from it |
| Recovery.RecoveryConfig.TryFromBytes | core/src/recovery.rs:107-115 | a buffer is a configuration view if and only if length and version are right |
| Recovery.RecoveryConfig.Initialize | core/src/recovery.rs:118-135 | the whole buffer becomes a fresh configuration with nothing pending |
| Recovery.RecoveryConfig.SetGuardian | core/src/recovery.rs:149-152 | the in-place write is the record update of the guardian alone |
| Recovery.RecoveryConfig.SetDelay | core/src/recovery.rs:162-165 | the in-place write is the record update of the delay alone |
| Recovery.RecoveryConfig.SetPending | core/src/recovery.rs:176-180 | the in-place write is the record update of the pending key alone |
| Recovery.RecoveryConfig.SetReady | core/src/recovery.rs:191-194 | the in-place write is the record update of the ready slot alone |
| Recovery.RecoveryConfig.HasPending | core/src/recovery.rs:196-198 | a proposal is pending exactly when the stored key is not zero |
| Recovery.RecoveryConfig.ClearPending | core/src/recovery.rs:200-203 | key and ready slot become zero, everything else stays |
| Ed25519.InspectAccepts | program/src/auth/ed25519.rs:98-144 | for every byte string, key and digest: accepted exactly when it holds one signature, all offsets into this instruction, a 32-byte message, in-bounds slices, and the expected key and digest at the named offsets; otherwise which of the two errors |
| Ed25519.IntrospectionSound | program/src/auth/ed25519.rs:77-145 | for any bytes whose named triple the runtime verified, the parser accepts if and only if the real sysvar was read and the precompile instruction in front carries, at its own offsets, the expected key, the expected digest and a signature that verifies |
| Ed25519.PackedDataAccepted | client/src/onchain.rs:564-570 | the 144-byte instruction the client packs is accepted for its key and digest |
| Ed25519.PackedTriple | client/src/onchain.rs:564-570 | the key, the signature and the message that the packed instruction names at its own offsets are the given ones |
| Ed25519.CarriesPlainly | program/src/auth/ed25519.rs:98-144 | what acceptance means in literal header bytes and offsets of the instruction in front |
| SplToken.RejectIfTransferHook | program/src/spl_token.rs:57-100 | the loop terminates and returns what the recursive reader returns, for data and base of any length |
| SplToken.ReadTlvExact | program/src/spl_token.rs:74-98 | the reader accepts exactly the areas that are hook-free in-bounds entries up to an end marker or the last three bytes |
| SplToken.LayoutLocated | program/src/spl_token.rs:62-74 | in the declared layout the walk starts at the entries if and only if the data is padded, too short to be padded, or not all zero where the padding would be |
| SplToken.HookCheckExact | program/src/spl_token.rs:53-100 | in the declared layout with a non-zero account type, the check passes if and only if the entries are hook-free |
| SplToken.HookCheckSound | program/src/spl_token.rs:57-100 | with any account type, data that passes has hook-free entries, and the check is exact if and only if the data does not read as padded or what stands at the padded position is itself hook-free |
| SplToken.ZeroAccountTypeRefused | program/src/spl_token.rs:61-73 | a concrete unpadded account with account type 0 and hook-free entries is refused |
| SplToken.HooksRefused | program/src/spl_token.rs:34-37 | an entry of kind 14 or 15 anywhere among the entries is refused |
| SplToken.FirstHookRefused | program/src/spl_token.rs:86-90 | an area whose first entry has kind 14 or 15 is refused, whatever follows it |
| Authorize.JudgeExact | program/src/authorize.rs:140-178 | collect-then-evaluate accepts exactly the requirement's predicate over the two verdicts |
| Authorize.CollectAndEvaluate | program/src/authorize.rs:140-178 | the short-circuiting updates of the two validity flags, followed by evaluation, give that judgement and its error |
| Authorize.EvaluatePolicyAgrees | program/src/auth/policy.rs:66-80 | the context-free evaluation agrees with the action-aware requirement under the four policies it can judge, and never accepts under the other two |
| Authorize.AuthorizedExact | program/src/authorize.rs:37-91 | authorization succeeds if and only if the vault is stored and well-formed, the intent is unexpired, the nonce is below the maximum and the effective requirement accepts; it yields the digest and the next nonce |
| Authorize.PolicyChangeNeedsBoth | program/src/authorize.rs:98-137 | a policy change is authorized by exactly the signatures that the current and the target policy both accept |
| Authorize.WhoCanActAlone | core/src/policy.rs:126-166 | for every policy, action and threshold: exactly when Ed25519 alone suffices, exactly when Falcon alone does; neither never does and both always do |
| Authorize.WhoMayAuthorize | program/src/authorize.rs:98-137 | for every policy, threshold, flag, action and pair of verdicts: exactly who can authorize; a recovery rotation is Falcon's and only while enabled, a policy change takes both schemes or one that may act alone before and after, anything else both or one that may act alone under the stored policy |
| Authorize.HybridAndNeedsBoth | program/src/authorize.rs:98-137 | under HybridAnd with recovery disabled every authorizable action needs both schemes |
| Host.SeedBytes | core/src/state.rs:46-51 | the seeds of vault and configuration addresses spelled out, the index in four bytes; different creators, indices or vaults have different seeds |
| Bytewise.PolicyByteMeans | core/src/policy.rs:13-78 | what each policy byte accepts: 0 Ed25519, 1 Falcon, 2 both, 3 either, 4 by privilege, 5 by threshold, any other nothing |
| Bytewise.AuthorizedInBytes | program/src/authorize.rs:37-178 | authorization succeeds if and only if the signature has 666 bytes, the intent is unexpired, the account is a program account of 1120 bytes with version 1 and a nonce below the maximum, and its policy byte, flag bits and threshold bytes accept the two verdicts |
| Bytewise.SignedMeans | program/src/authorize.rs:37-91 | every successful signed instruction: discriminator and tag agree, it is unexpired, and the signatures it carries are those the stored policy byte asks for, over 172 bytes that name chain, program, this vault, its stored nonce and what the instruction itself carries; a new Falcon key has signed too |
| Bank.Bank.ReconstructAndDigest | program/src/reconstruct.rs:28-57 | rebuilds the intent from stored context through the array encoder and returns its digest and nonce, or the first failing check's error |
| Bank.Bank.Authorize | program/src/authorize.rs:37-91 | the step-by-step checks return the specified authorization or error and change nothing |
| Bank.Bank.BumpNonce | program/src/execute.rs:195-202 | only the vault's nonce changes |
| Bank.Bank.TransferSol | program/src/execute.rs:205-236 | moves the amount while rent stays covered; on overflow the debit has already happened |
| Bank.Bank.ApplyEd25519Rotation | program/src/rotate.rs:188-200 | nonce and owner change, nothing else |
| Bank.Bank.ApplyFalconRotation | program/src/rotate.rs:205-226 | nonce, hash and prepared key change together, or nothing if the key cannot be prepared |
| Bank.Bank.ApplyPolicyChange | program/src/change_policy.rs:111-125 | nonce, policy and threshold change, nothing else |
| Bank.Bank.ApplyRecovery | program/src/recover.rs:156-185 | refuses a toggle that changes nothing, after the nonce has been written |
| Bank.Bank.ClearPendingAfterOwnerChange | program/src/social_recovery.rs:61-82 | an empty configuration address passes, an existing configuration loses its proposal, anything else is refused unchanged |
| Bank.Bank.Propose | program/src/social_recovery.rs:303-317 | writes key and ready slot unless a proposal is pending or the slot overflows |
| Bank.Bank.TakePending | program/src/social_recovery.rs:356-370 | hands out the pending key and clears it, if there is one and it has matured where that is asked |
| Bank.Bank.InstallOwner | program/src/social_recovery.rs:372-379 | owner and nonce change together, or nothing at the maximum nonce |
| Bank.Bank.UpdateConfig | program/src/social_recovery.rs:206-218 | guardian and delay change if nothing is pending |
| Bank.Bank.InitializeVault | program/src/initialize.rs:154-168 | a claimed account becomes a whole fresh vault; if the key cannot be prepared the header has been written already |
| Handlers.CreateVaultAccount | program/src/initialize.rs:208-255 | tops up exactly the shortfall, then allocates and assigns |
| Handlers.InitializeHandler | program/src/initialize.rs:105-172 | decides and writes what Initialize specifies, with its exact errors |
| Handlers.TransferSolHandler | program/src/execute.rs:103-144 | decides and writes what a SOL transfer specifies, with its exact errors |
| Handlers.TransferSpl | program/src/spl_token.rs:104-233 | the checks before the token call, in order, and what the call leaves |
| Handlers.TransferSplHandler | program/src/execute.rs:146-193 | decides and writes what a token transfer specifies; writing the nonce first changes nothing the token checks read |
| Handlers.ExecuteHandler | program/src/execute.rs:64-101 | dispatches on the decoded action and refuses the others |
| Handlers.RotateEd25519Handler | program/src/rotate.rs:63-116 | decides and writes what an owner rotation specifies, clearing any proposal |
| Handlers.RotateFalconHandler | program/src/rotate.rs:119-186 | decides and writes what a Falcon rotation specifies: hash binding, authorization, possession, preparation |
| Handlers.ChangePolicyHandler | program/src/change_policy.rs:42-109 | decides and writes what a policy change specifies, with its exact errors |
| Handlers.RecoverHandler | program/src/recover.rs:61-146 | decides and writes what the three recovery operations specify |
| SocialHandlers.CreateConfig | program/src/social_recovery.rs:103-139 | pays the rent, claims the address and leaves a fresh configuration |
| SocialHandlers.SetRecoveryConfigHandler | program/src/social_recovery.rs:142-235 | decides and writes what setting the configuration specifies; writing it before the vault's nonce makes no difference |
| SocialHandlers.InitiateHandler | program/src/social_recovery.rs:241-324 | decides and writes what a guardian proposal specifies |
| SocialHandlers.FinalizeHandler | program/src/social_recovery.rs:327-387 | decides and writes what finalization specifies, though the proposal is cleared before the nonce can overflow |
| SocialHandlers.CancelHandler | program/src/social_recovery.rs:390-457 | decides and writes what cancellation specifies |
| Runtime.Process | program/src/processor.rs:24-77 | dispatch over the ten instructions agrees with the decision on result, error and accounts |
| Runtime.ProcessInstruction | program/src/lib.rs:47-53 | with the runtime's rollback, a call is exactly one step of the ledger: the decided patch, or nothing at all; it keeps the invariant |
| Outcome.SignedInstruction | program/src/processor.rs:48-75 | every successful signed instruction, of all seven kinds, has one description: authorized digest, only discriminator, permitted action, record, configuration and payment it leaves |
| Outcome.CreatedInstruction | program/src/initialize.rs:105-172 | what a successful Initialize read and writes |
| Outcome.ProposedInstruction | program/src/social_recovery.rs:241-324 | what a successful proposal read and writes |
| Outcome.FinalizedInstruction | program/src/social_recovery.rs:327-387 | what a successful finalization read and writes |
| Machine.VaultAfterKeeps | program/src/change_policy.rs:111-125 | a signed action bumps the nonce by one and changes owner, policy and threshold, recovery flag, or Falcon key only if it is the action for that |
| Machine.NextKeepsPairOk | program/src/social_recovery.rs:61-82 | every event of a vault keeps the vault invariant and the joint invariant of vault and configuration |
| Machine.NonceStep | program/src/authorize.rs:70-72 | exactly the consuming events advance the nonce, by one, and none is possible at the maximum; bump and index never change |
| Machine.OwnerStep | program/src/rotate.rs:95-108 | the only three ways the owner changes, each bumping the nonce and leaving nothing pending |
| Machine.PendingStep | program/src/social_recovery.rs:308-311 | a pending proposal blocks another, is frozen with its guardian, delay and owner, and is lost only to an event that consumes a nonce |
| Ledger.ApplyAt | program/src/execute.rs:195-236 | the account at every address after a successful instruction |
| Ledger.VaultAfterPatch | program/src/authorize.rs:58-61 | a successful instruction changes the record of its own vault only |
| Ledger.ConfigAfterPatch | program/src/social_recovery.rs:44-54 | a successful instruction changes the configuration of its own vault only |
| Steps.StepProjects | program/src/processor.rs:24-77 | refinement: whatever happens in the world, bytes and all, each vault takes one step of its own machine |
| Steps.StepKeepsInv | program/src/initialize.rs:105-172 | every step keeps the world's invariant, rent floors included |
| Runs.RunKeepsInv | program/src/lib.rs:47-53 | every reachable world satisfies the invariant and time does not run back |
| Runs.ReachableVaultInvariant | core/src/state.rs:387-408 | in every state reachable from a chain without program accounts: version 1, flag bits 0-1 only, threshold flag implies FalconAboveThreshold, unset threshold bytes zero, hash and prepared key of one wire key, rent held; beside it guardian non-zero, delay at least 1, pending key zero if and only if ready slot zero, pending key not the owner, ready slot at least the delay |
| Runs.NonceCounts | program/src/authorize.rs:70-72 | over any run a vault stays, keeps bump and index, and its nonce grows by the number of consuming steps |
| Runs.CreatedOnce | program/src/initialize.rs:137-139 | no vault is initialised twice, and its nonce is the number of consuming steps since |
| Runs.AtMostOnce | program/src/authorize.rs:53-72 | no canonical preimage authorizes two successful steps, in any interleaving over any number of vaults |
| Runs.SignedUsesPreimage | program/src/reconstruct.rs:28-57 | every successful signed instruction has such a preimage |
| Runs.DigestsAreFresh | program/src/hash.rs:20-33 | two steps that share a digest exhibit two preimages with one SHA-256 hash |
| Runs.EventEndorsed | program/src/authorize.rs:76-83 | the signatures that every signed event carries, the Ed25519 one in the instruction in front, the Falcon one in its data, verify over its digest as the stored vault required |
| Runs.PolicyChangeEndorsed | program/src/change_policy.rs:61-100 | the signatures a policy change carries satisfy the policy it leaves and the one it installs |
| Runs.PendingOrigin | program/src/social_recovery.rs:303-317 | every pending proposal has one initiating step, since which key, slot, guardian, delay and owner have not moved |
| Runs.ProposedBySignature | program/src/social_recovery.rs:284-301 | the instruction in front of every successful initiate carries the configured guardian's verified signature over the claim |
| Runs.Timelock | program/src/social_recovery.rs:355-379 | every successful finalize was initiated at least the delay earlier by a step carrying the guardian's signature, with the same key, under the guardian and delay still configured, recovery enabled at both ends, no owner change or cancellation between |
| Runs.OwnerProvenance | program/src/rotate.rs:95-108 | every owner change is a rotation whose carried signatures satisfy the current policy, an opted-in recovery whose carried Falcon signature verifies, or a matured proposal; the nonce moves by one and nothing stays pending |
| Runs.FreshInitiateNeeded | program/src/social_recovery.rs:61-82 | after an owner change no finalize succeeds before a fresh initiate |
| Runs.ProposalsSingleUse | program/src/social_recovery.rs:277-317 | two successful initiates for a vault never see the same nonce |
| Runs.GuardianClaimsOnce | core/src/recovery.rs:56-82 | no guardian preimage supports two successful initiates, on one vault or several |
| Runs.ChangeHasAuthority | program/src/lib.rs:47-53 | every change of a stored pair is a creation, a signed action carrying the signatures the vault required, a proposal carrying its guardian's signature, or a matured proposal |
| Custody.LamportsStep | program/src/execute.rs:205-236 | a vault's lamports fall only by a signed SOL transfer of exactly that amount, which leaves the rent minimum |
| Custody.OneSchemeCompromise | program/src/authorize.rs:98-178 | from HybridAnd with recovery disabled, along any run in which no step carries both an Ed25519 and a Falcon signature that verify over its digest, no instruction acts on the vault, token calls included, vault bytes and configuration bytes never change and lamports never fall |
| Custody.CreatorSeedsAccepted | program/src/spl_token.rs:134-148 | in every later state the seed check of a token transfer accepts the vault's creator |
| Effects.EffectsFixed | program/src/processor.rs:36-76 | two successful signed instructions from one state with equal preimages share discriminator, vault bytes, vault lamports, configuration, and the bytes at the configuration's address even when it holds none, or exhibit two Falcon wire keys with one hash |
| Effects.PreimageFixesIntent | program/src/reconstruct.rs:28-57 | from one state, equal preimages mean the same vault, the same decoded fragment and the same discriminator |
| Effects.SameConfigSameBytes | core/src/recovery.rs:27-37 | equal configurations are equal bytes |
| ByteEffects.SignedVaultBytes | program/src/processor.rs:36-76 | every byte of the vault after a signed instruction, for all eight actions: policy byte, both flags, threshold, owner, Falcon hash and prepared key take the signed values under their own tag and stay under the others; the nonce moves by one |
| ByteEffects.SignedLamportsBytes | program/src/execute.rs:205-236 | tag 1 moves exactly the signed amount to the signed recipient and leaves the rent; no other tag takes lamports from the vault |
| ByteEffects.TokensInBytes | program/src/spl_token.rs:104-233 | the token checks and the call succeed if and only if accounts, owners, literal lengths and offsets, seeds, balance and hook-freedom are as listed |
| ByteEffects.SignedTokenBytes | program/src/spl_token.rs:104-233 | tag 2 sends the signed amount to the signed destination under those conditions and leaves both token accounts as the token program answered |
| ByteEffects.SignedConfigBytes | program/src/social_recovery.rs:61-85 | the configuration's bytes after a signed instruction: owner changes and cancellation zero key and ready slot and nothing else, tag 7 stores the signed guardian and delay in a fresh or idle configuration, other tags leave it alone |
| ByteEffects.ConfigChargeBytes | program/src/social_recovery.rs:103-140 | setting the configuration charges exactly its rent to the signing payer when it creates one, and nothing when it is there |
| ByteEffects.InitializeBytes | program/src/initialize.rs:105-172 | the 1120 bytes that Initialize leaves, region by region, from its payload, the derived bump and the prepared key; the creator pays exactly what the rent lacks |
| ByteEffects.InitializeExactly | program/src/initialize.rs:71-165 | for any accounts and data, Initialize succeeds if and only if the listed conditions on raw bytes, accounts and balances hold |
| ByteEffects.InitiateBytes | program/src/social_recovery.rs:241-324 | a successful initiate stands behind a signature of the stored guardian over 169 bytes that name chain, program, vault, the proposed key and the stored nonce; it stores that key and the slot after the delay and touches nothing else |
| ByteEffects.InitiateExactly | program/src/social_recovery.rs:241-324 | for any accounts and data, initiating succeeds if and only if the listed conditions on raw bytes hold and such a signature stands in front |
| ByteEffects.ProposalFixed | core/src/recovery.rs:56-82 | two successful initiates behind one guardian instruction, from any two worlds, concern one vault, one nonce and one proposed key, or exhibit two preimages with one hash |
| ByteEffects.FinalizeBytes | program/src/social_recovery.rs:355-387 | a successful finalize comes no earlier than the stored ready slot, makes the stored proposal the owner, moves the nonce by one and clears the proposal, with every other byte in place |
| ByteEffects.FinalizeExactly | program/src/social_recovery.rs:327-387 | for any accounts and data, finalizing succeeds if and only if the listed conditions on raw bytes hold |
| ByteEffects.ThresholdGoverns | program/src/change_policy.rs:75-125 | after a signed change to policy 5 with a threshold, while the vault's bytes stay, a transfer up to that very threshold is Ed25519's alone and a larger one Falcon's alone |
| ByteRuns.ReachableBytes | core/src/state.rs:110-122 | from an empty chain every stored vault, and every configuration beside one, has the listed bytes: known policy, no other flags, a threshold only under policy 5, zero reserves, a derived address, one wire key behind hash and prepared key; guardian, delay and a proposal exactly when a ready slot is set |
| ByteRuns.EndorsedPlainly | program/src/authorize.rs:140-178 | what an endorsement comes to: the Ed25519 signature in the instruction in front and the Falcon signature in the data, both over the 172 bytes about the vault as stored, are accepted by the requirement |
| ByteRuns.ClaimPlainly | program/src/social_recovery.rs:292-302 | what a carried guardian claim comes to: the guardian's signature in the instruction in front, over the 169 bytes that name the proposed key |
| ByteRuns.OneSchemeBytes | program/src/authorize.rs:98-178 | from policy byte 2 with the recovery flag clear, along any run in which no step carries both signatures over the 172 bytes, no instruction acts on the vault, its bytes and its configuration's stay, and its lamports never fall |
| ByteRuns.TimelockBytes | program/src/social_recovery.rs:355-377 | behind every successful finalize there is an earlier initiate with the key that becomes owner, signed by the stored guardian over bytes naming that key, at least the stored delay before, with configuration bytes and owner unmoved since |
| Conservation.Conserved | program/src/execute.rs:205-236 | every instruction, successful or not, conserves the lamports of the accounts it is given together with any others |
| Conservation.InitializeCharges | program/src/initialize.rs:215-235 | Initialize charges exactly the shortfall; the vault ends with the larger of its balance and the rent minimum |
| Client.ExecuteInstruction | client/src/onchain.rs:234-260 | builds the specified accounts and data for a SOL transfer, or refuses with the first failing check |
| Client.ExecuteTransferSplInstruction | client/src/onchain.rs:302-337 | as above, for a token transfer |
| Client.RotateEd25519Instruction | client/src/onchain.rs:372-408 | as above, for an owner rotation |
| Client.RotateFalconInstruction | client/src/onchain.rs:411-464 | as above, for a Falcon rotation with key and possession proof |
| Client.ChangePolicyInstruction | client/src/onchain.rs:469-503 | as above, for a policy change |
| Client.RecoverAccountInstruction | client/src/onchain.rs:509-559 | as above, for recovery; only the rotation needs the configuration address |
| Client.SetRecoveryConfigInstruction | client/src/onchain.rs:597-628 | as above, for the recovery configuration |
| Client.CancelSocialRecoveryInstruction | client/src/onchain.rs:668-696 | as above, for cancellation |
| Client.InitializeInstruction | client/src/onchain.rs:104-125 | derives the address and builds Initialize, or refuses |
| Client.ReadBack | program/src/authorize.rs:181-185 | the program splits and decodes a built instruction into exactly the client's intent, signature and keys |
| Client.InitializeReadBack | program/src/initialize.rs:71-102 | parsing inverts the client's Initialize encoding |
| Client.InitializeWriteBack | program/src/initialize.rs:71-102 | exactly which payloads parse, with the error of the others; re-encoding what was parsed gives the payload back |
| Completeness.SameIntent | core/src/wire.rs:260-270 | for an intent about the vault as it stands, reconstruction gives the very intent the client signed |
| Completeness.TokensReadyExact | program/src/spl_token.rs:104-233 | the token checks and the call succeed if and only if the accounts, owners, mint, balance, seeds and hook-freedom are as stated and the token program accepts the call; and what is then moved and written |
| Completeness.AcceptedExactly | client/src/onchain.rs:205-260 | a built instruction of any of the eight actions succeeds if and only if its intent is approved and the state and accounts are ready, in conditions a caller can check |
| Completeness.EndToEnd | client/src/onchain.rs:131-166 | it then succeeds under the signed preimage and does to vault bytes, vault lamports and configuration exactly what the action says |
| Completeness.RecipientCredited | program/src/execute.rs:205-236 | a SOL transfer credits the signed recipient with the signed amount |
| Completeness.TokenAccountsAfter | program/src/spl_token.rs:104-233 | a token transfer leaves source and destination exactly as the token program answered the call, data and lamports, and alone when the amount is zero |
| Completeness.BothSignaturesApprove | client/src/onchain.rs:564-570 | with both signatures in place an unexpired intent is approved under every policy |
| Completeness.InitializeAccepted | program/src/initialize.rs:105-172 | exactly when a built Initialize succeeds, and the record it leaves |
| Completeness.InitiateAccepted | client/src/onchain.rs:631-649 | exactly when a built proposal succeeds |
| Completeness.FinalizeAccepted | client/src/onchain.rs:652-665 | exactly when a built finalization succeeds |
| Completeness.FinalizeWhenMature | program/src/social_recovery.rs:355-377 | the timelock is exact: after an initiate, and while nobody with the vault's authority acts, a finalize succeeds if and only if the delay has passed and the nonce can still move |
| Lifecycle.Recovered | client/tests/sbf_social_recovery.rs:219-310 | the assumptions hold together: one deployment and one run from an empty chain in which a vault is created, opts in, names a guardian and, after the delay, passes to the guardian's choice |

## Left out

- Falcon-512, Ed25519 and SHA-256 themselves, the address search with its curve check, and the token programs: oracles, as listed above.
- Harness instructions 240 to 243: they change no state; the model answers their discriminators as it answers unknown ones.
- Whole transactions: a step is one instruction. A transaction that fails is rolled back by the runtime and contributes no steps; one that succeeds contributes its instructions in order.
- Purging of emptied accounts at the end of a transaction: the model purges after every successful instruction. No vault and no configuration can be emptied either way.
- Shared references between account handles: accounts are looked up by address, a borrow copies the data out and releasing it writes it back, so the runtime's borrow flags and their errors do not appear.
- `HybridAccount::initialize` with a prepared key supplied by the caller (core/src/state.rs:411-432): the program never calls it.
- The read-only accessors that work on a slice rather than on a view (core/src/state.rs:134-225): the same readings behind the same length check.
- Custody.OneSchemeCompromise: the configuration's bytes are claimed unchanged when a configuration is stored; an address that holds none has no bytes to speak of, and none appears.
- Effects.EffectsFixed: bytes at a configuration address that holds no configuration are not compared when a token program owns that address, since the submitter could name it as a token account.
- Command line, JSON-RPC, key files, key generation, signing bundles, hex and JSON intents.
- Falcon signature padding on the client, log messages, compute units, transaction sizes, stack frames, alignment.
