/** The effect of a signed instruction is fixed by the preimage its signatures cover. */
module Effects {
  import opened Prelude
  import opened Bytes
  import opened Intent
  import opened Codec
  import opened State
  import opened Recovery
  import opened Host
  import opened Authorize
  import opened Protocol
  import opened Outcome
  import opened Ledger
  import opened Steps
  import opened Runs
  import opened Custody

  /** Two Falcon wire keys with one SHA-256 hash. */
  predicate WireKeyCollision(host: Host, a: seq<byte>, b: seq<byte>) {
    |a| == |b| == FALCON_WIRE_KEY_LEN && a != b && host.sha(a) == host.sha(b)
  }

  /** What submitters cannot choose: from one state, equal preimages mean the same
      vault, the same fragment meaning, and the same discriminator. */
  lemma PreimageFixesIntent(host: Host, w: World, a: Instruction, b: Instruction, p: Patch, q: Patch)
    requires SignedOutcome(host, w, a, p) && SignedOutcome(host, w, b, q)
    requires PreimageOf(host, w, a, p) == PreimageOf(host, w, b, q)
    ensures p.vault == q.vault && WireOf(a) == WireOf(b) && a.data[0] == b.data[0]
  {
    hide DecodeWire, VaultOf, Get, NewWireKey, NewPrepared, VaultAfter, ConfigWritten, PaymentFits, Permits,
         DiscriminatorOf, SysvarOf, TokensFit, Preimage, SignatureOf, EffectiveRequirement, Digest, SubjectOf, WireOf,
         VaultAt;
    var i := IntentAt(host, p.vault, VaultAt(host, w, p.vault).value.nonce, WireOf(a).value);
    var j := IntentAt(host, q.vault, VaultAt(host, w, q.vault).value.nonce, WireOf(b).value);
    PreimageInjective(i, j);
  }

  function PreimageOf(host: Host, w: World, ix: Instruction, p: Patch): seq<byte>
    requires WireOf(ix).Ok? && VaultAt(host, w, p.vault).Some?
  {
    Preimage(IntentAt(host, p.vault, VaultAt(host, w, p.vault).value.nonce, WireOf(ix).value))
  }

  lemma UsedIsPreimageOf(host: Host, w: World, ix: Instruction, p: Patch)
    requires IsSigned(ix) && Decide(host, w, ix) == Ok(p) && SignedOutcome(host, w, ix, p)
    ensures WireOf(ix).Ok? && VaultAt(host, w, p.vault).Some?
    ensures PreimageUsed(host, w, Invoke(ix)) == Some(PreimageOf(host, w, ix, p))
  {
    hide Decide, WireOf, SubjectOf, VaultAt, NewPrepared, VaultAfter, ConfigWritten, PaymentFits, Permits, Preimage;
  }

  // ------------------------------------------------------- the vault's record

  lemma RecordFixed(host: Host, w: World, a: Instruction, b: Instruction, p: Patch, q: Patch)
    requires SignedOutcome(host, w, a, p) && SignedOutcome(host, w, b, q)
    requires p.vault == q.vault && WireOf(a) == WireOf(b)
    ensures p.record.Some? && q.record.Some?
    ensures p.record == q.record || WireKeyCollision(host, NewWireKey(a), NewWireKey(b))
    ensures p.config == q.config
  {
    hide WireOf, SubjectOf, VaultAt, NewWireKey, PaymentFits, Permits, SysvarOf, SignatureOf, TokensFit, MayAuthorize,
         DiscriminatorOf, ConfigAt, ConfigAddress, Get;
    SignedPatch(host, w, a, p);
    SignedPatch(host, w, b, q);
    var v, action := VaultAt(host, w, p.vault).value, WireOf(a).value.action;
    SamePrepared(host, v, action, a, b);
  }

  lemma SignedPatch(host: Host, w: World, ix: Instruction, p: Patch)
    requires SignedOutcome(host, w, ix, p)
    ensures WireOf(ix).Ok? && VaultAt(host, w, p.vault).Some? && VaultAt(host, w, p.vault).value.nonce < U64_MAX
    ensures p.record
            == Some(VaultAfter(VaultAt(host, w, p.vault).value, WireOf(ix).value.action, NewPrepared(host, ix)))
    ensures ConfigWritten(host, w, p.vault, WireOf(ix).value.action, p.config)
    ensures PaymentFits(host, w, p.vault, WireOf(ix).value.action, p)
    ensures TokensFit(host, w, WireOf(ix).value.action, p.tokens)
    ensures WireOf(ix).value.action.RotateFalconKey? ==>
              |NewWireKey(ix)| == FALCON_WIRE_KEY_LEN && WireOf(ix).value.action.newHash == host.sha(NewWireKey(ix))
  {
    hide WireOf, SubjectOf, VaultAt, NewWireKey, NewPrepared, VaultAfter, ConfigWritten, PaymentFits, Permits, SysvarOf,
         SignatureOf, TokensFit, DiscriminatorOf, EffectiveRequirement, Digest, Policy.FromByte;
  }

  lemma SamePrepared(host: Host, v: Vault, action: Action, a: Instruction, b: Instruction)
    requires v.nonce < U64_MAX
    requires action.RotateFalconKey? ==>
               && |NewWireKey(a)| == |NewWireKey(b)| == FALCON_WIRE_KEY_LEN
               && host.sha(NewWireKey(a)) == host.sha(NewWireKey(b))
    ensures VaultAfter(v, action, NewPrepared(host, a)) == VaultAfter(v, action, NewPrepared(host, b))
            || WireKeyCollision(host, NewWireKey(a), NewWireKey(b))
  {
    hide NewWireKey, Policy.FromByte;
  }

  // --------------------------------------------------------------- lamports

  /** Lamports a signed action takes out of its vault. */
  function Outflow(action: Action): u64 {
    if action.TransferSol? then action.lamports else 0
  }

  /** The vault's balance after a signed instruction depends on the action alone. */
  lemma VaultBalanceAfter(host: Host, w: World, action: Action, p: Patch)
    requires HostOk(host) && Payable(w, p.payment) && VaultAt(host, w, p.vault).Some?
    requires PaymentFits(host, w, p.vault, action, p) && TokensFit(host, w, action, p.tokens)
    requires PaymentOrigin(host, w, p)
    ensures LamportsAfter(w, p.payment, p.vault) == Get(w, p.vault).lamports - Outflow(action)
  {
    hide HostOk, VaultOf, ConfigAt, ConfigAddress, SYSTEM, Get;
    Distinct(host);
  }

  lemma VaultLamportsFixed(host: Host, w: World, ix: Instruction, p: Patch)
    requires HostOk(host) && Inv(host, w) && Admissible(host, ix) && Decide(host, w, ix) == Ok(p)
    requires SignedOutcome(host, w, ix, p) && WireOf(ix).Ok?
    ensures Get(After(host, w, ix), p.vault).lamports == Get(w, p.vault).lamports - Outflow(WireOf(ix).value.action)
    ensures p.record.Some? && Get(After(host, w, ix), p.vault).data == VaultBytes(p.record.value)
  {
    hide HostOk, Inv, Admissible, Decide, SignedOutcome, WireOf, LamportsAfter, VaultAt, VaultAfter, Get, PaymentFits,
         TokensFit, ConfigWritten, RecordFits, ConfigFits, PaymentOrigin, Apply, Purge, VaultBytes, NewPrepared;
    DecidedFits(host, w, ix, p);
    SignedPatch(host, w, ix, p);
    SignedPaymentOrigin(host, w, ix, p);
    VaultBalanceAfter(host, w, WireOf(ix).value.action, p);
    WrittenVault(host, w, p);
    ApplyAt(host, w, p, p.vault);
    GetPurged(Apply(host, w, p), p.vault);
  }

  // --------------------------------------------------------------- theorem

  /** The part of the world a signature is about. */
  datatype Holding = Holding(bytes: seq<byte>, lamports: nat, config: Option<Config>)

  function HoldingAt(host: Host, w: World, vault: Key): Holding {
    Holding(Get(w, vault).data, Get(w, vault).lamports, ConfigAt(host, w, vault))
  }

  lemma HoldingAfter(host: Host, w: World, ix: Instruction, p: Patch)
    requires HostOk(host) && Inv(host, w) && Admissible(host, ix) && Decide(host, w, ix) == Ok(p)
    requires SignedOutcome(host, w, ix, p) && WireOf(ix).Ok?
    ensures p.record.Some? && Get(w, p.vault).lamports >= Outflow(WireOf(ix).value.action)
    ensures HoldingAt(host, After(host, w, ix), p.vault) ==
            Holding(VaultBytes(p.record.value), Get(w, p.vault).lamports - Outflow(WireOf(ix).value.action),
                    if p.config.Some? then Some(p.config.value.config) else ConfigAt(host, w, p.vault))
  {
    hide HostOk, Inv, Admissible, Decide, SignedOutcome, WireOf, ConfigAt, Get, Apply, Purge, VaultBytes, PatchFits,
         Outflow;
    VaultLamportsFixed(host, w, ix, p);
    DecidedFits(host, w, ix, p);
    FitsInUse(host, w, p);
    ConfigAfterPatch(host, w, p, p.vault);
  }

  /** The bytes a signed action leaves at the vault's configuration address, whatever is
      there: what it writes, or what was there, as long as lamports keep it. */
  function ConfigDataAfter(w: World, k: Key, vault: Key, action: Action, record: Vault, config: Option<ConfigWrite>)
    : seq<byte>
  {
    var paid := if action.TransferSol? && action.recipient == k then action.lamports else 0;
    if config.Some? then ConfigBytes(config.value.config)
    else if k == vault then VaultBytes(record)
    else if Get(w, k).lamports + paid > 0 then Get(w, k).data
    else []
  }

  lemma PaidAt(host: Host, w: World, k: Key, action: Action, p: Patch)
    requires Payable(w, p.payment) && PaymentFits(host, w, p.vault, action, p) && TokensFit(host, w, action, p.tokens)
    requires k != p.vault && !IsTokenOwned(host, w, k) && !action.SetRecoveryConfig?
    ensures LamportsAfter(w, p.payment, k) ==
            Get(w, k).lamports + (if action.TransferSol? && action.recipient == k then action.lamports else 0)
  {
    hide Get, ConfigAt, ConfigAddress;
  }

  lemma ConfigDataFixed(host: Host, w: World, ix: Instruction, p: Patch)
    requires HostOk(host) && Inv(host, w) && Admissible(host, ix) && Decide(host, w, ix) == Ok(p)
    requires SignedOutcome(host, w, ix, p) && WireOf(ix).Ok? && ConfigAddress(host, p.vault).Some?
    requires !IsTokenOwned(host, w, ConfigAddress(host, p.vault).value.0)
    ensures p.record.Some?
    ensures var k := ConfigAddress(host, p.vault).value.0;
            Get(After(host, w, ix), k).data
            == ConfigDataAfter(w, k, p.vault, WireOf(ix).value.action, p.record.value, p.config)
  {
    hide HostOk, Inv, Admissible, Decide, SignedOutcome, WireOf, VaultAt, VaultAfter, Get, PaymentFits, ConfigWritten,
         Apply, Purge, VaultBytes, ConfigBytes, NewPrepared, ConfigAddress, IsTokenOwned, IsConfigData, PatchFits,
         LamportsAfter, TokensFit;
    var k, action := ConfigAddress(host, p.vault).value.0, WireOf(ix).value.action;
    DecidedFits(host, w, ix, p);
    SignedPatch(host, w, ix, p);
    if p.config.Some? {
      ConfigFitsHere(host, w, p);
      WrittenConfig(host, w, p);
    } else if k == p.vault {
      WrittenVault(host, w, p);
    } else {
      SetsAlways(host, w, p.vault, action, p.config);
      PaidAt(host, w, k, action, p);
      ApplyAt(host, w, p, k);
      GetPurged(Apply(host, w, p), k);
      UntouchedData(host, w, p, action, k);
    }
  }

  lemma ConfigFitsHere(host: Host, w: World, p: Patch)
    requires PatchFits(host, w, p) && p.config.Some?
    ensures ConfigAddress(host, p.vault).Some? && p.config.value.key == ConfigAddress(host, p.vault).value.0
  {
    hide RecordFits, PaymentOrigin, ConfigAddress, Get;
  }

  lemma SetsAlways(host: Host, w: World, vault: Key, action: Action, config: Option<ConfigWrite>)
    requires ConfigWritten(host, w, vault, action, config) && config.None?
    ensures !action.SetRecoveryConfig?
  {
    hide ConfigAt, ConfigAddress;
  }

  lemma UntouchedData(host: Host, w: World, p: Patch, action: Action, k: Key)
    requires TokensFit(host, w, action, p.tokens) && !IsTokenOwned(host, w, k) && p.config.None? && k != p.vault
    ensures DataAfter(w, p, k) == Get(w, k).data
  {
    hide IsTokenOwned, Get, VaultBytes, ConfigBytes;
  }

  /** Effects are fixed by what was signed: two successful signed instructions from
      one state with equal preimages carry the same discriminator and leave the same
      vault bytes, vault lamports and recovery configuration, and the same bytes at the
      configuration's address whether or not it holds one, unless a token program does;
      whatever accounts, pads or signatures the submitters picked, and unless two Falcon
      wire keys in them collide under SHA-256. */
  lemma EffectsFixed(host: Host, w: World, a: Instruction, b: Instruction)
    requires HostOk(host) && Inv(host, w) && Admissible(host, a) && Admissible(host, b)
    requires IsSigned(a) && IsSigned(b) && Decide(host, w, a).Ok? && Decide(host, w, b).Ok?
    requires PreimageUsed(host, w, Invoke(a)) == PreimageUsed(host, w, Invoke(b))
    ensures a.data[0] == b.data[0] && SubjectOf(a) == SubjectOf(b)
    ensures || (&& HoldingAt(host, After(host, w, a), SubjectOf(a)) == HoldingAt(host, After(host, w, b), SubjectOf(a))
                && SameConfigData(host, w, After(host, w, a), After(host, w, b), SubjectOf(a)))
            || WireKeyCollision(host, NewWireKey(a), NewWireKey(b))
  {
    hide *;
    var p, q := Decide(host, w, a).value, Decide(host, w, b).value;
    SignedInstruction(host, w, a, p);
    SignedInstruction(host, w, b, q);
    UsedIsPreimageOf(host, w, a, p);
    UsedIsPreimageOf(host, w, b, q);
    PreimageFixesIntent(host, w, a, b, p, q);
    RecordFixed(host, w, a, b, p, q);
    SignedParts(host, w, a, p);
    SignedParts(host, w, b, q);
    HoldingAfter(host, w, a, p);
    HoldingAfter(host, w, b, q);
    if p.record == q.record {
      ConfigDataSame(host, w, a, b, p, q);
    }
  }

  /** The same bytes at a vault's configuration address in two worlds that follow `w`. */
  predicate SameConfigData(host: Host, w: World, x: World, y: World, vault: Key) {
    ConfigAddress(host, vault).Some? && !IsTokenOwned(host, w, ConfigAddress(host, vault).value.0) ==>
      Get(x, ConfigAddress(host, vault).value.0).data == Get(y, ConfigAddress(host, vault).value.0).data
  }

  lemma ConfigDataSame(host: Host, w: World, a: Instruction, b: Instruction, p: Patch, q: Patch)
    requires HostOk(host) && Inv(host, w) && Admissible(host, a) && Admissible(host, b)
    requires Decide(host, w, a) == Ok(p) && Decide(host, w, b) == Ok(q)
    requires SignedOutcome(host, w, a, p) && SignedOutcome(host, w, b, q) && WireOf(a).Ok? && WireOf(a) == WireOf(b)
    requires p.vault == q.vault && p.record == q.record && p.config == q.config
    ensures SameConfigData(host, w, After(host, w, a), After(host, w, b), p.vault)
  {
    hide HostOk, Inv, Admissible, Decide, SignedOutcome, WireOf, ConfigAddress, IsTokenOwned, Get, After,
         ConfigDataAfter;
    if ConfigAddress(host, p.vault).Some? && !IsTokenOwned(host, w, ConfigAddress(host, p.vault).value.0) {
      ConfigDataFixed(host, w, a, p);
      ConfigDataFixed(host, w, b, q);
    }
  }

  /** Equal configurations are equal bytes. */
  lemma SameConfigSameBytes(host: Host, w: World, u: World, vault: Key)
    requires ConfigAt(host, w, vault) == ConfigAt(host, u, vault) && ConfigAt(host, w, vault).Some?
    ensures var k := ConfigAddress(host, vault).value.0; Get(w, k).data == Get(u, k).data
  {
    hide ConfigOf, ConfigBytes;
    ConfigBytesAt(host, w, vault);
    ConfigBytesAt(host, u, vault);
  }
}
