/** Shared authorization: rebuild the intent from trusted context, digest it, and
    ask the schemes the effective requirement names. */
module Authorize {
  import opened Prelude
  import opened Bytes
  import opened Intent
  import opened Codec
  import opened State
  import opened Host
  import Ed25519

  type Preceding = Ed25519.Preceding

  /** `reconstruct_intent` over the context the program supplies. */
  function IntentAt(host: Host, vault: Key, nonce: u64, wire: Wire): Intent {
    Intent(INTENT_VERSION, host.chainDomain, host.programId, vault, nonce, wire.expirySlot, wire.action)
  }

  function Digest(host: Host, vault: Key, nonce: u64, wire: Wire): Key {
    host.sha(Preimage(IntentAt(host, vault, nonce, wire)))
  }

  function VerifyPrepared(host: Host, prepared: Prepared, message: seq<byte>, signature: seq<byte>): Result<Unit> {
    match host.falcon(prepared, message, signature)
    case Valid => Ok(Done)
    case Invalid => Err(InvalidFalcon)
    case Malformed => Err(MalformedFalcon)
  }

  function VerifyRaw(host: Host, wireKey: seq<byte>, message: seq<byte>, signature: seq<byte>): Result<Unit> {
    match host.falconRaw(wireKey, message, signature)
    case Valid => Ok(Done)
    case Invalid => Err(InvalidFalcon)
    case Malformed => Err(MalformedFalcon)
  }

  /** The stored threshold a policy change leaves behind. */
  function ResultingThreshold(target: Policy, threshold: u64): Option<u64> {
    if target.FalconAboveThreshold? then Some(threshold) else None
  }

  /** `effective_requirement`: Falcon alone for opted-in recovery, the stricter of
      both policies for a policy change, the current policy otherwise. */
  function EffectiveRequirement(current: Policy, threshold: Option<u64>, recoveryEnabled: bool, action: Action)
    : Result<Requirement>
  {
    if action.RecoverAccount? && action.op.RotateOwner? then
      if recoveryEnabled then Ok(Falcon) else Err(InvalidAccountData)
    else
      var currentReq := current.SignatureRequirement(action, threshold);
      if !action.ChangePolicy? then Ok(currentReq)
      else
        match Policy.FromByte(action.newPolicy)
        case None => Err(InvalidAccountData)
        case Some(target) =>
          Ok(currentReq.Meet(target.SignatureRequirement(action, ResultingThreshold(target, action.threshold))))
  }

  /** What collecting and then evaluating signatures amounts to. */
  function Judge(req: Requirement, ed25519: Result<Unit>, falcon: Result<Unit>): Result<Unit> {
    match req
    case Ed25519 => ed25519
    case Falcon => falcon
    case Both => if ed25519.Err? then ed25519 else falcon
    case Either => if ed25519.Ok? || falcon.Ok? then Ok(Done) else Err(PolicyRejected)
  }

  /** Collect-then-evaluate accepts exactly the requirement's predicate over the
      two scheme verdicts. */
  lemma JudgeExact(req: Requirement, ed25519: Result<Unit>, falcon: Result<Unit>)
    ensures Judge(req, ed25519, falcon).Ok? <==> req.AcceptedBy(ed25519.Ok?, falcon.Ok?)
  {
    match req
    case Both =>
    case _ =>
  }

  datatype Validity = Validity(ed25519: bool, falcon: bool)

  /** `evaluate_requirement`. */
  function EvaluateRequirement(req: Requirement, sigs: Validity): Result<Unit> {
    match req
    case Ed25519 => Require(sigs.ed25519, InvalidEd25519)
    case Falcon => Require(sigs.falcon, InvalidFalcon)
    case Both =>
      if !sigs.ed25519 then Err(InvalidEd25519)
      else if !sigs.falcon then Err(InvalidFalcon)
      else Ok(Done)
    case Either => Require(sigs.ed25519 || sigs.falcon, PolicyRejected)
  }

  /** `evaluate_policy`: only the context-free policies can be judged from
      signature bits alone. */
  function EvaluatePolicy(policy: Policy, sigs: Validity): Result<Unit> {
    match policy
    case Ed25519Only => EvaluateRequirement(Ed25519, sigs)
    case FalconOnly => EvaluateRequirement(Falcon, sigs)
    case HybridAnd => EvaluateRequirement(Both, sigs)
    case HybridOr => EvaluateRequirement(Either, sigs)
    case _ => Err(PolicyNotImplemented)
  }

  /** The context-free evaluation never accepts more than the action-aware
      requirement does, whatever the action and threshold, and accepts exactly as
      much under the four policies it can judge. */
  lemma EvaluatePolicyAgrees(policy: Policy, sigs: Validity, action: Action, threshold: Option<u64>)
    ensures EvaluatePolicy(policy, sigs).Ok? <==>
            && !policy.FalconForPrivileged? && !policy.FalconAboveThreshold?
            && policy.SignatureRequirement(action, threshold).AcceptedBy(sigs.ed25519, sigs.falcon)
  {
    match policy
    case Ed25519Only =>
    case FalconOnly =>
    case HybridAnd =>
    case HybridOr =>
    case _ =>
  }

  /** `collect_signatures` followed by `evaluate_requirement`, with the two mutable
      validity flags of the source. */
  method CollectAndEvaluate(
      host: Host, req: Requirement, sysvar: Key, previous: Preceding, owner: Key, prepared: Prepared, digest: Key,
      signature: seq<byte>)
    returns (r: Result<Unit>)
    ensures r == Judge(req, Ed25519.Verify(host, sysvar, previous, owner, digest),
                       VerifyPrepared(host, prepared, digest, signature))
  {
    hide Ed25519.Verify, VerifyPrepared;
    var ed25519Valid, falconValid := false, false;
    match req {
      case Ed25519 | Both =>
        var _ :- Ed25519.Verify(host, sysvar, previous, owner, digest);
        ed25519Valid := true;
      case Either =>
        ed25519Valid := Ed25519.Verify(host, sysvar, previous, owner, digest).Ok?;
      case Falcon =>
    }
    match req {
      case Falcon | Both =>
        var _ :- VerifyPrepared(host, prepared, digest, signature);
        falconValid := true;
      case Either =>
        falconValid := VerifyPrepared(host, prepared, digest, signature).Ok?;
      case Ed25519 =>
    }
    r := EvaluateRequirement(req, Validity(ed25519Valid, falconValid));
  }

  /** A successful authorization: the digest both schemes were asked about, the
      vault as it was, and the nonce it moves to. */
  datatype Authorization = Authorization(digest: Key, vault: Vault, nextNonce: u64)

  /** `authorize`. Reads the vault, changes nothing. */
  function Authorized(
      host: Host, w: World, previous: Preceding, vault: Key, sysvar: Key, wire: Wire, signature: seq<byte>)
    : Result<Authorization>
  {
    if |signature| != FALCON_SIGNATURE_LEN then Err(MalformedInstructionData)
    else if w.slot > wire.expirySlot then Err(IntentExpired)
    else
      var a := Get(w, vault);
      if a.owner != host.programId then Err(InvalidAccountData)
      else if |a.data| != ACCOUNT_LEN then Err(InvalidAccountData)
      else
        var v := VaultOf(a.data);
        if v.version != ACCOUNT_VERSION then Err(UnsupportedVersion)
        else if Policy.FromByte(v.policy).None? then Err(InvalidAccountData)
        else if v.nonce == U64_MAX then Err(MathOverflow)
        else
          var digest := Digest(host, vault, v.nonce, wire);
          var req :- EffectiveRequirement(Policy.FromByte(v.policy).value, v.Threshold(), v.RecoveryEnabled(),
                                          wire.action);
          var _ :- Judge(req, Ed25519.Verify(host, sysvar, previous, v.owner, digest),
                         VerifyPrepared(host, v.prepared, digest, signature));
          Ok(Authorization(digest, v, v.nonce + 1))
  }

  /** The vault stored at an address, if one is: program-owned, of the right
      length and version. */
  function VaultAt(host: Host, w: World, k: Key): Option<Vault> {
    var a := Get(w, k);
    if a.owner == host.programId && |a.data| == ACCOUNT_LEN && a.data[0] == ACCOUNT_VERSION
    then Some(VaultOf(a.data)) else None
  }

  /** What it takes to authorize: exact, and free of the order of the checks. */
  ghost predicate MayAuthorize(
      host: Host, w: World, previous: Preceding, vault: Key, sysvar: Key, wire: Wire, signature: seq<byte>)
  {
    && |signature| == FALCON_SIGNATURE_LEN
    && w.slot <= wire.expirySlot
    && VaultAt(host, w, vault).Some?
    && var v := VaultAt(host, w, vault).value;
       && Policy.FromByte(v.policy).Some?
       && v.nonce < U64_MAX
       && var req := EffectiveRequirement(Policy.FromByte(v.policy).value, v.Threshold(), v.RecoveryEnabled(),
                                          wire.action);
          && req.Ok?
          && req.value.AcceptedBy(
               Ed25519.Verify(host, sysvar, previous, v.owner, Digest(host, vault, v.nonce, wire)).Ok?,
               host.falcon(v.prepared, Digest(host, vault, v.nonce, wire), signature) == Valid)
  }

  lemma AuthorizedExact(
      host: Host, w: World, previous: Preceding, vault: Key, sysvar: Key, wire: Wire, signature: seq<byte>)
    ensures var r := Authorized(host, w, previous, vault, sysvar, wire, signature);
            && (r.Ok? <==> MayAuthorize(host, w, previous, vault, sysvar, wire, signature))
            && (r.Ok? ==>
                  && VaultAt(host, w, vault) == Some(r.value.vault)
                  && r.value.nextNonce == r.value.vault.nonce + 1
                  && r.value.digest == Digest(host, vault, r.value.vault.nonce, wire))
  {
    hide Ed25519.Verify, Digest;
    var a := Get(w, vault);
    if |a.data| == ACCOUNT_LEN {
      var v := VaultOf(a.data);
      var digest := Digest(host, vault, v.nonce, wire);
      if Policy.FromByte(v.policy).Some? {
        var req := EffectiveRequirement(Policy.FromByte(v.policy).value, v.Threshold(), v.RecoveryEnabled(),
                                        wire.action);
        if req.Ok? {
          JudgeExact(req.value, Ed25519.Verify(host, sysvar, previous, v.owner, digest),
                     VerifyPrepared(host, v.prepared, digest, signature));
        }
      }
    }
  }

  /** A policy change is authorized only by signatures that the current policy and
      the target policy would each have accepted, and by all such. */
  lemma PolicyChangeNeedsBoth(
      current: Policy, threshold: Option<u64>, enabled: bool, newPolicy: byte, newThreshold: u64, ed25519: bool,
      falcon: bool)
    ensures var action := ChangePolicy(newPolicy, newThreshold);
            var req := EffectiveRequirement(current, threshold, enabled, action);
            var target := Policy.FromByte(newPolicy);
            && (req.Ok? <==> target.Some?)
            && (req.Ok? ==>
                  (req.value.AcceptedBy(ed25519, falcon) <==>
                     && current.SignatureRequirement(action, threshold).AcceptedBy(ed25519, falcon)
                     && target.value.SignatureRequirement(action, ResultingThreshold(target.value, newThreshold))
                                    .AcceptedBy(ed25519, falcon)))
  {
    var action := ChangePolicy(newPolicy, newThreshold);
    var target := Policy.FromByte(newPolicy);
    if target.Some? {
      var a := current.SignatureRequirement(action, threshold);
      var b := target.value.SignatureRequirement(action, ResultingThreshold(target.value, newThreshold));
      MeetIsConjunction(a, b);
      assert a.Meet(b).AcceptedBy(ed25519, falcon) <==> a.AcceptedBy(ed25519, falcon) && b.AcceptedBy(ed25519, falcon);
    }
  }

  /** The amount a transfer moves; other actions are privileged and move none. */
  function AmountOf(action: Action): Option<u64> {
    match action
    case TransferSol(_, lamports) => Some(lamports)
    case TransferSpl(_, amount) => Some(amount)
    case _ => None
  }

  predicate IsSmall(action: Action, threshold: Option<u64>) {
    AmountOf(action).Some? && AmountOf(action).value <= (if threshold.Some? then threshold.value else 0)
  }

  /** When a policy lets Ed25519 act alone, and when it lets Falcon. */
  predicate Ed25519Alone(policy: Policy, action: Action, threshold: Option<u64>) {
    || policy.Ed25519Only? || policy.HybridOr?
    || (policy.FalconForPrivileged? && AmountOf(action).Some?)
    || (policy.FalconAboveThreshold? && IsSmall(action, threshold))
  }

  predicate FalconAlone(policy: Policy, action: Action, threshold: Option<u64>) {
    || policy.FalconOnly? || policy.HybridOr?
    || (policy.FalconForPrivileged? && AmountOf(action).None?)
    || (policy.FalconAboveThreshold? && !IsSmall(action, threshold))
  }

  /** Who can act alone. Ed25519 can for everything under two policies, for transfers
      under a third, for transfers up to the threshold, absent meaning zero, under a
      fourth; Falcon can for what those leave to it; no policy accepts neither, and
      every policy accepts both. */
  lemma WhoCanActAlone(policy: Policy, action: Action, threshold: Option<u64>)
    ensures var req := policy.SignatureRequirement(action, threshold);
            && (req.AcceptedBy(true, false) <==> Ed25519Alone(policy, action, threshold))
            && (req.AcceptedBy(false, true) <==> FalconAlone(policy, action, threshold))
            && !req.AcceptedBy(false, false) && req.AcceptedBy(true, true)
  {
    match policy
    case FalconForPrivileged =>
    case FalconAboveThreshold =>
    case _ =>
  }

  /** Who can authorize an action on a vault, over all policies, thresholds, flags,
      actions and verdicts. A recovery rotation is Falcon's, and only while recovery is
      enabled. A policy change to a policy that exists takes both schemes, or one that
      may act alone before and after it. Anything else takes both, or one that may act
      alone under the stored policy. */
  lemma WhoMayAuthorize(
      current: Policy, threshold: Option<u64>, enabled: bool, action: Action, ed25519: bool, falcon: bool)
    ensures var req := EffectiveRequirement(current, threshold, enabled, action);
            var accepted := req.Ok? && req.value.AcceptedBy(ed25519, falcon);
            if action.RecoverAccount? && action.op.RotateOwner? then accepted <==> enabled && falcon
            else if action.ChangePolicy? then
              var target := Policy.FromByte(action.newPolicy);
              accepted <==>
                && target.Some?
                && var after := ResultingThreshold(target.value, action.threshold);
                   || (ed25519 && falcon)
                   || (ed25519 && Ed25519Alone(current, action, threshold) && Ed25519Alone(target.value, action, after))
                   || (falcon && FalconAlone(current, action, threshold) && FalconAlone(target.value, action, after))
            else
              accepted <==>
                || (ed25519 && falcon)
                || (ed25519 && Ed25519Alone(current, action, threshold))
                || (falcon && FalconAlone(current, action, threshold))
  {
    hide Ed25519Alone, FalconAlone, Policy.FromByte, Requirement.AcceptedBy, Policy.SignatureRequirement,
         Requirement.Meet;
    WhoCanActAlone(current, action, threshold);
    Verdicts(current.SignatureRequirement(action, threshold), ed25519, falcon);
    if action.ChangePolicy? {
      PolicyChangeNeedsBoth(current, threshold, enabled, action.newPolicy, action.threshold, ed25519, falcon);
      if Policy.FromByte(action.newPolicy).Some? {
        var target := Policy.FromByte(action.newPolicy).value;
        var after := ResultingThreshold(target, action.threshold);
        WhoCanActAlone(target, action, after);
        Verdicts(target.SignatureRequirement(action, after), ed25519, falcon);
      }
    } else if action.RecoverAccount? && action.op.RotateOwner? {
      FalconDecides(ed25519, falcon);
    }
  }

  /** A requirement is known by its answers to the four pairs of verdicts. */
  lemma Verdicts(req: Requirement, ed25519: bool, falcon: bool)
    ensures req.AcceptedBy(ed25519, falcon) <==>
            || (ed25519 && falcon && req.AcceptedBy(true, true))
            || (ed25519 && !falcon && req.AcceptedBy(true, false))
            || (!ed25519 && falcon && req.AcceptedBy(false, true))
            || (!ed25519 && !falcon && req.AcceptedBy(false, false))
  {
  }

  lemma FalconDecides(ed25519: bool, falcon: bool)
    ensures Falcon.AcceptedBy(ed25519, falcon) <==> falcon
  {
  }

  /** Under HybridAnd with recovery disabled, every action the program can
      authorize needs both schemes. */
  lemma HybridAndNeedsBoth(threshold: Option<u64>, action: Action, ed25519: bool, falcon: bool)
    ensures var req := EffectiveRequirement(HybridAnd, threshold, false, action);
            req.Ok? ==> (req.value.AcceptedBy(ed25519, falcon) <==> ed25519 && falcon)
  {
  }
}
