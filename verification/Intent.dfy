/** Actions, intents and the authorization policy lattice. */
module Intent {
  import opened Prelude
  import opened Bytes

  datatype RecoveryOp = Enable | Disable | RotateOwner {
    function AsByte(): byte {
      match this
      case Enable => 0
      case Disable => 1
      case RotateOwner => 2
    }

    static function FromByte(b: byte): Option<RecoveryOp> {
      match b
      case 0 => Some(Enable)
      case 1 => Some(Disable)
      case 2 => Some(RotateOwner)
      case _ => None
    }
  }

  datatype Action =
    | TransferSol(recipient: Key, lamports: u64)
    | TransferSpl(destination: Key, amount: u64)
    | RotateEd25519Key(newOwner: Key)
    | RotateFalconKey(newHash: Key)
    | ChangePolicy(newPolicy: byte, threshold: u64)
    | RecoverAccount(op: RecoveryOp, newEd25519: Key)
    | SetRecoveryConfig(guardian: Key, delay: u64)
    | CancelSocialRecovery
  {
    function Tag(): (t: byte)
      ensures 1 <= t <= 8
    {
      match this
      case TransferSol(_, _) => 1
      case TransferSpl(_, _) => 2
      case RotateEd25519Key(_) => 3
      case RotateFalconKey(_) => 4
      case ChangePolicy(_, _) => 5
      case RecoverAccount(_, _) => 6
      case SetRecoveryConfig(_, _) => 7
      case CancelSocialRecovery => 8
    }

    /** Everything but a transfer is privileged. */
    predicate IsPrivileged() {
      !TransferSol? && !TransferSpl?
    }
  }

  const INTENT_VERSION: byte := 1

  /** What both signature schemes sign, once digested. */
  datatype Intent = Intent(
    version: byte,
    chainDomain: Key,
    programId: Key,
    account: Key,
    nonce: u64,
    expirySlot: u64,
    action: Action)

  // ------------------------------------------------------------------ policy

  datatype Policy =
    | Ed25519Only
    | FalconOnly
    | HybridAnd
    | HybridOr
    | FalconForPrivileged
    | FalconAboveThreshold
  {
    function AsByte(): byte {
      match this
      case Ed25519Only => 0
      case FalconOnly => 1
      case HybridAnd => 2
      case HybridOr => 3
      case FalconForPrivileged => 4
      case FalconAboveThreshold => 5
    }

    static function FromByte(b: byte): (p: Option<Policy>)
      ensures p.Some? <==> b <= 5
      ensures p.Some? ==> p.value.AsByte() == b
    {
      match b
      case 0 => Some(Ed25519Only)
      case 1 => Some(FalconOnly)
      case 2 => Some(HybridAnd)
      case 3 => Some(HybridOr)
      case 4 => Some(FalconForPrivileged)
      case 5 => Some(FalconAboveThreshold)
      case _ => None
    }

    /** Which schemes must verify to authorize `action`; an absent threshold
        counts as zero. */
    function SignatureRequirement(action: Action, threshold: Option<u64>): Requirement {
      match this
      case Ed25519Only => Ed25519
      case FalconOnly => Falcon
      case HybridAnd => Both
      case HybridOr => Either
      case FalconForPrivileged => if action.IsPrivileged() then Falcon else Ed25519
      case FalconAboveThreshold =>
        var bound := if threshold.Some? then threshold.value else 0;
        match action
        case TransferSol(_, lamports) => if lamports > bound then Falcon else Ed25519
        case TransferSpl(_, amount) => if amount > bound then Falcon else Ed25519
        case _ => Falcon
    }
  }

  datatype Requirement = Either | Ed25519 | Falcon | Both {
    /** The stricter of two requirements. */
    function Meet(other: Requirement): Requirement {
      match (this, other)
      case (Both, _) => Both
      case (_, Both) => Both
      case (Ed25519, Falcon) => Both
      case (Falcon, Ed25519) => Both
      case (Ed25519, _) => Ed25519
      case (_, Ed25519) => Ed25519
      case (Falcon, _) => Falcon
      case (_, Falcon) => Falcon
      case (Either, Either) => Either
    }

    /** What a requirement means: which pairs of scheme verdicts it accepts. */
    predicate AcceptedBy(ed25519: bool, falcon: bool) {
      match this
      case Either => ed25519 || falcon
      case Ed25519 => ed25519
      case Falcon => falcon
      case Both => ed25519 && falcon
    }
  }

  /** The meet accepts exactly the signature sets that both operands accept, so it
      is the weakest requirement at least as strict as each of them. */
  lemma MeetIsConjunction(a: Requirement, b: Requirement)
    ensures forall ed: bool, falcon: bool {:trigger a.Meet(b).AcceptedBy(ed, falcon)} ::
              a.Meet(b).AcceptedBy(ed, falcon) <==> a.AcceptedBy(ed, falcon) && b.AcceptedBy(ed, falcon)
  {
    match (a, b)
    case (Both, _) =>
    case (_, Both) =>
    case (Ed25519, _) =>
    case (_, Ed25519) =>
    case (Falcon, _) =>
    case (_, Falcon) =>
    case (Either, Either) =>
  }
}
