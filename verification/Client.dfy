/** The client's instruction builders, and what the program does with what they build. */
module Client {
  import opened Prelude
  import opened Bytes
  import opened Intent
  import opened Codec
  import opened State
  import opened Host
  import opened Protocol
  import opened Outcome
  import Ed25519

  datatype BuildError = KeyFileLength | IntentFormat | PdaDerivation

  datatype Build<+T> = Built(value: T) | Refused(error: BuildError)

  // ---------------------------------------------------------- specification

  function Writable(k: Key): Meta {
    Meta(k, false, true)
  }

  function Readonly(k: Key): Meta {
    Meta(k, false, false)
  }

  function Signer(k: Key): Meta {
    Meta(k, true, true)
  }

  /** What a builder is given besides the intent and its Falcon signature. */
  datatype Extras = Extras(
    creator: Key, source: Key, mint: Key, tokenProgram: Key, config: Key, payer: Key,
    wireKey: seq<byte>, possession: seq<byte>)

  const NO_EXTRAS := Extras(ZERO_KEY, ZERO_KEY, ZERO_KEY, ZERO_KEY, ZERO_KEY, ZERO_KEY, [], [])

  /** The accounts each action travels with, the instructions sysvar last. */
  function MetasFor(host: Host, vault: Key, action: Action, x: Extras): seq<Meta> {
    match action
    case TransferSol(recipient, _) => [Writable(vault), Writable(recipient), Readonly(host.instructionsSysvar)]
    case TransferSpl(destination, _) =>
      [Writable(vault), Readonly(x.creator), Writable(x.source), Readonly(x.mint), Writable(destination),
       Readonly(x.tokenProgram), Readonly(host.instructionsSysvar)]
    case RotateEd25519Key(_) => [Writable(vault), Writable(x.config), Readonly(host.instructionsSysvar)]
    case RotateFalconKey(_) => [Writable(vault), Readonly(host.instructionsSysvar)]
    case ChangePolicy(_, _) => [Writable(vault), Readonly(host.instructionsSysvar)]
    case RecoverAccount(op, _) =>
      if op.RotateOwner? then [Writable(vault), Writable(x.config), Readonly(host.instructionsSysvar)]
      else [Writable(vault), Readonly(host.instructionsSysvar)]
    case SetRecoveryConfig(_, _) =>
      [Writable(vault), Writable(x.config), Signer(x.payer), Readonly(SYSTEM), Readonly(host.instructionsSysvar)]
    case CancelSocialRecovery => [Writable(vault), Writable(x.config), Readonly(host.instructionsSysvar)]
  }

  function WireFor(intent: Intent): Wire {
    Wire(intent.expirySlot, intent.action)
  }

  function DataFor(intent: Intent, signature: seq<byte>, x: Extras): seq<byte> {
    [DiscriminatorOf(intent.action)] + WireBytes(WireFor(intent)) + signature
    + (if intent.action.RotateFalconKey? then x.wireKey + x.possession else [])
  }

  function InstructionFor(host: Host, vault: Key, intent: Intent, signature: seq<byte>, x: Extras): Instruction {
    Instruction(MetasFor(host, vault, intent.action, x), DataFor(intent, signature, x), Ed25519.Nothing)
  }

  /** A builder for the actions `accepts` selects: the action is checked before the
      signature's length. */
  function Checked(
      accepts: bool, host: Host, vault: Key, intent: Intent, signature: seq<byte>, x: Extras): Build<Instruction>
  {
    if !accepts then Refused(IntentFormat)
    else if |signature| != FALCON_SIGNATURE_LEN then Refused(KeyFileLength)
    else Built(InstructionFor(host, vault, intent, signature, x))
  }

  // --------------------------------------------------------------- builders

  /** `encode_execute_intent_wire` behind a discriminator, then the signature. */
  method AuthorizedData(discriminator: byte, intent: Intent, signature: seq<byte>) returns (data: seq<byte>)
    ensures data == [discriminator] + WireBytes(WireFor(intent)) + signature
  {
    hide WireBytes;
    data := [];
    data := data + [discriminator];
    var wire := EncodeWire(WireFor(intent));
    data := data + wire[..];
    data := data + signature;
  }

  method ExecuteInstruction(
      host: Host, vault: Key, intent: Intent, signature: seq<byte>) returns (r: Build<Instruction>)
    ensures r == Checked(intent.action.TransferSol?, host, vault, intent, signature, NO_EXTRAS)
  {
    hide WireBytes;
    if !intent.action.TransferSol? {
      return Refused(IntentFormat);
    }
    if |signature| != FALCON_SIGNATURE_LEN {
      return Refused(KeyFileLength);
    }
    var data := AuthorizedData(1, intent, signature);
    assert data == DataFor(intent, signature, NO_EXTRAS);
    return Built(Instruction([Writable(vault), Writable(intent.action.recipient), Readonly(host.instructionsSysvar)],
                             data, Ed25519.Nothing));
  }

  method ExecuteTransferSplInstruction(
      host: Host, vault: Key, creator: Key, source: Key, mint: Key, tokenProgram: Key, intent: Intent,
      signature: seq<byte>)
    returns (r: Build<Instruction>)
    ensures r == Checked(intent.action.TransferSpl?, host, vault, intent, signature,
                         NO_EXTRAS.(creator := creator, source := source, mint := mint, tokenProgram := tokenProgram))
  {
    hide WireBytes;
    if !intent.action.TransferSpl? {
      return Refused(IntentFormat);
    }
    if |signature| != FALCON_SIGNATURE_LEN {
      return Refused(KeyFileLength);
    }
    var data := AuthorizedData(1, intent, signature);
    assert data == DataFor(intent, signature, NO_EXTRAS);
    return Built(Instruction([Writable(vault), Readonly(creator), Writable(source), Readonly(mint),
                              Writable(intent.action.destination), Readonly(tokenProgram),
                              Readonly(host.instructionsSysvar)],
                             data, Ed25519.Nothing));
  }

  method RotateEd25519Instruction(host: Host, vault: Key, config: Key, intent: Intent, signature: seq<byte>)
    returns (r: Build<Instruction>)
    ensures r == Checked(intent.action.RotateEd25519Key?, host, vault, intent, signature, NO_EXTRAS.(config := config))
  {
    hide WireBytes;
    if !intent.action.RotateEd25519Key? {
      return Refused(IntentFormat);
    }
    if |signature| != FALCON_SIGNATURE_LEN {
      return Refused(KeyFileLength);
    }
    var data := AuthorizedData(2, intent, signature);
    assert data == DataFor(intent, signature, NO_EXTRAS);
    return Built(Instruction([Writable(vault), Writable(config), Readonly(host.instructionsSysvar)], data,
                             Ed25519.Nothing));
  }

  method RotateFalconInstruction(
      host: Host, vault: Key, intent: Intent, signature: seq<byte>, wireKey: seq<byte>, possession: seq<byte>)
    returns (r: Build<Instruction>)
    ensures r == if !intent.action.RotateFalconKey? then Refused(IntentFormat)
                 else if |signature| != FALCON_SIGNATURE_LEN || |wireKey| != FALCON_WIRE_KEY_LEN
                         || |possession| != FALCON_SIGNATURE_LEN then Refused(KeyFileLength)
                 else Built(InstructionFor(host, vault, intent, signature,
                                           NO_EXTRAS.(wireKey := wireKey, possession := possession)))
  {
    hide WireBytes;
    if !intent.action.RotateFalconKey? {
      return Refused(IntentFormat);
    }
    if |signature| != FALCON_SIGNATURE_LEN {
      return Refused(KeyFileLength);
    }
    if |wireKey| != FALCON_WIRE_KEY_LEN {
      return Refused(KeyFileLength);
    }
    if |possession| != FALCON_SIGNATURE_LEN {
      return Refused(KeyFileLength);
    }
    var data := AuthorizedData(3, intent, signature);
    ghost var front := data;
    data := data + wireKey;
    data := data + possession;
    assert front + wireKey + possession == front + (wireKey + possession);
    return Built(Instruction([Writable(vault), Readonly(host.instructionsSysvar)], data, Ed25519.Nothing));
  }

  method ChangePolicyInstruction(
      host: Host, vault: Key, intent: Intent, signature: seq<byte>) returns (r: Build<Instruction>)
    ensures r == Checked(intent.action.ChangePolicy?, host, vault, intent, signature, NO_EXTRAS)
  {
    hide WireBytes;
    if !intent.action.ChangePolicy? {
      return Refused(IntentFormat);
    }
    if |signature| != FALCON_SIGNATURE_LEN {
      return Refused(KeyFileLength);
    }
    var data := AuthorizedData(4, intent, signature);
    assert data == DataFor(intent, signature, NO_EXTRAS);
    return Built(Instruction([Writable(vault), Readonly(host.instructionsSysvar)], data, Ed25519.Nothing));
  }

  /** Only the owner rotation needs the configuration address. */
  method RecoverAccountInstruction(host: Host, vault: Key, intent: Intent, signature: seq<byte>, config: Option<Key>)
    returns (r: Build<Instruction>)
    ensures var x := if config.Some? then NO_EXTRAS.(config := config.value) else NO_EXTRAS;
            r == if intent.action.RecoverAccount? && |signature| == FALCON_SIGNATURE_LEN
                    && intent.action.op.RotateOwner? && config.None?
                 then Refused(IntentFormat)
                 else Checked(intent.action.RecoverAccount?, host, vault, intent, signature, x)
  {
    hide WireBytes;
    if !intent.action.RecoverAccount? {
      return Refused(IntentFormat);
    }
    if |signature| != FALCON_SIGNATURE_LEN {
      return Refused(KeyFileLength);
    }
    var data := AuthorizedData(5, intent, signature);
    assert data == DataFor(intent, signature, NO_EXTRAS);
    var metas;
    match intent.action.op {
      case RotateOwner =>
        if config.None? {
          return Refused(IntentFormat);
        }
        metas := [Writable(vault), Writable(config.value), Readonly(host.instructionsSysvar)];
      case _ =>
        metas := [Writable(vault), Readonly(host.instructionsSysvar)];
    }
    return Built(Instruction(metas, data, Ed25519.Nothing));
  }

  method SetRecoveryConfigInstruction(
      host: Host, vault: Key, config: Key, payer: Key, intent: Intent, signature: seq<byte>)
    returns (r: Build<Instruction>)
    ensures r == Checked(intent.action.SetRecoveryConfig?, host, vault, intent, signature,
                         NO_EXTRAS.(config := config, payer := payer))
  {
    hide WireBytes;
    if !intent.action.SetRecoveryConfig? {
      return Refused(IntentFormat);
    }
    if |signature| != FALCON_SIGNATURE_LEN {
      return Refused(KeyFileLength);
    }
    var data := AuthorizedData(6, intent, signature);
    assert data == DataFor(intent, signature, NO_EXTRAS);
    return Built(Instruction([Writable(vault), Writable(config), Signer(payer), Readonly(SYSTEM),
                              Readonly(host.instructionsSysvar)],
                             data, Ed25519.Nothing));
  }

  method CancelSocialRecoveryInstruction(host: Host, vault: Key, config: Key, intent: Intent, signature: seq<byte>)
    returns (r: Build<Instruction>)
    ensures r == Checked(intent.action.CancelSocialRecovery?, host, vault, intent, signature,
                         NO_EXTRAS.(config := config))
  {
    hide WireBytes;
    if !intent.action.CancelSocialRecovery? {
      return Refused(IntentFormat);
    }
    if |signature| != FALCON_SIGNATURE_LEN {
      return Refused(KeyFileLength);
    }
    var data := AuthorizedData(9, intent, signature);
    assert data == DataFor(intent, signature, NO_EXTRAS);
    return Built(Instruction([Writable(vault), Writable(config), Readonly(host.instructionsSysvar)], data,
                             Ed25519.Nothing));
  }

  function InitializePayload(index: u32, owner: Key, policy: Policy, wireKey: seq<byte>): (b: seq<byte>)
    ensures |b| == 37 + |wireKey|
  {
    Le32(index) + owner + [policy.AsByte()] + wireKey
  }

  /** `initialize_data`. */
  function InitializeData(index: u32, owner: Key, policy: Policy, wireKey: seq<byte>): seq<byte> {
    [0] + InitializePayload(index, owner, policy, wireKey)
  }

  function InitializeMetas(creator: Key, vault: Key): seq<Meta> {
    [Signer(creator), Writable(vault), Readonly(SYSTEM)]
  }

  /** The address is derived first, then the key's length is checked. */
  method InitializeInstruction(host: Host, creator: Key, index: u32, owner: Key, policy: Policy, wireKey: seq<byte>)
    returns (r: Build<(Instruction, Key, byte)>)
    ensures var derived := VaultAddress(host, creator, index);
            r == if derived.None? then Refused(PdaDerivation)
                 else if |wireKey| != FALCON_WIRE_KEY_LEN then Refused(KeyFileLength)
                 else
                   Built((Instruction(InitializeMetas(creator, derived.value.0),
                                      InitializeData(index, owner, policy, wireKey),
                                      Ed25519.Nothing),
                          derived.value.0, derived.value.1))
  {
    hide Le32;
    var derived := VaultAddress(host, creator, index);
    if derived.None? {
      return Refused(PdaDerivation);
    }
    if |wireKey| != FALCON_WIRE_KEY_LEN {
      return Refused(KeyFileLength);
    }
    var (vault, bump) := derived.value;
    var data := [];
    data := data + [0];
    data := data + Le32(index);
    data := data + owner;
    data := data + [policy.AsByte()];
    data := data + wireKey;
    assert data == InitializeData(index, owner, policy, wireKey);
    return Built((Instruction([Signer(creator), Writable(vault), Readonly(SYSTEM)], data, Ed25519.Nothing),
                  vault, bump));
  }

  /** `initiate_social_recovery_instruction` and `finalize_social_recovery_instruction`. */
  function InitiateInstruction(host: Host, vault: Key, config: Key, newOwner: Key): Instruction {
    Instruction([Readonly(vault), Writable(config), Readonly(host.instructionsSysvar)], [7] + newOwner, Ed25519.Nothing)
  }

  function FinalizeInstruction(vault: Key, config: Key): Instruction {
    Instruction([Writable(vault), Writable(config)], [8], Ed25519.Nothing)
  }

  // ------------------------------------------------------ what is read back

  /** An instruction as built, behind whatever precedes it in its transaction. */
  predicate BuiltFor(host: Host, ix: Instruction, vault: Key, intent: Intent, signature: seq<byte>, x: Extras) {
    && |signature| == FALCON_SIGNATURE_LEN
    && (intent.action.RotateFalconKey? ==> |x.wireKey| == FALCON_WIRE_KEY_LEN && |x.possession| == FALCON_SIGNATURE_LEN)
    && ix == InstructionFor(host, vault, intent, signature, x).(previous := ix.previous)
  }

  /** The program reads back exactly what the client meant. */
  lemma ReadBack(host: Host, ix: Instruction, vault: Key, intent: Intent, signature: seq<byte>, x: Extras)
    requires BuiltFor(host, ix, vault, intent, signature, x)
    ensures WireOf(ix) == Ok(WireFor(intent)) && SignatureOf(ix) == signature
    ensures SubjectOf(ix) == vault && SysvarOf(ix) == host.instructionsSysvar
    ensures ix.data[0] == DiscriminatorOf(intent.action) && IsSigned(ix)
    ensures var payload := ix.data[1..];
            && |payload| == (if intent.action.RotateFalconKey? then ROTATE_FALCON_PAYLOAD_LEN else AUTH_PAYLOAD_LEN)
            && DecodeWire(payload[..49]) == Ok(WireFor(intent))
            && (!intent.action.RotateFalconKey? ==> payload[49..] == signature)
            && (intent.action.RotateFalconKey? ==>
                  payload[49..715] == signature && payload[715..1612] == x.wireKey && payload[1612..] == x.possession)
  {
    hide WireBytes, DecodeWire, MetasFor;
    DataRegions(intent, signature, x);
    MetasEnds(host, vault, intent.action, x);
    WireRoundTrip(WireFor(intent));
  }

  lemma MetasEnds(host: Host, vault: Key, action: Action, x: Extras)
    ensures var metas := MetasFor(host, vault, action, x);
            metas != [] && metas[0].key == vault && metas[|metas| - 1].key == host.instructionsSysvar
  {
  }

  lemma DataRegions(intent: Intent, signature: seq<byte>, x: Extras)
    requires |signature| == FALCON_SIGNATURE_LEN
    requires intent.action.RotateFalconKey? ==>
               |x.wireKey| == FALCON_WIRE_KEY_LEN && |x.possession| == FALCON_SIGNATURE_LEN
    ensures var data := DataFor(intent, signature, x);
            && |data| == (if intent.action.RotateFalconKey? then 1 + ROTATE_FALCON_PAYLOAD_LEN
                          else 1 + AUTH_PAYLOAD_LEN)
            && data[0] == DiscriminatorOf(intent.action)
            && data[1..50] == data[1..][..49] == WireBytes(WireFor(intent)) && data[50..716] == signature
            && (!intent.action.RotateFalconKey? ==> data[1..][49..] == signature)
            && (intent.action.RotateFalconKey? ==>
                  && data[1..][49..715] == signature
                  && data[1..][715..1612] == x.wireKey
                  && data[1..][1612..] == x.possession)
  {
    hide WireBytes, DiscriminatorOf;
    var data, wire := DataFor(intent, signature, x), WireBytes(WireFor(intent));
    assert data[1..50] == wire;
    assert data[1..][..49] == wire;
    assert data[50..716] == signature;
    if intent.action.RotateFalconKey? {
      assert data[1..][49..715] == signature;
      assert data[1..][715..1612] == x.wireKey;
      assert data[1..][1612..] == x.possession;
    } else {
      assert data[1..][49..] == signature;
    }
  }

  lemma InitializeRegions(index: u32, owner: Key, policy: Policy, wireKey: seq<byte>)
    ensures var payload := InitializePayload(index, owner, policy, wireKey);
            && payload[0..4] == Le32(index) && payload[4..36] == owner && payload[36] == policy.AsByte()
            && payload[37..] == wireKey
  {
    hide Le32, Policy.AsByte;
    var payload := InitializePayload(index, owner, policy, wireKey);
    assert payload[0..4] == Le32(index);
    assert payload[4..36] == owner;
    assert payload[37..] == wireKey;
  }

  lemma InitializeReadBack(index: u32, owner: Key, policy: Policy, wireKey: seq<byte>)
    requires |wireKey| == FALCON_WIRE_KEY_LEN
    ensures InitializeData(index, owner, policy, wireKey)[1..] == InitializePayload(index, owner, policy, wireKey)
    ensures ParseInitialize(InitializeData(index, owner, policy, wireKey)[1..])
            == Ok(InitializeArgs(index, owner, policy, wireKey))
  {
    hide Le32, InitializePayload;
    var payload := InitializePayload(index, owner, policy, wireKey);
    assert InitializeData(index, owner, policy, wireKey)[1..] == payload;
    InitializeRegions(index, owner, policy, wireKey);
    assert payload[37..934] == payload[37..];
    WordRoundTrip(0, index);
    PolicyRoundTrip(policy);
  }

  /** Which payloads parse, and that encoding what was parsed gives the payload back. */
  lemma InitializeWriteBack(payload: seq<byte>)
    ensures ParseInitialize(payload).Ok? <==> |payload| == INITIALIZE_PAYLOAD_LEN && payload[36] <= 5
    ensures ParseInitialize(payload).Err? ==>
              ParseInitialize(payload).error ==
              if |payload| != INITIALIZE_PAYLOAD_LEN then MalformedInstructionData else PolicyRejected
    ensures ParseInitialize(payload).Ok? ==>
              var args := ParseInitialize(payload).value;
              InitializeData(args.index, args.owner, args.policy, args.wireKey) == [0] + payload
  {
    hide Le32, ToLe, FromLe;
    if |payload| == INITIALIZE_PAYLOAD_LEN {
      InitializeParts(payload);
    }
  }

  lemma InitializeParts(payload: seq<byte>)
    requires |payload| == INITIALIZE_PAYLOAD_LEN
    ensures payload == payload[0..4] + payload[4..36] + [payload[36]] + payload[37..934]
  {
  }

  lemma PolicyRoundTrip(policy: Policy)
    ensures Policy.FromByte(policy.AsByte()) == Some(policy)
  {
  }
}
