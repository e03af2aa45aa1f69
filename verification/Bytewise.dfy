/** What signatures cover and who may act, read off the raw bytes of instructions and
    accounts: literal offsets and codes, and none of the model's own readings. */
module Bytewise {
  import opened Prelude
  import opened Bytes
  import opened Intent
  import opened Codec
  import opened State
  import opened Host
  import opened Authorize
  import opened Protocol
  import opened Outcome
  import opened Ledger
  import opened Steps
  import opened Runs
  import Ed25519

  // -------------------------------------------------------- what is signed

  /** The 172 bytes signed for an instruction with data `d` about a vault with bytes `b`:
      tag, version 1, chain, program, vault, stored nonce, then expiry, tag and body as
      the instruction carries them, pads zeroed. */
  predicate SigningBytes(host: Host, vault: Key, b: seq<byte>, d: seq<byte>, p: seq<byte>)
    requires |b| == 1120 && |d| >= 50
  {
    && |p| == 172 && p[0] == 17
    && p[1..18] == [0x44, 0x55, 0x41, 0x4C, 0x4B, 0x45, 0x59, 0x5F, 0x53, 0x4F, 0x4C, 0x41, 0x4E, 0x41, 0x5F, 0x56,
                    0x31]
    && p[18] == 1
    && p[19..51] == host.chainDomain && p[51..83] == host.programId && p[83..115] == vault
    && p[115..123] == b[72..80]
    && p[123..131] == d[1..9] && p[131] == d[9]
    && NormalBody(d[9], d[10..50], p[132..172])
  }

  lemma FragmentSlices(d: seq<byte>)
    requires |d| >= 50
    ensures d[1..50][0..8] == d[1..9] && d[1..50][8] == d[9] && d[1..50][9..49] == d[10..50]
  {
  }

  lemma SignedIsSigningBytes(host: Host, vault: Key, b: seq<byte>, d: seq<byte>, wire: Wire)
    requires |b| == 1120 && |d| >= 50 && DecodeWire(d[1..50]) == Ok(wire)
    ensures SigningBytes(host, vault, b, d, Preimage(IntentAt(host, vault, VaultOf(b).nonce, wire)))
  {
    hide Preimage, DecodeWire, Body, NormalBody, TaggedFields, Le64;
    var i := IntentAt(host, vault, VaultOf(b).nonce, wire);
    FragmentSlices(d);
    PreimageBytes(i);
    FragmentFields(d[1..50]);
    BodyIsNormal(d[1..50]);
    TagInPlace(i);
  }

  lemma TagInPlace(i: Intent)
    ensures Preimage(i)[131] == i.action.Tag()
  {
    hide Preimage, Body, Le64;
    PreimageBytes(i);
  }

  // --------------------------------------------------- who may act, by byte

  /** What each stored policy byte accepts. `amount` is what a transfer moves; other
      actions are privileged. Bytes above 5 accept nothing. */
  predicate ByteAccepts(policy: byte, bound: nat, amount: Option<u64>, ed25519: bool, falcon: bool) {
    match policy
    case 0 => ed25519
    case 1 => falcon
    case 2 => ed25519 && falcon
    case 3 => ed25519 || falcon
    case 4 => if amount.Some? then ed25519 else falcon
    case 5 => if amount.Some? && amount.value <= bound then ed25519 else falcon
    case _ => false
  }

  /** The stored threshold: zero unless flag bit 1 is set. */
  function Bound(b: seq<byte>): nat
    requires |b| == 1120
  {
    if b[3] / 2 % 2 == 1 then U64Of(b[80..88]) else 0
  }

  lemma PolicyByteMeans(code: byte, action: Action, threshold: Option<u64>, ed25519: bool, falcon: bool)
    ensures Policy.FromByte(code).Some?
            && Policy.FromByte(code).value.SignatureRequirement(action, threshold).AcceptedBy(ed25519, falcon)
            <==> ByteAccepts(code, if threshold.Some? then threshold.value else 0, AmountOf(action), ed25519, falcon)
  {
    match code
    case 4 =>
    case 5 =>
    case _ =>
  }

  lemma PolicyByteExists(code: byte)
    ensures Policy.FromByte(code).Some? <==> code <= 5
  {
  }

  /** Who may authorize an action, over the raw bytes of a stored vault. */
  predicate BytesAllow(b: seq<byte>, action: Action, ed25519: bool, falcon: bool)
    requires |b| == 1120
  {
    if action.RecoverAccount? && action.op.RotateOwner? then b[2] <= 5 && b[3] % 2 == 1 && falcon
    else if action.ChangePolicy? then
      ByteAccepts(b[2], Bound(b), None, ed25519, falcon) && ByteAccepts(action.newPolicy, 0, None, ed25519, falcon)
    else ByteAccepts(b[2], Bound(b), AmountOf(action), ed25519, falcon)
  }

  lemma RequirementInBytes(b: seq<byte>, action: Action, ed25519: bool, falcon: bool)
    requires |b| == 1120
    ensures var v := VaultOf(b);
            (&& Policy.FromByte(v.policy).Some?
             && RequiredOf(v, action).Ok? && RequiredOf(v, action).value.AcceptedBy(ed25519, falcon))
            <==> BytesAllow(b, action, ed25519, falcon)
  {
    hide U64Of, U32Of, ByteAccepts, Policy.FromByte, Policy.SignatureRequirement, Requirement.AcceptedBy,
         Requirement.Meet;
    var v := VaultOf(b);
    PolicyByteMeans(b[2], action, v.Threshold(), ed25519, falcon);
    PolicyByteExists(b[2]);
    if Policy.FromByte(b[2]).Some? && action.ChangePolicy? {
      var target := Policy.FromByte(action.newPolicy);
      PolicyChangeNeedsBoth(Policy.FromByte(b[2]).value, v.Threshold(), v.RecoveryEnabled(), action.newPolicy,
                            action.threshold, ed25519, falcon);
      if target.Some? {
        var after := ResultingThreshold(target.value, action.threshold);
        PolicyByteMeans(action.newPolicy, action, after, ed25519, falcon);
        BoundUnused(action.newPolicy, if after.Some? then after.value else 0, ed25519, falcon);
      }
    }
    PrivilegedHasNoAmount(action);
    FalconDecides(ed25519, falcon);
    if action.ChangePolicy? {
      UnknownAcceptsNothing(action, ed25519, falcon);
    }
  }

  lemma BoundUnused(code: byte, bound: nat, ed25519: bool, falcon: bool)
    ensures ByteAccepts(code, bound, None, ed25519, falcon) == ByteAccepts(code, 0, None, ed25519, falcon)
  {
  }

  lemma PrivilegedHasNoAmount(action: Action)
    ensures action.ChangePolicy? ==> AmountOf(action).None?
  {
  }

  lemma UnknownAcceptsNothing(action: Action, ed25519: bool, falcon: bool)
    requires action.ChangePolicy?
    ensures Policy.FromByte(action.newPolicy).None? ==> !ByteAccepts(action.newPolicy, 0, None, ed25519, falcon)
  {
  }

  /** Authorization over raw bytes, in both directions: the signature's length, the
      expiry, the account's owner, length and version, room for another nonce, and what
      the stored policy byte accepts of the two verdicts. */
  lemma AuthorizedInBytes(
      host: Host, w: World, previous: Preceding, vault: Key, sysvar: Key, wire: Wire, signature: seq<byte>)
    ensures var a := Get(w, vault);
            var b := a.data;
            Authorized(host, w, previous, vault, sysvar, wire, signature).Ok? <==>
              && |signature| == 666
              && w.slot <= wire.expirySlot
              && a.owner == host.programId && |b| == 1120 && b[0] == 1
              && U64Of(b[72..80]) < 0xFFFF_FFFF_FFFF_FFFF
              && var digest := Digest(host, vault, U64Of(b[72..80]), wire);
                 BytesAllow(b, wire.action, Ed25519.Verify(host, sysvar, previous, b[8..40], digest).Ok?,
                            host.falcon(b[96..1120], digest, signature) == Valid)
  {
    hide Authorized, Digest, Ed25519.Verify, BytesAllow, EffectiveRequirement, Policy.FromByte, U64Of, U32Of, Get;
    AuthorizedExact(host, w, previous, vault, sysvar, wire, signature);
    var b := Get(w, vault).data;
    if |b| == 1120 {
      var digest := Digest(host, vault, U64Of(b[72..80]), wire);
      RequirementInBytes(b, wire.action, Ed25519.Verify(host, sysvar, previous, b[8..40], digest).Ok?,
                         host.falcon(b[96..1120], digest, signature) == Valid);
    }
  }

  // ---------------------------------------------------- signed instructions

  /** The part of an instruction that names its action and amount. */
  predicate CarriesAction(d: seq<byte>, action: Action)
    requires |d| >= 50
  {
    TaggedFields(d[9], d[10..50], action)
  }

  /** The action an instruction's bytes stand for, by discriminator and tag. */
  predicate RightDiscriminator(d: seq<byte>)
    requires |d| >= 50
  {
    && (d[0] == 1 <==> d[9] == 1 || d[9] == 2)
    && (d[0] == 2 <==> d[9] == 3)
    && (d[0] == 3 <==> d[9] == 4)
    && (d[0] == 4 <==> d[9] == 5)
    && (d[0] == 5 <==> d[9] == 6)
    && (d[0] == 6 <==> d[9] == 7)
    && (d[0] == 9 <==> d[9] == 8)
  }

  lemma TagGivesDiscriminator(d: seq<byte>, action: Action)
    requires |d| >= 50 && CarriesAction(d, action) && d[0] == DiscriminatorOf(action)
    ensures RightDiscriminator(d)
  {
  }

  /** What the carried bytes allow: the signatures of a step that act on vault bytes `b`
      over the signing bytes `p`. */
  ghost predicate SignaturesAllow(host: Host, ix: Instruction, b: seq<byte>, p: seq<byte>)
    requires |b| == 1120 && |ix.data| >= 716
  {
    var d := ix.data;
    var ed25519 := Ed25519.FrontSigned(host, SysvarOf(ix), ix.previous, b[8..40], host.sha(p));
    var falcon := host.falcon(b[96..1120], host.sha(p), d[50..716]) == Valid;
    if d[9] == 6 && d[10] == 2 then b[2] <= 5 && b[3] % 2 == 1 && falcon
    else if d[9] == 5 then
      ByteAccepts(b[2], Bound(b), None, ed25519, falcon) && ByteAccepts(d[10], 0, None, ed25519, falcon)
    else ByteAccepts(b[2], Bound(b), if d[9] <= 2 then Some(U64Of(d[42..50])) else None, ed25519, falcon)
  }

  lemma AllowedInData(host: Host, ix: Instruction, b: seq<byte>, p: seq<byte>, action: Action)
    requires |b| == 1120 && |ix.data| >= 716 && CarriesAction(ix.data, action)
    requires BytesAllow(b, action, Ed25519.FrontSigned(host, SysvarOf(ix), ix.previous, b[8..40], host.sha(p)),
                        host.falcon(b[96..1120], host.sha(p), ix.data[50..716]) == Valid)
    ensures SignaturesAllow(host, ix, b, p)
  {
    hide ByteAccepts, Ed25519.FrontSigned, Bound, SysvarOf;
    BodyWord(ix.data);
    AmountWord(action);
  }

  lemma BodyWord(d: seq<byte>)
    requires |d| >= 50
    ensures d[10..50][32..40] == d[42..50] && d[10..50][0] == d[10] && d[10..50][0..32] == d[10..42]
    ensures d[10..50][8..16] == d[18..26] && d[10..50][8..40] == d[18..50]
  {
  }

  lemma AmountWord(action: Action)
    ensures action.TransferSol? ==> AmountOf(action) == Some(U64Of(Le64(action.lamports)))
    ensures action.TransferSpl? ==> AmountOf(action) == Some(U64Of(Le64(action.amount)))
    ensures !action.TransferSol? && !action.TransferSpl? ==> AmountOf(action) == None
  {
    if action.TransferSol? {
      WordRoundTrip(action.lamports, 0);
    }
    if action.TransferSpl? {
      WordRoundTrip(action.amount, 0);
    }
  }

  /** Every successful signed instruction, read off its bytes and those of its vault:
      its discriminator matches its tag, it is unexpired, the nonce can move, and the
      signatures it carries are allowed by the stored policy byte over signing bytes that
      name this vault, this nonce and what the instruction itself carries. */
  lemma SignedMeans(host: Host, w: World, ix: Instruction) returns (p: seq<byte>, action: Action)
    requires Ed25519.RuntimeVerified(host, ix.previous)
    requires ix.data != [] && ix.data[0] in {1, 2, 3, 4, 5, 6, 9} && Decide(host, w, ix).Ok?
    ensures |ix.data| >= 716 && ix.metas != []
    ensures RightDiscriminator(ix.data) && CarriesAction(ix.data, action)
    ensures WireOf(ix).Ok? && WireOf(ix).value.action == action
    ensures var k := ix.metas[0].key;
            var b := Get(w, k).data;
            && Decide(host, w, ix).value.vault == k
            && Get(w, k).owner == host.programId && |b| == 1120 && b[0] == 1
            && U64Of(b[72..80]) < 0xFFFF_FFFF_FFFF_FFFF
            && w.slot <= U64Of(ix.data[1..9])
            && SigningBytes(host, k, b, ix.data, p)
            && SignaturesAllow(host, ix, b, p)
            && PossessionShown(host, ix.data, p)
  {
    hide HostOk, Decide, NamesVault, SignedOutcome, SigningBytes, SignaturesAllow, RightDiscriminator, CarriesAction,
         WireOf, SysvarOf, Get, Ed25519.RuntimeVerified, PossessionShown, U64Of, Digest;
    var q := Decide(host, w, ix).value;
    SignedInstruction(host, w, ix, q);
    DecidedNames(host, w, ix, q);
    NamedFirst(ix, q.vault);
    p, action := SignedOutcomeMeans(host, w, ix, q);
    PossessionProved(host, w, ix, q, p);
  }

  /** A new Falcon key comes with a signature of its own over the same digest. */
  predicate PossessionShown(host: Host, d: seq<byte>, p: seq<byte>)
    requires |d| >= 716
  {
    d[9] == 4 ==> |d| == 2279 && host.falconRaw(d[716..1613], host.sha(p), d[1613..2279]) == Valid
  }

  lemma PossessionProved(host: Host, w: World, ix: Instruction, q: Patch, p: seq<byte>)
    requires |ix.data| >= 716 && RightDiscriminator(ix.data) && Decide(host, w, ix) == Ok(q)
    requires WireOf(ix).Ok? && |Get(w, q.vault).data| == 1120
    requires host.sha(p) == Digest(host, q.vault, U64Of(Get(w, q.vault).data[72..80]), WireOf(ix).value)
    ensures PossessionShown(host, ix.data, p)
  {
    hide DecideInitialize, DecideExecute, DecideRotateEd25519, DecideChangePolicy, DecideRecover,
         DecideSetRecoveryConfig, DecideInitiate, DecideFinalize, DecideCancel, DecideRotateFalcon, Digest, U64Of, Get,
         DecodeWire;
    if ix.data[9] == 4 {
      RotationPossession(host, w, ix, q);
    }
  }

  lemma RotationPossession(host: Host, w: World, ix: Instruction, q: Patch)
    requires ix.data != [] && DecideRotateFalcon(host, w, ix, ix.data[1..]) == Ok(q) && WireOf(ix).Ok?
    ensures |ix.data| == 2279 && |Get(w, q.vault).data| == 1120
    ensures var digest := Digest(host, q.vault, U64Of(Get(w, q.vault).data[72..80]), WireOf(ix).value);
            host.falconRaw(ix.data[716..1613], digest, ix.data[1613..2279]) == Valid
  {
    hide DecodeWire, Authorized, Digest, U64Of, U32Of, Get;
    PayloadRegions(ix);
    var d := ix.data;
    assert d[1..][1612..] == d[1613..2279];
    var wire := DecodeWire(d[1..][..49]).value;
    AuthorizedExact(host, w, ix.previous, ix.metas[0].key, SysvarOf(ix), wire, SignatureOf(ix));
  }

  lemma NamedFirst(ix: Instruction, k: Key)
    requires NamesVault(ix, k) && ix.data[0] != 0
    ensures ix.metas != [] && ix.metas[0].key == k
  {
  }

  lemma SignedOutcomeMeans(host: Host, w: World, ix: Instruction, q: Patch) returns (p: seq<byte>, action: Action)
    requires Ed25519.RuntimeVerified(host, ix.previous) && SignedOutcome(host, w, ix, q)
    ensures |ix.data| >= 716
    ensures RightDiscriminator(ix.data) && CarriesAction(ix.data, action)
    ensures WireOf(ix).Ok? && WireOf(ix).value.action == action
    ensures var b := Get(w, q.vault).data;
            && Get(w, q.vault).owner == host.programId && |b| == 1120 && b[0] == 1
            && U64Of(b[72..80]) < 0xFFFF_FFFF_FFFF_FFFF
            && w.slot <= U64Of(ix.data[1..9])
            && SigningBytes(host, q.vault, b, ix.data, p)
            && SignaturesAllow(host, ix, b, p)
            && host.sha(p) == Digest(host, q.vault, U64Of(b[72..80]), WireOf(ix).value)
  {
    hide SigningBytes, SignaturesAllow, RightDiscriminator, TaggedFields, DecodeWire, Ed25519.RuntimeVerified,
         Ed25519.Verify, Ed25519.FrontSigned, Ed25519.Carries,
         BytesAllow, Authorized, U64Of, U32Of, Digest, SignedOutcome;
    OutcomeAuthorized(host, w, ix, q);
    var wire, b := WireOf(ix).value, Get(w, q.vault).data;
    action := wire.action;
    AuthorizedInBytes(host, w, ix.previous, q.vault, SysvarOf(ix), wire, SignatureOf(ix));
    p := Preimage(IntentAt(host, q.vault, U64Of(b[72..80]), wire));
    FragmentSlices(ix.data);
    FragmentFields(ix.data[1..50]);
    TagGivesDiscriminator(ix.data, action);
    ExpiryWord(ix.data, wire);
    SignedIsSigningBytes(host, q.vault, b, ix.data, wire);
    DigestOf(host, q.vault, U64Of(b[72..80]), wire);
    Ed25519.IntrospectionSound(host, SysvarOf(ix), ix.previous, b[8..40], host.sha(p));
    Ed25519.CarriesPlainly(host, SysvarOf(ix), ix.previous, b[8..40], host.sha(p));
    AllowedInData(host, ix, b, p, action);
  }

  lemma DigestOf(host: Host, vault: Key, nonce: u64, wire: Wire)
    ensures Digest(host, vault, nonce, wire) == host.sha(Preimage(IntentAt(host, vault, nonce, wire)))
  {
    hide Preimage, IntentAt;
  }

  lemma ExpiryWord(d: seq<byte>, wire: Wire)
    requires |d| >= 50 && Le64(wire.expirySlot) == d[1..9]
    ensures U64Of(d[1..9]) == wire.expirySlot
  {
    WordRoundTrip(wire.expirySlot, 0);
  }

  lemma OutcomeAuthorized(host: Host, w: World, ix: Instruction, q: Patch)
    requires SignedOutcome(host, w, ix, q)
    ensures |ix.data| >= 716 && WireOf(ix).Ok? && ix.data[0] == DiscriminatorOf(WireOf(ix).value.action)
    ensures Authorized(host, w, ix.previous, q.vault, SysvarOf(ix), WireOf(ix).value, SignatureOf(ix)).Ok?
    ensures SignatureOf(ix) == ix.data[50..716] && DecodeWire(ix.data[1..50]) == Ok(WireOf(ix).value)
  {
    hide DecodeWire, Authorized, MayAuthorize, VaultAt, VaultAfter, Permits, ConfigWritten, PaymentFits, TokensFit,
         NewPrepared, NewWireKey, SubjectOf, SysvarOf, DiscriminatorOf;
    AuthorizedExact(host, w, ix.previous, q.vault, SysvarOf(ix), WireOf(ix).value, SignatureOf(ix));
    AuthorizedLength(host, w, ix.previous, q.vault, SysvarOf(ix), WireOf(ix).value, SignatureOf(ix));
  }

  lemma AuthorizedLength(
      host: Host, w: World, previous: Preceding, vault: Key, sysvar: Key, wire: Wire, signature: seq<byte>)
    requires Authorized(host, w, previous, vault, sysvar, wire, signature).Ok?
    ensures |signature| == 666
  {
    hide VaultOf, Get, Digest, Ed25519.Verify, VerifyPrepared, EffectiveRequirement, Judge, Policy.FromByte;
  }
}
