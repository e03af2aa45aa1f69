/** The three fixed-width encodings: the 172-byte signing preimage, the 49-byte
    wire fragment and the 169-byte guardian preimage. */
module Codec {
  import opened Prelude
  import opened Bytes
  import opened Intent

  /** ASCII "DUALKEY_SOLANA_V1". */
  const DOMAIN_TAG: seq<byte> :=
    [0x44, 0x55, 0x41, 0x4C, 0x4B, 0x45, 0x59, 0x5F, 0x53, 0x4F, 0x4C, 0x41, 0x4E, 0x41, 0x5F, 0x56, 0x31]
  /** ASCII "SOCIAL_RECOVER". */
  const SOCIAL_TAG: seq<byte> :=
    [0x53, 0x4F, 0x43, 0x49, 0x41, 0x4C, 0x5F, 0x52, 0x45, 0x43, 0x4F, 0x56, 0x45, 0x52]

  const ACTION_BODY_LEN := 40
  const WIRE_LEN := 49
  const PREIMAGE_LEN := 172
  const SOCIAL_PREIMAGE_LEN := 169

  /** The part of an intent that travels in instruction data. */
  datatype Wire = Wire(expirySlot: u64, action: Action)

  // ----------------------------------------------------------- specifications

  function Body(action: Action): (b: seq<byte>)
    ensures |b| == ACTION_BODY_LEN
  {
    match action
    case TransferSol(recipient, lamports) => recipient + Le64(lamports)
    case TransferSpl(destination, amount) => destination + Le64(amount)
    case RotateEd25519Key(newOwner) => newOwner + Zeros(8)
    case RotateFalconKey(newHash) => newHash + Zeros(8)
    case ChangePolicy(newPolicy, threshold) => [newPolicy] + Zeros(7) + Le64(threshold) + Zeros(24)
    case RecoverAccount(op, newEd25519) => [op.AsByte()] + Zeros(7) + newEd25519
    case SetRecoveryConfig(guardian, delay) => guardian + Le64(delay)
    case CancelSocialRecovery => Zeros(40)
  }

  function WireBytes(w: Wire): (b: seq<byte>)
    ensures |b| == WIRE_LEN
  {
    Le64(w.expirySlot) + [w.action.Tag()] + Body(w.action)
  }

  /** The 123 bytes in front of the wire fragment: everything the program
      supplies from trusted context. */
  function ContextBytes(i: Intent): (b: seq<byte>)
    ensures |b| == 123
  {
    [17] + DOMAIN_TAG + [i.version] + i.chainDomain + i.programId + i.account + Le64(i.nonce)
  }

  function Preimage(i: Intent): (p: seq<byte>)
    ensures |p| == PREIMAGE_LEN
  {
    ContextBytes(i) + Le64(i.expirySlot) + [i.action.Tag()] + Body(i.action)
  }

  datatype GuardianClaim = GuardianClaim(
    chainDomain: Key,
    programId: Key,
    account: Key,
    newOwner: Key,
    nonce: u64)

  function SocialPreimage(g: GuardianClaim): (p: seq<byte>)
    ensures |p| == SOCIAL_PREIMAGE_LEN
  {
    [17] + DOMAIN_TAG + [14] + SOCIAL_TAG + g.chainDomain + g.programId + g.account + g.newOwner + Le64(g.nonce)
  }

  // ----------------------------------------------------------------- encoders

  /** `canonical_preimage`: fills a fixed array region by region. */
  method CanonicalPreimage(i: Intent) returns (out: array<byte>)
    ensures fresh(out) && out[..] == Preimage(i)
  {
    hide Filled, Body, Le64, ToLe, FromLe, Zeros;
    out := new byte[PREIMAGE_LEN](_ => 0);
    ghost var done := [];
    NothingFilled(out[..]);
    done := Put(out, done, 0, [17]);
    done := Put(out, done, 1, DOMAIN_TAG);
    done := Put(out, done, 18, [i.version]);
    done := Put(out, done, 19, i.chainDomain);
    done := Put(out, done, 51, i.programId);
    done := Put(out, done, 83, i.account);
    done := Put(out, done, 115, Le64(i.nonce));
    assert done == ContextBytes(i);
    done := Put(out, done, 123, Le64(i.expirySlot));
    done := Put(out, done, 131, [i.action.Tag()]);
    CanonicalBody(out, done, i.action);
  }

  method CanonicalBody(out: array<byte>, ghost head: seq<byte>, action: Action)
    requires |head| == 132 && out.Length == PREIMAGE_LEN
    requires out[..] == Filled(head, PREIMAGE_LEN)
    modifies out
    ensures out[..] == head + Body(action)
  {
    hide Filled, Body, Le64, ToLe, FromLe, Zeros;
    ghost var done := head;
    match action {
      case TransferSol(recipient, lamports) =>
        done := Put(out, done, 132, recipient);
        done := Put(out, done, 164, Le64(lamports));
      case RotateEd25519Key(newOwner) =>
        done := Put(out, done, 132, newOwner);
      case RotateFalconKey(newHash) =>
        done := Put(out, done, 132, newHash);
      case TransferSpl(destination, amount) =>
        done := Put(out, done, 132, destination);
        done := Put(out, done, 164, Le64(amount));
      case ChangePolicy(newPolicy, threshold) =>
        done := Put(out, done, 132, [newPolicy]);
        done := Put(out, done, 140, Le64(threshold));
      case RecoverAccount(op, newEd25519) =>
        done := Put(out, done, 132, [op.AsByte()]);
        done := Put(out, done, 140, newEd25519);
      case SetRecoveryConfig(guardian, delay) =>
        done := Put(out, done, 132, guardian);
        done := Put(out, done, 164, Le64(delay));
      case CancelSocialRecovery =>
    }
    BodyFilled(action, head, done, PREIMAGE_LEN);
  }

  /** `ExecuteIntentWire::encode`: the same body layout written by a second copy of
      the code at the wire fragment's own offsets. */
  method EncodeWire(w: Wire) returns (out: array<byte>)
    ensures fresh(out) && out[..] == WireBytes(w)
  {
    hide Filled, Body, Le64, ToLe, FromLe, Zeros;
    out := new byte[WIRE_LEN](_ => 0);
    ghost var done := [];
    NothingFilled(out[..]);
    done := Put(out, done, 0, Le64(w.expirySlot));
    done := Put(out, done, 8, [w.action.Tag()]);
    WireBody(out, done, w.action);
  }

  method WireBody(out: array<byte>, ghost head: seq<byte>, action: Action)
    requires |head| == 9 && out.Length == WIRE_LEN
    requires out[..] == Filled(head, WIRE_LEN)
    modifies out
    ensures out[..] == head + Body(action)
  {
    hide Filled, Body, Le64, ToLe, FromLe, Zeros;
    ghost var done := head;
    match action {
      case TransferSol(recipient, lamports) =>
        done := Put(out, done, 9, recipient);
        done := Put(out, done, 41, Le64(lamports));
      case RotateEd25519Key(newOwner) =>
        done := Put(out, done, 9, newOwner);
      case RotateFalconKey(newHash) =>
        done := Put(out, done, 9, newHash);
      case TransferSpl(destination, amount) =>
        done := Put(out, done, 9, destination);
        done := Put(out, done, 41, Le64(amount));
      case ChangePolicy(newPolicy, threshold) =>
        done := Put(out, done, 9, [newPolicy]);
        done := Put(out, done, 17, Le64(threshold));
      case RecoverAccount(op, newEd25519) =>
        done := Put(out, done, 9, [op.AsByte()]);
        done := Put(out, done, 17, newEd25519);
      case SetRecoveryConfig(guardian, delay) =>
        done := Put(out, done, 9, guardian);
        done := Put(out, done, 41, Le64(delay));
      case CancelSocialRecovery =>
    }
    BodyFilled(action, head, done, WIRE_LEN);
  }

  /** `social_recover_preimage`: fills the buffer behind a moving index. */
  method GuardianPreimage(g: GuardianClaim) returns (out: array<byte>)
    ensures fresh(out) && out[..] == SocialPreimage(g)
  {
    hide Filled, Body, Le64, ToLe, FromLe, Zeros;
    out := new byte[SOCIAL_PREIMAGE_LEN](_ => 0);
    ghost var done := [];
    NothingFilled(out[..]);
    done := Put(out, done, 0, [17]);
    done := Put(out, done, 1, DOMAIN_TAG);
    var i := 18;
    done := Put(out, done, i, [14]);
    i := i + 1;
    done := Put(out, done, i, SOCIAL_TAG);
    i := i + 14;
    done := Put(out, done, i, g.chainDomain);
    i := i + 32;
    done := Put(out, done, i, g.programId);
    i := i + 32;
    done := Put(out, done, i, g.account);
    i := i + 32;
    done := Put(out, done, i, g.newOwner);
    i := i + 32;
    done := Put(out, done, i, Le64(g.nonce));
    assert i + 8 == SOCIAL_PREIMAGE_LEN;
  }

  /** A zero-filled buffer of `len` bytes whose front has been written. */
  ghost function Filled(done: seq<byte>, len: nat): (r: seq<byte>)
    requires |done| <= len
    ensures |r| == len
    ensures |done| == len ==> r == done
  {
    done + Zeros(len - |done|)
  }

  lemma NothingFilled(buffer: seq<byte>)
    requires AllZero(buffer)
    ensures buffer == Filled([], |buffer|)
  {
  }

  /** Write `src` at `off`, leaving any gap after the written front at zero. */
  method Put(out: array<byte>, ghost done: seq<byte>, off: nat, src: seq<byte>) returns (ghost front: seq<byte>)
    requires |done| <= off && off + |src| <= out.Length
    requires out[..] == Filled(done, out.Length)
    modifies out
    ensures front == if off == 0 then src else if off == |done| then done + src else done + Zeros(off - |done|) + src
    ensures out[..] == Filled(front, out.Length)
  {
    CopyFromSlice(out, off, src);
    front := if off == 0 then src else if off == |done| then done + src else done + Zeros(off - |done|) + src;
  }

  /** The fronts that the eight action cases leave behind all pad out to `Body`. */
  lemma BodyFilled(a: Action, head: seq<byte>, done: seq<byte>, len: nat)
    requires |head| + ACTION_BODY_LEN == len && |done| <= len
    requires done == head + (match a
                             case TransferSol(x, n) => x + Le64(n)
                             case RotateEd25519Key(x) => x
                             case RotateFalconKey(x) => x
                             case TransferSpl(x, n) => x + Le64(n)
                             case ChangePolicy(p, n) => [p] + Zeros(7) + Le64(n)
                             case RecoverAccount(op, x) => [op.AsByte()] + Zeros(7) + x
                             case SetRecoveryConfig(x, n) => x + Le64(n)
                             case CancelSocialRecovery => [])
    ensures Filled(done, len) == head + Body(a)
  {
  }

  // ------------------------------------------------------------------ decoder

  /** `Action::from_wire`. */
  function ActionFromWire(tag: byte, body: seq<byte>): Result<Action> {
    if |body| != ACTION_BODY_LEN then Err(MalformedInstructionData)
    else
      match tag
      case 1 => Ok(TransferSol(body[..32], U64Of(body[32..40])))
      case 2 => Ok(TransferSpl(body[..32], U64Of(body[32..40])))
      case 3 => Ok(RotateEd25519Key(body[..32]))
      case 4 => Ok(RotateFalconKey(body[..32]))
      case 5 => Ok(ChangePolicy(body[0], U64Of(body[8..16])))
      case 6 =>
        (match RecoveryOp.FromByte(body[0])
         case None => Err(UnsupportedAction)
         case Some(op) => Ok(RecoverAccount(op, body[8..40])))
      case 7 => Ok(SetRecoveryConfig(body[..32], U64Of(body[32..40])))
      case 8 => if !AllZero(body) then Err(MalformedInstructionData) else Ok(CancelSocialRecovery)
      case _ => Err(UnsupportedAction)
  }

  /** `ExecuteIntentWire::decode`. */
  function DecodeWire(bytes: seq<byte>): Result<Wire> {
    if |bytes| != WIRE_LEN then Err(MalformedInstructionData)
    else
      var action :- ActionFromWire(bytes[8], bytes[9..49]);
      Ok(Wire(U64Of(bytes[0..8]), action))
  }

  // --------------------------------------------------------------- theorems

  lemma BodyRoundTrip(a: Action)
    ensures ActionFromWire(a.Tag(), Body(a)) == Ok(a)
  {
    var b := Body(a);
    match a
    case TransferSol(x, n) =>
      assert b[..32] == x && b[32..40] == Le64(n);
    case TransferSpl(x, n) =>
      assert b[..32] == x && b[32..40] == Le64(n);
    case RotateEd25519Key(x) =>
      assert b[..32] == x;
    case RotateFalconKey(x) =>
      assert b[..32] == x;
    case ChangePolicy(p, n) =>
      assert b[8..16] == Le64(n);
    case RecoverAccount(op, x) =>
      assert b[8..40] == x;
    case SetRecoveryConfig(x, n) =>
      assert b[..32] == x && b[32..40] == Le64(n);
    case CancelSocialRecovery =>
  }

  /** Decoding inverts encoding, for every expiry and all eight actions. */
  lemma WireRoundTrip(w: Wire)
    ensures DecodeWire(WireBytes(w)) == Ok(w)
  {
    var b := WireBytes(w);
    assert b[8] == w.action.Tag();
    assert b[9..49] == Body(w.action);
    assert b[0..8] == Le64(w.expirySlot);
    BodyRoundTrip(w.action);
  }

  /** Which fragments decode: every pad is accepted but the last action's, and nothing
      else is. */
  lemma DecodeDomain(bytes: seq<byte>)
    ensures DecodeWire(bytes).Ok? <==>
            && |bytes| == WIRE_LEN
            && 1 <= bytes[8] <= 8
            && (bytes[8] == 6 ==> bytes[9] <= 2)
            && (bytes[8] == 8 ==> AllZero(bytes[9..49]))
    ensures DecodeWire(bytes).Err? ==>
              DecodeWire(bytes).error ==
              if |bytes| != WIRE_LEN || bytes[8] == 8 then MalformedInstructionData else UnsupportedAction
    ensures DecodeWire(bytes).Ok? ==>
              && DecodeWire(bytes).value.action.Tag() == bytes[8]
              && Le64(DecodeWire(bytes).value.expirySlot) == bytes[0..8]
  {
    hide AllZero, Le64, ToLe, FromLe;
  }

  /** The bytes of a fragment that its decoder does not ignore agree with a
      re-encoding; the ignored ones are the pads of tags 3 to 6. */
  predicate PadsAreZero(bytes: seq<byte>)
    requires |bytes| == WIRE_LEN
  {
    var tag, body := bytes[8], bytes[9..49];
    && (tag == 3 || tag == 4 ==> AllZero(body[32..40]))
    && (tag == 5 ==> AllZero(body[1..8]) && AllZero(body[16..40]))
    && (tag == 6 ==> AllZero(body[1..8]))
  }

  /** Re-encoding an accepted fragment changes nothing but its pads: it gives the
      input back exactly when the pads were zero already, and always decodes to
      the same action, so pads never reach the digest. */
  lemma ReencodeNormalises(bytes: seq<byte>)
    requires DecodeWire(bytes).Ok?
    ensures DecodeWire(WireBytes(DecodeWire(bytes).value)) == DecodeWire(bytes)
    ensures WireBytes(DecodeWire(bytes).value) == bytes <==> PadsAreZero(bytes)
  {
    var w := DecodeWire(bytes).value;
    WireRoundTrip(w);
    var body := bytes[9..49];
    assert bytes == Le64(w.expirySlot) + [w.action.Tag()] + body;
    assert WireBytes(w)[9..49] == Body(w.action);
    assert WireBytes(w) == bytes <==> Body(w.action) == body;
    BodyReencodes(bytes, w);
  }

  /** A pad can be replaced by zeros without a trace exactly when it is zero. */
  lemma PadBehind(front: seq<byte>, pad: seq<byte>, back: seq<byte>)
    ensures front + Zeros(|pad|) + back == front + pad + back <==> AllZero(pad)
  {
    var zeroed, padded := front + Zeros(|pad|) + back, front + pad + back;
    AllZeroIsZeros(pad);
    if zeroed == padded {
      assert padded[|front|..|front| + |pad|] == pad;
      assert zeroed[|front|..|front| + |pad|] == Zeros(|pad|);
    }
  }

  lemma SplitAt(body: seq<byte>, a: nat, b: nat)
    requires a <= b <= |body|
    ensures body == body[..a] + body[a..b] + body[b..]
  {
  }

  lemma KeyPad(x: Key, body: seq<byte>)
    requires |body| == ACTION_BODY_LEN && x == body[..32]
    ensures x + Zeros(8) == body <==> AllZero(body[32..40])
  {
    SplitAt(body, 32, 40);
    PadBehind(x, body[32..40], body[40..]);
    assert x + Zeros(8) + body[40..] == x + Zeros(8);
  }

  lemma OpPad(op: byte, body: seq<byte>)
    requires |body| == ACTION_BODY_LEN && op == body[0]
    ensures [op] + Zeros(7) + body[8..40] == body <==> AllZero(body[1..8])
  {
    SplitAt(body, 1, 8);
    assert body[..1] == [op] && body[8..40] == body[8..];
    PadBehind([op], body[1..8], body[8..]);
  }

  lemma PolicyPads(p: byte, n: u64, body: seq<byte>)
    requires |body| == ACTION_BODY_LEN && p == body[0] && Le64(n) == body[8..16]
    ensures [p] + Zeros(7) + Le64(n) + Zeros(24) == body <==> AllZero(body[1..8]) && AllZero(body[16..40])
  {
    var again := [p] + Zeros(7) + Le64(n) + Zeros(24);
    AllZeroIsZeros(body[1..8]);
    AllZeroIsZeros(body[16..40]);
    assert again[1..8] == Zeros(7) && again[16..40] == Zeros(24);
    if AllZero(body[1..8]) && AllZero(body[16..40]) {
      PolicyParts(body);
    }
  }

  lemma PolicyParts(body: seq<byte>)
    requires |body| == ACTION_BODY_LEN
    ensures body == [body[0]] + body[1..8] + body[8..16] + body[16..40]
  {
  }

  lemma BodyReencodes(bytes: seq<byte>, w: Wire)
    requires DecodeWire(bytes) == Ok(w)
    ensures Body(w.action) == bytes[9..49] <==> PadsAreZero(bytes)
  {
    hide Le64, Zeros, AllZero;
    var body := bytes[9..49];
    match w.action
    case TransferSol(_, _) => WholeBody(body);
    case TransferSpl(_, _) => WholeBody(body);
    case SetRecoveryConfig(_, _) => WholeBody(body);
    case RotateEd25519Key(x) => KeyPad(x, body);
    case RotateFalconKey(x) => KeyPad(x, body);
    case ChangePolicy(p, n) => PolicyPads(p, n, body);
    case RecoverAccount(op, x) => OpPad(op.AsByte(), body);
    case CancelSocialRecovery => AllZeroIsZeros(body);
  }

  lemma WholeBody(body: seq<byte>)
    requires |body| == ACTION_BODY_LEN
    ensures body == body[..32] + body[32..40]
  {
  }

  /** Two codecs, one format: the tail of the preimage is the wire fragment. */
  lemma OneFormat(i: Intent)
    ensures Preimage(i)[123..172] == WireBytes(Wire(i.expirySlot, i.action))
    ensures DecodeWire(Preimage(i)[123..172]) == Ok(Wire(i.expirySlot, i.action))
  {
    assert Preimage(i)[123..172] == WireBytes(Wire(i.expirySlot, i.action));
    WireRoundTrip(Wire(i.expirySlot, i.action));
  }

  lemma ContextParts(i: Intent)
    ensures var c := ContextBytes(i);
            && c[..18] == [17] + DOMAIN_TAG
            && c[18] == i.version && c[19..51] == i.chainDomain && c[51..83] == i.programId
            && c[83..115] == i.account && c[115..123] == Le64(i.nonce)
  {
    hide Le64;
    var tag: seq<byte> := [17] + DOMAIN_TAG;
    var version := tag + [i.version];
    var domain := version + i.chainDomain;
    var program := domain + i.programId;
    var account := program + i.account;
    Append(tag, [i.version]);
    Append(version, i.chainDomain);
    Append(domain, i.programId);
    Append(program, i.account);
    Append(account, Le64(i.nonce));
    assert ContextBytes(i) == account + Le64(i.nonce);
    assert version[18] == i.version;
  }

  lemma ContextRegions(i: Intent)
    ensures var p := Preimage(i);
            && p[..18] == [17] + DOMAIN_TAG
            && p[18] == i.version && p[19..51] == i.chainDomain && p[51..83] == i.programId
            && p[83..115] == i.account && p[115..123] == Le64(i.nonce)
  {
    hide Le64, ContextBytes, Body;
    var c := ContextBytes(i);
    var expiry := c + Le64(i.expirySlot);
    var tagged := expiry + [i.action.Tag()];
    ContextParts(i);
    Append(c, Le64(i.expirySlot));
    Append(expiry, [i.action.Tag()]);
    Append(tagged, Body(i.action));
    assert Preimage(i) == tagged + Body(i.action);
  }

  /** Distinct intents have distinct preimages. */
  lemma PreimageInjective(i: Intent, j: Intent)
    requires Preimage(i) == Preimage(j)
    ensures i == j
  {
    ContextRegions(i);
    ContextRegions(j);
    OneFormat(i);
    OneFormat(j);
    WordRoundTrip(i.nonce, 0);
    WordRoundTrip(j.nonce, 0);
  }

  lemma SocialRegions(g: GuardianClaim)
    ensures var p := SocialPreimage(g);
            && p[..18] == [17] + DOMAIN_TAG && p[18] == 14
            && p[33..65] == g.chainDomain && p[65..97] == g.programId
            && p[97..129] == g.account && p[129..161] == g.newOwner && p[161..169] == Le64(g.nonce)
  {
    hide Le64;
    var tags: seq<byte> := [17] + DOMAIN_TAG + [14] + SOCIAL_TAG;
    var domain := tags + g.chainDomain;
    var program := domain + g.programId;
    var account := program + g.account;
    var owner := account + g.newOwner;
    Append([17] + DOMAIN_TAG, [14]);
    Append([17] + DOMAIN_TAG + [14], SOCIAL_TAG);
    Append(tags, g.chainDomain);
    Append(domain, g.programId);
    Append(program, g.account);
    Append(account, g.newOwner);
    Append(owner, Le64(g.nonce));
    assert SocialPreimage(g) == owner + Le64(g.nonce);
    assert tags[18] == 14;
  }

  /** Distinct guardian claims have distinct preimages. */
  lemma SocialPreimageInjective(g: GuardianClaim, h: GuardianClaim)
    requires SocialPreimage(g) == SocialPreimage(h)
    ensures g == h
  {
    SocialRegions(g);
    SocialRegions(h);
    WordRoundTrip(g.nonce, 0);
    WordRoundTrip(h.nonce, 0);
  }

  /** A reconstructed intent and a guardian claim already disagree at byte 18, so
      neither preimage can stand in for the other, whole or as a prefix. */
  lemma DomainsSeparate(i: Intent, g: GuardianClaim)
    requires i.version == INTENT_VERSION
    ensures Preimage(i) != SocialPreimage(g)
    ensures !(SocialPreimage(g) <= Preimage(i))
    ensures Preimage(i)[..18] == SocialPreimage(g)[..18] && Preimage(i)[18] != SocialPreimage(g)[18]
  {
    hide Preimage, SocialPreimage;
    ContextRegions(i);
    SocialRegions(g);
  }

  // ------------------------------------------------------------ plain bytes

  /** Every accepted fragment, tag by tag and field by field, in plain offsets. */
  lemma FragmentFields(bytes: seq<byte>)
    requires DecodeWire(bytes).Ok?
    ensures |bytes| == 49 && Le64(DecodeWire(bytes).value.expirySlot) == bytes[0..8]
    ensures TaggedFields(bytes[8], bytes[9..49], DecodeWire(bytes).value.action)
  {
    hide Le64, AllZero, Zeros;
    var body := bytes[9..49];
    AllZeroIsZeros(body);
    assert body[..32] == body[0..32];
  }

  /** The tag byte of each action, and where its fields stand in the body. */
  predicate TaggedFields(tag: byte, body: seq<byte>, action: Action)
    requires |body| == 40
  {
    && (tag == 1 <==> action.TransferSol?)
    && (tag == 2 <==> action.TransferSpl?)
    && (tag == 3 <==> action.RotateEd25519Key?)
    && (tag == 4 <==> action.RotateFalconKey?)
    && (tag == 5 <==> action.ChangePolicy?)
    && (tag == 6 <==> action.RecoverAccount?)
    && (tag == 7 <==> action.SetRecoveryConfig?)
    && (tag == 8 <==> action.CancelSocialRecovery?)
    && match action
       case TransferSol(recipient, lamports) => body[0..32] == recipient && body[32..40] == Le64(lamports)
       case TransferSpl(destination, amount) => body[0..32] == destination && body[32..40] == Le64(amount)
       case RotateEd25519Key(newOwner) => body[0..32] == newOwner
       case RotateFalconKey(newHash) => body[0..32] == newHash
       case ChangePolicy(newPolicy, threshold) => body[0] == newPolicy && body[8..16] == Le64(threshold)
       case RecoverAccount(op, newEd25519) =>
         && (body[0] == 0 <==> op.Enable?) && (body[0] == 1 <==> op.Disable?) && (body[0] == 2 <==> op.RotateOwner?)
         && body[8..40] == newEd25519
       case SetRecoveryConfig(guardian, delay) => body[0..32] == guardian && body[32..40] == Le64(delay)
       case CancelSocialRecovery => body == Zeros(40)
  }

  /** The body as it is signed: what the decoder reads, with every pad zero. */
  predicate NormalBody(tag: byte, body: seq<byte>, signed: seq<byte>)
    requires |body| == |signed| == 40
  {
    match tag
    case 1 => signed == body
    case 2 => signed == body
    case 3 => signed[0..32] == body[0..32] && signed[32..40] == Zeros(8)
    case 4 => signed[0..32] == body[0..32] && signed[32..40] == Zeros(8)
    case 5 =>
      && signed[0] == body[0] && signed[1..8] == Zeros(7) && signed[8..16] == body[8..16]
      && signed[16..40] == Zeros(24)
    case 6 => signed[0] == body[0] && signed[1..8] == Zeros(7) && signed[8..40] == body[8..40]
    case 7 => signed == body
    case 8 => signed == body
    case _ => false
  }

  lemma BodyIsNormal(bytes: seq<byte>)
    requires DecodeWire(bytes).Ok?
    ensures NormalBody(bytes[8], bytes[9..49], Body(DecodeWire(bytes).value.action))
    ensures DecodeWire(bytes).value.action.Tag() == bytes[8]
  {
    hide Le64, AllZero, Zeros;
    var body, action := bytes[9..49], DecodeWire(bytes).value.action;
    match action
    case TransferSol(_, _) => WholeBody(body);
    case TransferSpl(_, _) => WholeBody(body);
    case SetRecoveryConfig(_, _) => WholeBody(body);
    case RotateEd25519Key(x) => Append(x, Zeros(8));
    case RotateFalconKey(x) => Append(x, Zeros(8));
    case ChangePolicy(p, n) => PolicyBody(p, n);
    case RecoverAccount(op, x) => OpBody(op.AsByte(), x);
    case CancelSocialRecovery => AllZeroIsZeros(body);
  }

  lemma PolicyBody(p: byte, n: u64)
    ensures var b := [p] + Zeros(7) + Le64(n) + Zeros(24);
            b[0] == p && b[1..8] == Zeros(7) && b[8..16] == Le64(n) && b[16..40] == Zeros(24)
  {
    hide Le64, Zeros;
    Append([p], Zeros(7));
    Append([p] + Zeros(7), Le64(n));
    Append([p] + Zeros(7) + Le64(n), Zeros(24));
  }

  lemma OpBody(op: byte, x: Key)
    ensures var b := [op] + Zeros(7) + x; b[0] == op && b[1..8] == Zeros(7) && b[8..40] == x
  {
    hide Zeros;
    Append([op], Zeros(7));
    Append([op] + Zeros(7), x);
  }

  /** The 172 bytes that both schemes sign, in plain offsets. */
  lemma PreimageBytes(i: Intent)
    ensures var p := Preimage(i);
            && |p| == 172 && p[0] == 17
            && p[1..18] == [0x44, 0x55, 0x41, 0x4C, 0x4B, 0x45, 0x59, 0x5F, 0x53, 0x4F, 0x4C, 0x41, 0x4E, 0x41, 0x5F,
                            0x56, 0x31]
            && p[18] == i.version
            && p[19..51] == i.chainDomain && p[51..83] == i.programId && p[83..115] == i.account
            && p[115..123] == Le64(i.nonce) && p[123..131] == Le64(i.expirySlot)
            && TaggedFields(p[131], p[132..172], i.action)
            && p[132..172] == Body(i.action)
  {
    hide Preimage, Le64, TaggedFields, DecodeWire, Body, WireBytes;
    var p := Preimage(i);
    ContextRegions(i);
    OneFormat(i);
    FragmentFields(p[123..172]);
    FragmentBody(i);
    TagSlices(p);
  }

  lemma FragmentBody(i: Intent)
    ensures WireBytes(Wire(i.expirySlot, i.action))[9..49] == Body(i.action)
  {
    hide Le64, Body;
    Append(Le64(i.expirySlot) + [i.action.Tag()], Body(i.action));
  }

  lemma TagSlices(p: seq<byte>)
    requires |p| == 172
    ensures p[..18][0] == p[0] && p[..18][1..] == p[1..18]
    ensures p[123..172][0..8] == p[123..131] && p[123..172][8] == p[131] && p[123..172][9..49] == p[132..172]
  {
  }

  /** The 169 bytes a guardian signs, in plain offsets. */
  lemma SocialBytes(g: GuardianClaim)
    ensures var p := SocialPreimage(g);
            && |p| == 169 && p[0] == 17
            && p[1..18] == [0x44, 0x55, 0x41, 0x4C, 0x4B, 0x45, 0x59, 0x5F, 0x53, 0x4F, 0x4C, 0x41, 0x4E, 0x41, 0x5F,
                            0x56, 0x31]
            && p[18] == 14
            && p[19..33] == [0x53, 0x4F, 0x43, 0x49, 0x41, 0x4C, 0x5F, 0x52, 0x45, 0x43, 0x4F, 0x56, 0x45, 0x52]
            && p[33..65] == g.chainDomain && p[65..97] == g.programId && p[97..129] == g.account
            && p[129..161] == g.newOwner && p[161..169] == Le64(g.nonce)
  {
    hide Le64;
    var p := SocialPreimage(g);
    SocialRegions(g);
    assert p[1..18] == p[..18][1..] == DOMAIN_TAG;
    assert p[..18][0] == p[0];
    SocialTag(g);
  }

  lemma SocialTag(g: GuardianClaim)
    ensures SocialPreimage(g)[19..33] == SOCIAL_TAG
  {
    hide Le64;
    assert ([17] + DOMAIN_TAG + [14] + SOCIAL_TAG)[19..33] == SOCIAL_TAG;
    Append([17] + DOMAIN_TAG + [14] + SOCIAL_TAG, g.chainDomain);
    Append([17] + DOMAIN_TAG + [14] + SOCIAL_TAG + g.chainDomain, g.programId);
    Append([17] + DOMAIN_TAG + [14] + SOCIAL_TAG + g.chainDomain + g.programId, g.account);
    Append([17] + DOMAIN_TAG + [14] + SOCIAL_TAG + g.chainDomain + g.programId + g.account, g.newOwner);
    Append([17] + DOMAIN_TAG + [14] + SOCIAL_TAG + g.chainDomain + g.programId + g.account + g.newOwner, Le64(g.nonce));
  }
}
