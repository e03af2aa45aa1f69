/** Introspection of the Ed25519 precompile instruction that runs immediately
    before the program's own instruction. */
module Ed25519 {
  import opened Prelude
  import opened Bytes
  import opened Host

  const OFFSETS_START := 2
  const DATA_START := 16
  const PUBKEY_LEN := 32
  const SIGNATURE_LEN := 64
  const DIGEST_LEN := 32
  const THIS_INSTRUCTION := 0xFFFF

  /** What `get_instruction_relative(-1)` finds. */
  datatype Preceding = Nothing | Preceding(program: Key, data: seq<byte>)

  function ReadU16(data: seq<byte>, at: nat): Result<nat> {
    if at + 2 <= |data| then Ok(U16Of(data[at..at + 2])) else Err(MalformedEd25519Precompile)
  }

  function SliceAt(data: seq<byte>, offset: nat, len: nat): (r: Result<seq<byte>>)
    ensures r.Ok? ==> |r.value| == len
  {
    if offset + len <= |data| then Ok(data[offset..offset + len]) else Err(MalformedEd25519Precompile)
  }

  /** `verify_ed25519_precompile`. */
  function Verify(host: Host, sysvar: Key, previous: Preceding, pubkey: Key, digest: Key): Result<Unit> {
    if sysvar != host.instructionsSysvar then Err(InvalidProgramAccount)
    else if previous.Nothing? || previous.program != host.ed25519Program then Err(MalformedEd25519Precompile)
    else Inspect(previous.data, pubkey, digest)
  }

  /** The byte-level part: one signature, all offsets into this same instruction,
      a 32-byte message, and the named key and message are the expected ones. */
  function Inspect(data: seq<byte>, pubkey: Key, digest: Key): Result<Unit> {
    if |data| < DATA_START then Err(MalformedEd25519Precompile)
    else if data[0] != 1 || data[1] != 0 then Err(MalformedEd25519Precompile)
    else
      var offsets := data[OFFSETS_START..DATA_START];
      var signatureOffset :- ReadU16(offsets, 0);
      var signatureIndex :- ReadU16(offsets, 2);
      var pubkeyOffset :- ReadU16(offsets, 4);
      var pubkeyIndex :- ReadU16(offsets, 6);
      var messageOffset :- ReadU16(offsets, 8);
      var messageSize :- ReadU16(offsets, 10);
      var messageIndex :- ReadU16(offsets, 12);
      if signatureIndex != THIS_INSTRUCTION || pubkeyIndex != THIS_INSTRUCTION || messageIndex != THIS_INSTRUCTION then
        Err(MalformedEd25519Precompile)
      else if messageSize != DIGEST_LEN then Err(MalformedEd25519Precompile)
      else
        var key :- SliceAt(data, pubkeyOffset, PUBKEY_LEN);
        var _ :- SliceAt(data, signatureOffset, SIGNATURE_LEN);
        var message :- SliceAt(data, messageOffset, DIGEST_LEN);
        if key != pubkey then Err(InvalidEd25519)
        else if message != digest then Err(InvalidEd25519)
        else Ok(Done)
  }

  /** The seven 16-bit words of the first offsets record. */
  function Word(data: seq<byte>, i: nat): nat
    requires i < 7 && |data| >= DATA_START
  {
    U16Of(data[2 + 2 * i..4 + 2 * i])
  }

  /** What the runtime's precompile has checked before the program runs: for a
      one-signature record whose three indices name this instruction, the triple
      at those very offsets is a verified signature. */
  ghost predicate RuntimeVerified(host: Host, previous: Preceding) {
    var data := if previous.Preceding? then previous.data else [];
    previous.Preceding? && previous.program == host.ed25519Program
      && |data| >= DATA_START && data[0] == 1
      && Word(data, 1) == THIS_INSTRUCTION && Word(data, 3) == THIS_INSTRUCTION && Word(data, 6) == THIS_INSTRUCTION
      && Word(data, 0) + SIGNATURE_LEN <= |data| && Word(data, 2) + PUBKEY_LEN <= |data|
      && Word(data, 4) + Word(data, 5) <= |data|
    ==> host.ed25519(data[Word(data, 2)..Word(data, 2) + PUBKEY_LEN],
                     data[Word(data, 4)..Word(data, 4) + Word(data, 5)],
                     data[Word(data, 0)..Word(data, 0) + SIGNATURE_LEN])
  }

  lemma SubSlice(s: seq<byte>, lo: nat, hi: nat, a: nat, b: nat)
    requires lo <= hi <= |s| && a <= b <= hi - lo
    ensures s[lo..hi][a..b] == s[lo + a..lo + b]
  {
    var left, right := s[lo..hi][a..b], s[lo + a..lo + b];
    assert |left| == |right|;
    assert forall i :: 0 <= i < |left| ==> left[i] == s[lo..hi][a + i] == s[lo + a + i] == right[i];
  }

  /** One signature, its three parts within this instruction, a 32-byte message. */
  predicate WellFormed(data: seq<byte>) {
    && |data| >= DATA_START && data[0] == 1 && data[1] == 0
    && Word(data, 1) == Word(data, 3) == Word(data, 6) == THIS_INSTRUCTION
    && Word(data, 5) == DIGEST_LEN
    && Word(data, 0) + SIGNATURE_LEN <= |data|
    && Word(data, 2) + PUBKEY_LEN <= |data|
    && Word(data, 4) + DIGEST_LEN <= |data|
  }

  /** What acceptance means, read off the raw bytes, and what each refusal means. */
  lemma InspectAccepts(data: seq<byte>, pubkey: Key, digest: Key)
    ensures Inspect(data, pubkey, digest) ==
            if !WellFormed(data) then Err(MalformedEd25519Precompile)
            else Require(data[Word(data, 2)..Word(data, 2) + PUBKEY_LEN] == pubkey
                         && data[Word(data, 4)..Word(data, 4) + DIGEST_LEN] == digest, InvalidEd25519)
  {
    if |data| >= DATA_START {
      var offsets := data[OFFSETS_START..DATA_START];
      SubSlice(data, 2, 16, 0, 2);
      SubSlice(data, 2, 16, 2, 4);
      SubSlice(data, 2, 16, 4, 6);
      SubSlice(data, 2, 16, 6, 8);
      SubSlice(data, 2, 16, 8, 10);
      SubSlice(data, 2, 16, 10, 12);
      SubSlice(data, 2, 16, 12, 14);
    }
  }

  /** The triple that the instruction's own offsets name. */
  function KeyIn(data: seq<byte>): Key
    requires WellFormed(data)
  {
    data[Word(data, 2)..Word(data, 2) + PUBKEY_LEN]
  }

  function MessageIn(data: seq<byte>): Key
    requires WellFormed(data)
  {
    data[Word(data, 4)..Word(data, 4) + DIGEST_LEN]
  }

  function SignatureIn(data: seq<byte>): seq<byte>
    requires WellFormed(data)
  {
    data[Word(data, 0)..Word(data, 0) + SIGNATURE_LEN]
  }

  /** The instruction in front carries a signature by `pubkey` over `digest`: the key,
      the message and the signature it names, the last of which verifies. */
  predicate Carries(host: Host, sysvar: Key, previous: Preceding, pubkey: Key, digest: Key) {
    && sysvar == host.instructionsSysvar
    && previous.Preceding? && previous.program == host.ed25519Program
    && WellFormed(previous.data)
    && KeyIn(previous.data) == pubkey
    && MessageIn(previous.data) == digest
    && host.ed25519(pubkey, digest, SignatureIn(previous.data))
  }

  /** For every byte string whose named triple the runtime has verified: the parser
      accepts exactly when the instruction in front carries a signature by the expected
      key over the expected digest. */
  lemma IntrospectionSound(host: Host, sysvar: Key, previous: Preceding, pubkey: Key, digest: Key)
    requires RuntimeVerified(host, previous)
    ensures Verify(host, sysvar, previous, pubkey, digest).Ok? <==> Carries(host, sysvar, previous, pubkey, digest)
  {
    hide Word, Inspect;
    if previous.Preceding? {
      InspectAccepts(previous.data, pubkey, digest);
    }
  }

  /** One signature, then the offsets record: signature at 48, key at 16, message of 32
      bytes at 112, each in this instruction. */
  const SINGLE_DIGEST_HEADER: seq<byte> := [1, 0, 48, 0, 255, 255, 16, 0, 255, 255, 112, 0, 32, 0, 255, 255]

  /** The instruction the client packs: header, key, signature, digest, 144 bytes. */
  function SingleDigestData(pubkey: Key, signature: seq<byte>, digest: Key): seq<byte> {
    SINGLE_DIGEST_HEADER + pubkey + signature + digest
  }

  lemma PackedDataAccepted(pubkey: Key, signature: seq<byte>, digest: Key)
    requires |signature| == SIGNATURE_LEN
    ensures |SingleDigestData(pubkey, signature, digest)| == 144
    ensures Inspect(SingleDigestData(pubkey, signature, digest), pubkey, digest).Ok?
  {
    hide Word, Inspect, SingleDigestData;
    PackedRegions(pubkey, signature, digest);
    PackedWords(pubkey, signature, digest);
    InspectAccepts(SingleDigestData(pubkey, signature, digest), pubkey, digest);
  }

  lemma PackedRegions(pubkey: Key, signature: seq<byte>, digest: Key)
    requires |signature| == SIGNATURE_LEN
    ensures var data := SingleDigestData(pubkey, signature, digest);
            && |data| == 144 && data[0] == 1 && data[1] == 0
            && data[16..48] == pubkey && data[112..144] == digest
            && data[..16] == SINGLE_DIGEST_HEADER
  {
    var data := SingleDigestData(pubkey, signature, digest);
    assert data[16..48] == pubkey;
    assert data[112..144] == digest;
    assert data[..16] == SINGLE_DIGEST_HEADER;
  }

  lemma PackedWords(pubkey: Key, signature: seq<byte>, digest: Key)
    requires |signature| == SIGNATURE_LEN
    ensures var data := SingleDigestData(pubkey, signature, digest);
            && |data| >= DATA_START
            && Word(data, 0) == 48 && Word(data, 1) == THIS_INSTRUCTION && Word(data, 2) == 16
            && Word(data, 3) == THIS_INSTRUCTION && Word(data, 4) == 112 && Word(data, 5) == 32
            && Word(data, 6) == THIS_INSTRUCTION
  {
    hide SingleDigestData, U16Of;
    var data := SingleDigestData(pubkey, signature, digest);
    PackedRegions(pubkey, signature, digest);
    WordValues();
    forall i: nat | i < 7
      ensures data[2 + 2 * i..4 + 2 * i] == [SINGLE_DIGEST_HEADER[2 + 2 * i], SINGLE_DIGEST_HEADER[3 + 2 * i]]
    {
      WordBytes(data, 2 + 2 * i);
    }
  }

  lemma WordBytes(data: seq<byte>, at: nat)
    requires |data| >= DATA_START && at + 2 <= 16 && data[..16] == SINGLE_DIGEST_HEADER
    ensures data[at..at + 2] == [SINGLE_DIGEST_HEADER[at], SINGLE_DIGEST_HEADER[at + 1]]
  {
    assert data[at] == data[..16][at] && data[at + 1] == data[..16][at + 1];
  }

  /** What is packed is what is named: the given key, digest and signature. */
  lemma PackedTriple(pubkey: Key, signature: seq<byte>, digest: Key)
    requires |signature| == SIGNATURE_LEN
    ensures var data := SingleDigestData(pubkey, signature, digest);
            && data[16..48] == pubkey && data[48..112] == signature && data[112..144] == digest
            && WellFormed(data)
            && KeyIn(data) == pubkey && SignatureIn(data) == signature && MessageIn(data) == digest
  {
    hide Word, SingleDigestData;
    PackedRegions(pubkey, signature, digest);
    PackedSignature(pubkey, signature, digest);
    PackedWords(pubkey, signature, digest);
  }

  lemma PackedSignature(pubkey: Key, signature: seq<byte>, digest: Key)
    requires |signature| == SIGNATURE_LEN
    ensures |SingleDigestData(pubkey, signature, digest)| == 144
    ensures SingleDigestData(pubkey, signature, digest)[48..112] == signature
  {
  }

  /** A 16-bit word at a literal offset. */
  function At16(data: seq<byte>, at: nat): nat
    requires at + 2 <= |data|
  {
    (data[at] as nat) + 256 * (data[at + 1] as nat)
  }

  /** `Carries` in plain offsets. */
  predicate FrontSigned(host: Host, sysvar: Key, previous: Preceding, pubkey: Key, message: Key) {
    && sysvar == host.instructionsSysvar
    && previous.Preceding? && previous.program == host.ed25519Program
    && var d := previous.data;
       && |d| >= 16 && d[0] == 1 && d[1] == 0
       && d[4] == d[5] == d[8] == d[9] == d[14] == d[15] == 255
       && d[12] == 32 && d[13] == 0
       && At16(d, 2) + 64 <= |d| && At16(d, 6) + 32 <= |d| && At16(d, 10) + 32 <= |d|
       && d[At16(d, 6)..At16(d, 6) + 32] == pubkey
       && d[At16(d, 10)..At16(d, 10) + 32] == message
       && host.ed25519(pubkey, message, d[At16(d, 2)..At16(d, 2) + 64])
  }

  lemma WordAt(data: seq<byte>, i: nat)
    requires i < 7 && |data| >= DATA_START
    ensures Word(data, i) == At16(data, 2 + 2 * i)
  {
    assert data[2 + 2 * i..4 + 2 * i] == [data[2 + 2 * i], data[3 + 2 * i]];
    PairValue(data[2 + 2 * i], data[3 + 2 * i]);
  }

  lemma CarriesPlainly(host: Host, sysvar: Key, previous: Preceding, pubkey: Key, message: Key)
    ensures Carries(host, sysvar, previous, pubkey, message) <==> FrontSigned(host, sysvar, previous, pubkey, message)
  {
    hide Word;
    if previous.Preceding? && |previous.data| >= DATA_START {
      WordAt(previous.data, 0);
      WordAt(previous.data, 1);
      WordAt(previous.data, 2);
      WordAt(previous.data, 3);
      WordAt(previous.data, 4);
      WordAt(previous.data, 5);
      WordAt(previous.data, 6);
    }
  }

  lemma WordValues()
    ensures U16Of([48, 0]) == 48 && U16Of([16, 0]) == 16 && U16Of([112, 0]) == 112
    ensures U16Of([32, 0]) == 32 && U16Of([255, 255]) == 0xFFFF
  {
    PairValue(48, 0);
    PairValue(16, 0);
    PairValue(112, 0);
    PairValue(32, 0);
    PairValue(255, 255);
  }

  lemma PairValue(lo: byte, hi: byte)
    ensures U16Of([lo, hi]) == lo + 256 * hi
  {
    assert [lo, hi][1..] == [hi];
    assert FromLe([hi]) == hi + 256 * FromLe([hi][1..]);
  }
}
