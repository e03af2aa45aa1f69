/** The 1120-byte vault account: flat buffer, and the record it stands for. */
module State {
  import opened Prelude
  import opened Bytes
  import opened Intent

  const ACCOUNT_LEN := 1120
  const ACCOUNT_VERSION: byte := 1
  const PREPARED_LEN := 1024
  const FALCON_WIRE_KEY_LEN := 897
  const FALCON_SIGNATURE_LEN := 666

  type Word = s: seq<byte> | |s| == 8 witness Zeros(8)
  type Prepared = s: seq<byte> | |s| == PREPARED_LEN witness Zeros(PREPARED_LEN)

  /** What the bytes of a vault account mean, field by field. */
  datatype Vault = Vault(
    version: byte,
    bump: byte,
    policy: byte,
    flags: byte,
    index: u32,
    owner: Key,
    falconHash: Key,
    nonce: u64,
    above: u64,
    reserved: Word,
    prepared: Prepared)
  {
    /** Flag bit 0. */
    predicate RecoveryEnabled() {
      flags % 2 == 1
    }

    /** Flag bit 1. */
    predicate ThresholdSet() {
      flags / 2 % 2 == 1
    }

    function Threshold(): Option<u64> {
      if ThresholdSet() then Some(above) else None
    }

    function WithRecovery(enabled: bool): (v: Vault)
      ensures v.RecoveryEnabled() == enabled && v.ThresholdSet() == ThresholdSet()
      ensures v == this.(flags := v.flags) && v.flags / 4 == flags / 4
    {
      if enabled == RecoveryEnabled() then this
      else if enabled then this.(flags := flags + 1)
      else this.(flags := flags - 1)
    }

    function WithThreshold(threshold: Option<u64>): (v: Vault)
      ensures v.Threshold() == threshold && v.RecoveryEnabled() == RecoveryEnabled()
      ensures v == this.(flags := v.flags, above := v.above) && v.flags / 4 == flags / 4
      ensures threshold.None? ==> v.above == 0
    {
      var on := threshold.Some?;
      var bits := if on == ThresholdSet() then flags else if on then flags + 2 else flags - 2;
      this.(flags := bits, above := if on then threshold.value else 0)
    }
  }

  function VaultOf(b: seq<byte>): Vault
    requires |b| == ACCOUNT_LEN
  {
    Vault(b[0], b[1], b[2], b[3], U32Of(b[4..8]), b[8..40], b[40..72], U64Of(b[72..80]),
          U64Of(b[80..88]), b[88..96], b[96..1120])
  }

  function VaultBytes(v: Vault): (b: seq<byte>)
    ensures |b| == ACCOUNT_LEN
  {
    [v.version, v.bump, v.policy, v.flags] + Le32(v.index) + v.owner + v.falconHash
    + Le64(v.nonce) + Le64(v.above) + v.reserved + v.prepared
  }

  lemma VaultRegions(v: Vault)
    ensures var b := VaultBytes(v);
            && b[0] == v.version && b[1] == v.bump && b[2] == v.policy && b[3] == v.flags
            && b[4..8] == Le32(v.index) && b[8..40] == v.owner && b[40..72] == v.falconHash
            && b[72..80] == Le64(v.nonce) && b[80..88] == Le64(v.above) && b[88..96] == v.reserved
            && b[96..1120] == v.prepared
  {
    hide Le32, Le64;
    var header: seq<byte> := [v.version, v.bump, v.policy, v.flags];
    var index := header + Le32(v.index);
    var owner := index + v.owner;
    var hash := owner + v.falconHash;
    var nonce := hash + Le64(v.nonce);
    var above := nonce + Le64(v.above);
    var reserved := above + v.reserved;
    Append(header, Le32(v.index));
    Append(index, v.owner);
    Append(owner, v.falconHash);
    Append(hash, Le64(v.nonce));
    Append(nonce, Le64(v.above));
    Append(above, v.reserved);
    Append(reserved, v.prepared);
    assert VaultBytes(v) == reserved + v.prepared;
  }

  /** Buffers of the right length and records correspond one to one, so a
      statement about records is a statement about bytes. */
  lemma VaultRoundTrip(v: Vault)
    ensures VaultOf(VaultBytes(v)) == v
  {
    hide VaultBytes, Le32, Le64, U32Of, U64Of;
    VaultRegions(v);
    WordRoundTrip(v.nonce, v.index);
    WordRoundTrip(v.above, v.index);
  }

  lemma BytesRoundTrip(b: seq<byte>)
    requires |b| == ACCOUNT_LEN
    ensures VaultBytes(VaultOf(b)) == b
  {
    hide Le32, Le64, U32Of, U64Of;
    HeaderBytes(b);
    VaultParts(b);
  }

  lemma HeaderBytes(b: seq<byte>)
    requires |b| == ACCOUNT_LEN
    ensures b[..4] == [b[0], b[1], b[2], b[3]]
  {
  }

  lemma VaultParts(b: seq<byte>)
    requires |b| == ACCOUNT_LEN
    ensures b == b[..4] + b[4..8] + b[8..40] + b[40..72] + b[72..80] + b[80..88] + b[88..96] + b[96..1120]
  {
  }

  /** Splicing inside one region leaves every other region alone. */
  lemma SpliceRegions(b: seq<byte>, off: nat, v: seq<byte>)
    requires |b| == ACCOUNT_LEN && off + |v| <= ACCOUNT_LEN
    ensures var r := Splice(b, off, v);
            && (forall i :: 0 <= i < 4 && (i < off || off + |v| <= i) ==> r[i] == b[i])
            && (8 <= off || off + |v| <= 4 ==> r[4..8] == b[4..8])
            && (40 <= off || off + |v| <= 8 ==> r[8..40] == b[8..40])
            && (72 <= off || off + |v| <= 40 ==> r[40..72] == b[40..72])
            && (80 <= off || off + |v| <= 72 ==> r[72..80] == b[72..80])
            && (88 <= off || off + |v| <= 80 ==> r[80..88] == b[80..88])
            && (96 <= off || off + |v| <= 88 ==> r[88..96] == b[88..96])
            && (off + |v| <= 96 ==> r[96..1120] == b[96..1120])
  {
    SpliceRegion(b, off, v, 4, 8);
    SpliceRegion(b, off, v, 8, 40);
    SpliceRegion(b, off, v, 40, 72);
    SpliceRegion(b, off, v, 72, 80);
    SpliceRegion(b, off, v, 80, 88);
    SpliceRegion(b, off, v, 88, 96);
    SpliceRegion(b, off, v, 96, 1120);
  }

  /** One byte of the header: version, bump, policy or flags. */
  lemma SpliceHeader(b: seq<byte>, off: nat, x: byte)
    requires |b| == ACCOUNT_LEN && off < 4
    ensures var v := VaultOf(b);
            VaultOf(Splice(b, off, [x])) ==
            (match off
             case 0 => v.(version := x)
             case 1 => v.(bump := x)
             case 2 => v.(policy := x)
             case _ => v.(flags := x))
  {
    SpliceRegions(b, off, [x]);
    assert Splice(b, off, [x])[off] == x;
  }

  lemma SpliceIndex(b: seq<byte>, index: u32)
    requires |b| == ACCOUNT_LEN
    ensures VaultOf(Splice(b, 4, Le32(index))) == VaultOf(b).(index := index)
  {
    SpliceRegions(b, 4, Le32(index));
    SpliceRegion(b, 4, Le32(index), 4, 8);
    WordRoundTrip(0, index);
  }

  /** One of the two 32-byte key fields. */
  lemma SpliceKey(b: seq<byte>, off: nat, key: Key)
    requires |b| == ACCOUNT_LEN && (off == 8 || off == 40)
    ensures VaultOf(Splice(b, off, key)) ==
            if off == 8 then VaultOf(b).(owner := key) else VaultOf(b).(falconHash := key)
  {
    SpliceRegions(b, off, key);
    SpliceRegion(b, off, key, off, off + 32);
  }

  /** One of the two 8-byte integer fields. */
  lemma SpliceWord(b: seq<byte>, off: nat, n: u64)
    requires |b| == ACCOUNT_LEN && (off == 72 || off == 80)
    ensures VaultOf(Splice(b, off, Le64(n))) ==
            if off == 72 then VaultOf(b).(nonce := n) else VaultOf(b).(above := n)
  {
    SpliceRegions(b, off, Le64(n));
    SpliceRegion(b, off, Le64(n), off, off + 8);
    WordRoundTrip(n, 0);
  }

  lemma SplicePrepared(b: seq<byte>, key: Prepared)
    requires |b| == ACCOUNT_LEN
    ensures VaultOf(Splice(b, 96, key)) == VaultOf(b).(prepared := key)
  {
    SpliceRegions(b, 96, key);
    SpliceRegion(b, 96, key, 96, 1120);
  }

  // ------------------------------------------------------------- flag masks

  const FLAG_RECOVERY_ENABLED: byte := 1
  const FLAG_FALCON_THRESHOLD_SET: byte := 2

  /** Bitwise conjunction, bit by bit from the low end. */
  function BitAnd(a: nat, b: nat): (r: nat)
    ensures r <= a && r <= b
    decreases a
  {
    if a == 0 || b == 0 then 0 else (if a % 2 == 1 && b % 2 == 1 then 1 else 0) + 2 * BitAnd(a / 2, b / 2)
  }

  /** Bitwise disjunction, bit by bit from the low end. */
  function BitOr(a: nat, b: nat): nat
    decreases a + b
  {
    if a == 0 && b == 0 then 0 else (if a % 2 == 1 || b % 2 == 1 then 1 else 0) + 2 * BitOr(a / 2, b / 2)
  }

  function Pow2(k: nat): nat {
    if k == 0 then 1 else 2 * Pow2(k - 1)
  }

  lemma {:induction false} OrZero(a: nat)
    ensures BitOr(a, 0) == a
  {
    if a != 0 {
      OrZero(a / 2);
    }
  }

  lemma {:induction false} AndOnes(a: nat, k: nat)
    requires a < Pow2(k)
    ensures BitAnd(a, Pow2(k) - 1) == a
  {
    if a != 0 {
      AndOnes(a / 2, k - 1);
      assert (Pow2(k) - 1) / 2 == Pow2(k - 1) - 1 && (Pow2(k) - 1) % 2 == 1;
    }
  }

  lemma Ones()
    ensures Pow2(6) == 64 && Pow2(7) == 128
  {
    assert Pow2(3) == 8;
    assert Pow2(5) == 4 * Pow2(3);
  }

  /** `flags & mask != 0`. */
  predicate Raised(flags: byte, mask: byte)
    ensures mask == FLAG_RECOVERY_ENABLED ==> Raised(flags, mask) == (flags % 2 == 1)
    ensures mask == FLAG_FALCON_THRESHOLD_SET ==> Raised(flags, mask) == (flags / 2 % 2 == 1)
  {
    assert BitAnd(flags, 1) == flags % 2;
    assert BitAnd(flags, 2) == 2 * BitAnd(flags / 2, 1);
    BitAnd(flags, mask) != 0
  }

  /** `flags | mask`. */
  function Raise(flags: byte, mask: byte): (r: nat)
    ensures mask == FLAG_RECOVERY_ENABLED ==> r == if flags % 2 == 1 then flags else flags + 1
    ensures mask == FLAG_FALCON_THRESHOLD_SET ==> r == if flags / 2 % 2 == 1 then flags else flags + 2
  {
    OrZero(flags / 2);
    OrZero(flags / 4);
    assert flags / 2 / 2 == flags / 4;
    assert BitOr(flags / 2, 1) == (if flags / 2 % 2 == 1 then flags / 2 else flags / 2 + 1);
    BitOr(flags, mask)
  }

  lemma AllBut0(flags: byte)
    ensures BitAnd(flags, 0xFE) == 2 * (flags / 2)
  {
    Ones();
    AndOnes(flags / 2, 7);
  }

  lemma AllBut1(flags: byte)
    ensures BitAnd(flags, 0xFD) == flags % 2 + 4 * (flags / 2 / 2)
  {
    Ones();
    AndOnes(flags / 2 / 2, 6);
    assert BitAnd(flags / 2, 0x7E) == 2 * BitAnd(flags / 2 / 2, 0x3F);
  }

  /** `flags & !mask`. */
  function Lower(flags: byte, mask: byte): (r: byte)
    ensures mask == FLAG_RECOVERY_ENABLED ==> r == if flags % 2 == 1 then flags - 1 else flags
    ensures mask == FLAG_FALCON_THRESHOLD_SET ==> r == if flags / 2 % 2 == 1 then flags - 2 else flags
  {
    AllBut0(flags);
    AllBut1(flags);
    BitAnd(flags, 0xFF - mask)
  }

  // ------------------------------------------------------------ the account

  /** The mutable view `HybridAccount`: a borrowed buffer, nothing else. */
  class HybridAccount {
    const data: array<byte>

    ghost predicate Valid() {
      data.Length == ACCOUNT_LEN
    }

    /** The record the buffer currently stands for. */
    ghost function View(): Vault
      reads data
      requires Valid()
    {
      VaultOf(data[..])
    }

    constructor (buffer: array<byte>)
      requires buffer.Length == ACCOUNT_LEN
      ensures data == buffer && Valid()
    {
      data := buffer;
    }

    static method TryFromBytes(buffer: array<byte>) returns (r: Result<HybridAccount>)
      ensures r.Ok? <==> buffer.Length == ACCOUNT_LEN
      ensures r.Err? ==> r.error == InvalidAccountData
      ensures r.Ok? ==> fresh(r.value) && r.value.data == buffer
    {
      if buffer.Length != ACCOUNT_LEN {
        return Err(InvalidAccountData);
      }
      var account := new HybridAccount(buffer);
      return Ok(account);
    }

    function Version(): (r: byte)
      reads data
      requires Valid()
      ensures r == View().version
    {
      data[0]
    }

    function Bump(): (r: byte)
      reads data
      requires Valid()
      ensures r == View().bump
    {
      data[1]
    }

    function AccountIndex(): (r: u32)
      reads data
      requires Valid()
      ensures r == View().index
    {
      assert data[..][4..8] == data[4..8];
      U32Of(data[4..8])
    }

    function GetPolicy(): (r: Option<Policy>)
      reads data
      requires Valid()
      ensures r == Policy.FromByte(View().policy)
    {
      Policy.FromByte(data[2])
    }

    function RecoveryEnabled(): (r: bool)
      reads data
      requires Valid()
      ensures r == View().RecoveryEnabled()
    {
      Raised(data[3], FLAG_RECOVERY_ENABLED)
    }

    function Owner(): (r: Key)
      reads data
      requires Valid()
      ensures r == View().owner
    {
      assert data[..][8..40] == data[8..40];
      data[8..40]
    }

    function FalconHash(): (r: Key)
      reads data
      requires Valid()
      ensures r == View().falconHash
    {
      assert data[..][40..72] == data[40..72];
      data[40..72]
    }

    function Nonce(): (r: u64)
      reads data
      requires Valid()
      ensures r == View().nonce
    {
      assert data[..][72..80] == data[72..80];
      U64Of(data[72..80])
    }

    function FalconRequiredAbove(): (r: Option<u64>)
      reads data
      requires Valid()
      ensures r == View().Threshold()
    {
      assert data[..][80..88] == data[80..88];
      if !Raised(data[3], FLAG_FALCON_THRESHOLD_SET) then None
      else Some(U64Of(data[80..88]))
    }

    function PreparedKey(): (r: Prepared)
      reads data
      requires Valid()
      ensures r == View().prepared
    {
      assert data[..][96..1120] == data[96..1120];
      data[96..1120]
    }

    /** Writes one header byte. */
    method SetHeader(off: nat, x: byte)
      requires Valid() && off < 4
      modifies data
      ensures data[..] == Splice(old(data[..]), off, [x])
    {
      CopyFromSlice(data, off, [x]);
    }

    method SetVersion(version: byte)
      requires Valid()
      modifies data
      ensures View() == old(View()).(version := version)
    {
      SetHeader(0, version);
      SpliceHeader(old(data[..]), 0, version);
    }

    method SetBump(bump: byte)
      requires Valid()
      modifies data
      ensures View() == old(View()).(bump := bump)
    {
      SetHeader(1, bump);
      SpliceHeader(old(data[..]), 1, bump);
    }

    method SetPolicy(policy: Policy)
      requires Valid()
      modifies data
      ensures View() == old(View()).(policy := policy.AsByte())
    {
      SetHeader(2, policy.AsByte());
      SpliceHeader(old(data[..]), 2, policy.AsByte());
    }

    method SetFlags(flags: byte)
      requires Valid()
      modifies data
      ensures View() == old(View()).(flags := flags)
    {
      SetHeader(3, flags);
      SpliceHeader(old(data[..]), 3, flags);
    }

    method SetAccountIndex(index: u32)
      requires Valid()
      modifies data
      ensures View() == old(View()).(index := index)
    {
      CopyFromSlice(data, 4, Le32(index));
      SpliceIndex(old(data[..]), index);
    }

    method SetRecoveryEnabled(enabled: bool)
      requires Valid()
      modifies data
      ensures View() == old(View()).WithRecovery(enabled)
    {
      hide Raise, Lower;
      var flags := data[3];
      if enabled {
        flags := Raise(flags, FLAG_RECOVERY_ENABLED);
      } else {
        flags := Lower(flags, FLAG_RECOVERY_ENABLED);
      }
      SetFlags(flags);
    }

    method SetOwner(key: Key)
      requires Valid()
      modifies data
      ensures View() == old(View()).(owner := key)
    {
      CopyFromSlice(data, 8, key);
      SpliceKey(old(data[..]), 8, key);
    }

    method SetFalconHash(hash: Key)
      requires Valid()
      modifies data
      ensures View() == old(View()).(falconHash := hash)
    {
      CopyFromSlice(data, 40, hash);
      SpliceKey(old(data[..]), 40, hash);
    }

    method SetNonce(nonce: u64)
      requires Valid()
      modifies data
      ensures View() == old(View()).(nonce := nonce)
    {
      CopyFromSlice(data, 72, Le64(nonce));
      SpliceWord(old(data[..]), 72, nonce);
    }

    /** Value bytes first, flag bit last, as the setter interleaves them. */
    method SetFalconRequiredAbove(threshold: Option<u64>)
      requires Valid()
      modifies data
      ensures View() == old(View()).WithThreshold(threshold)
    {
      hide Raise, Lower;
      var flags := data[3];
      match threshold {
        case Some(v) =>
          flags := Raise(flags, FLAG_FALCON_THRESHOLD_SET);
          SetAbove(v);
        case None =>
          flags := Lower(flags, FLAG_FALCON_THRESHOLD_SET);
          ClearAbove();
      }
      SetFlags(flags);
    }

    method SetAbove(n: u64)
      requires Valid()
      modifies data
      ensures View() == old(View()).(above := n)
    {
      CopyFromSlice(data, 80, Le64(n));
      SpliceWord(old(data[..]), 80, n);
    }

    method ClearAbove()
      requires Valid()
      modifies data
      ensures View() == old(View()).(above := 0)
    {
      FillZero(data, 80, 8);
      ZeroWord();
      SpliceWord(old(data[..]), 80, 0);
    }

    method StorePreparedKey(key: Prepared)
      requires Valid()
      modifies data
      ensures View() == old(View()).(prepared := key)
    {
      CopyFromSlice(data, 96, key);
      SplicePrepared(old(data[..]), key);
    }

    /** Every field but the prepared key, whose region is left zeroed. */
    static method InitializeWithoutFalconKey(
        buffer: array<byte>, bump: byte, index: u32, owner: Key, hash: Key, policy: Policy)
      returns (r: Result<HybridAccount>)
      modifies buffer
      ensures r.Ok? <==> buffer.Length == ACCOUNT_LEN
      ensures r.Err? ==> r.error == InvalidAccountData && buffer[..] == old(buffer[..])
      ensures r.Ok? ==> fresh(r.value) && r.value.data == buffer
      ensures r.Ok? ==> r.value.View() == NewVault(bump, index, owner, hash, policy, Zeros(PREPARED_LEN))
    {
      if buffer.Length != ACCOUNT_LEN {
        return Err(InvalidAccountData);
      }
      FillZero(buffer, 0, ACCOUNT_LEN);
      assert buffer[..] == Zeros(ACCOUNT_LEN);
      ZeroVault();
      var account := new HybridAccount(buffer);
      account.SetVersion(ACCOUNT_VERSION);
      account.SetBump(bump);
      account.SetAccountIndex(index);
      account.SetPolicy(policy);
      account.SetOwner(owner);
      account.SetFalconHash(hash);
      account.SetNonce(0);
      return Ok(account);
    }
  }

  function NewVault(bump: byte, index: u32, owner: Key, hash: Key, policy: Policy, prepared: Prepared): Vault {
    Vault(ACCOUNT_VERSION, bump, policy.AsByte(), 0, index, owner, hash, 0, 0, Zeros(8), prepared)
  }

  lemma ZeroWord()
    ensures Le64(0) == Zeros(8) && Le32(0) == Zeros(4)
  {
    assert ToLe(0, 8) == Zeros(8) by {
      ToLeZero(8);
    }
    ToLeZero(4);
  }

  lemma {:induction false} ToLeZero(width: nat)
    ensures ToLe(0, width) == Zeros(width)
  {
    if width != 0 {
      ToLeZero(width - 1);
    }
  }

  lemma ZeroSlice(n: nat, lo: nat, hi: nat)
    requires lo <= hi <= n
    ensures Zeros(n)[lo..hi] == Zeros(hi - lo)
  {
  }

  lemma ZeroVault()
    ensures VaultOf(Zeros(ACCOUNT_LEN)) ==
            Vault(0, 0, 0, 0, 0, ZERO_KEY, ZERO_KEY, 0, 0, Zeros(8), Zeros(PREPARED_LEN))
  {
    hide Zeros, Le32, Le64, U32Of, U64Of;
    ZeroWord();
    WordRoundTrip(0, 0);
    ZeroSlice(ACCOUNT_LEN, 4, 8);
    ZeroSlice(ACCOUNT_LEN, 8, 40);
    ZeroSlice(ACCOUNT_LEN, 40, 72);
    ZeroSlice(ACCOUNT_LEN, 72, 80);
    ZeroSlice(ACCOUNT_LEN, 80, 88);
    ZeroSlice(ACCOUNT_LEN, 88, 96);
    ZeroSlice(ACCOUNT_LEN, 96, 1120);
  }
}
