/** The 128-byte recovery configuration account: flat buffer and record. */
module Recovery {
  import opened Prelude
  import opened Bytes

  const CONFIG_LEN := 128
  const CONFIG_VERSION: byte := 1

  type Tail = s: seq<byte> | |s| == 44 witness Zeros(44)

  /** What the bytes of a recovery configuration mean, field by field. */
  datatype Config = Config(
    version: byte,
    bump: byte,
    flags: byte,
    reserved0: byte,
    guardian: Key,
    delay: u64,
    pending: Key,
    ready: u64,
    reserved1: Tail)
  {
    predicate HasPending() {
      pending != ZERO_KEY
    }

    function Cleared(): Config {
      this.(pending := ZERO_KEY, ready := 0)
    }
  }

  function ConfigOf(b: seq<byte>): Config
    requires |b| == CONFIG_LEN
  {
    Config(b[0], b[1], b[2], b[3], b[4..36], U64Of(b[36..44]), b[44..76], U64Of(b[76..84]), b[84..128])
  }

  function ConfigBytes(c: Config): (b: seq<byte>)
    ensures |b| == CONFIG_LEN
  {
    [c.version, c.bump, c.flags, c.reserved0] + c.guardian + Le64(c.delay) + c.pending + Le64(c.ready) + c.reserved1
  }

  /** A fresh configuration: nothing pending. */
  function NewConfig(bump: byte, guardian: Key, delay: u64): Config {
    Config(CONFIG_VERSION, bump, 0, 0, guardian, delay, ZERO_KEY, 0, Zeros(44))
  }

  lemma ConfigRegions(c: Config)
    ensures var b := ConfigBytes(c);
            && b[0] == c.version && b[1] == c.bump && b[2] == c.flags && b[3] == c.reserved0
            && b[4..36] == c.guardian && b[36..44] == Le64(c.delay) && b[44..76] == c.pending
            && b[76..84] == Le64(c.ready) && b[84..128] == c.reserved1
  {
    hide Le64;
    var header: seq<byte> := [c.version, c.bump, c.flags, c.reserved0];
    var guardian := header + c.guardian;
    var delay := guardian + Le64(c.delay);
    var pending := delay + c.pending;
    var ready := pending + Le64(c.ready);
    Append(header, c.guardian);
    Append(guardian, Le64(c.delay));
    Append(delay, c.pending);
    Append(pending, Le64(c.ready));
    Append(ready, c.reserved1);
    assert ConfigBytes(c) == ready + c.reserved1;
  }

  /** Buffers of the right length and records correspond one to one. */
  lemma ConfigRoundTrip(c: Config)
    ensures ConfigOf(ConfigBytes(c)) == c
  {
    hide ConfigBytes, Le64, U64Of;
    ConfigRegions(c);
    WordRoundTrip(c.delay, 0);
    WordRoundTrip(c.ready, 0);
  }

  lemma BytesRoundTrip(b: seq<byte>)
    requires |b| == CONFIG_LEN
    ensures ConfigBytes(ConfigOf(b)) == b
  {
    hide Le64, U64Of;
    assert b[..4] == [b[0], b[1], b[2], b[3]];
    ConfigParts(b);
  }

  lemma ConfigParts(b: seq<byte>)
    requires |b| == CONFIG_LEN
    ensures b == b[..4] + b[4..36] + b[36..44] + b[44..76] + b[76..84] + b[84..128]
  {
  }

  lemma SpliceRegions(b: seq<byte>, off: nat, v: seq<byte>)
    requires |b| == CONFIG_LEN && off + |v| <= CONFIG_LEN
    ensures var r := Splice(b, off, v);
            && (forall i :: 0 <= i < 4 && (i < off || off + |v| <= i) ==> r[i] == b[i])
            && (36 <= off || off + |v| <= 4 ==> r[4..36] == b[4..36])
            && (44 <= off || off + |v| <= 36 ==> r[36..44] == b[36..44])
            && (76 <= off || off + |v| <= 44 ==> r[44..76] == b[44..76])
            && (84 <= off || off + |v| <= 76 ==> r[76..84] == b[76..84])
            && (off + |v| <= 84 ==> r[84..128] == b[84..128])
  {
    SpliceRegion(b, off, v, 4, 36);
    SpliceRegion(b, off, v, 36, 44);
    SpliceRegion(b, off, v, 44, 76);
    SpliceRegion(b, off, v, 76, 84);
    SpliceRegion(b, off, v, 84, 128);
  }

  lemma SpliceKey(b: seq<byte>, off: nat, key: Key)
    requires |b| == CONFIG_LEN && (off == 4 || off == 44)
    ensures ConfigOf(Splice(b, off, key)) ==
            if off == 4 then ConfigOf(b).(guardian := key) else ConfigOf(b).(pending := key)
  {
    SpliceRegions(b, off, key);
    SpliceRegion(b, off, key, off, off + 32);
  }

  lemma SpliceWord(b: seq<byte>, off: nat, n: u64)
    requires |b| == CONFIG_LEN && (off == 36 || off == 76)
    ensures ConfigOf(Splice(b, off, Le64(n))) ==
            if off == 36 then ConfigOf(b).(delay := n) else ConfigOf(b).(ready := n)
  {
    SpliceRegions(b, off, Le64(n));
    SpliceRegion(b, off, Le64(n), off, off + 8);
    WordRoundTrip(n, 0);
  }

  /** `RecoveryConfig::guardian_from_slice`. */
  function GuardianFromSlice(b: seq<byte>): Result<Key> {
    if |b| != CONFIG_LEN || b[0] != CONFIG_VERSION then Err(InvalidAccountData)
    else Ok(b[4..36])
  }

  /** The mutable view `RecoveryConfig`. */
  class RecoveryConfig {
    const data: array<byte>

    ghost predicate Valid() {
      data.Length == CONFIG_LEN
    }

    ghost function View(): Config
      reads data
      requires Valid()
    {
      ConfigOf(data[..])
    }

    constructor (buffer: array<byte>)
      requires buffer.Length == CONFIG_LEN
      ensures data == buffer && Valid()
    {
      data := buffer;
    }

    static method TryFromBytes(buffer: array<byte>) returns (r: Result<RecoveryConfig>)
      ensures r.Ok? <==> buffer.Length == CONFIG_LEN && buffer[0] == CONFIG_VERSION
      ensures r.Err? ==> r.error == InvalidAccountData
      ensures r.Ok? ==> fresh(r.value) && r.value.data == buffer
    {
      if buffer.Length != CONFIG_LEN {
        return Err(InvalidAccountData);
      }
      if buffer[0] != CONFIG_VERSION {
        return Err(InvalidAccountData);
      }
      var config := new RecoveryConfig(buffer);
      return Ok(config);
    }

    static method Initialize(buffer: array<byte>, bump: byte, guardian: Key, delay: u64)
      returns (r: Result<RecoveryConfig>)
      modifies buffer
      ensures r.Ok? <==> buffer.Length == CONFIG_LEN
      ensures r.Err? ==> r.error == InvalidAccountData && buffer[..] == old(buffer[..])
      ensures r.Ok? ==> fresh(r.value) && r.value.data == buffer
      ensures r.Ok? ==> buffer[..] == ConfigBytes(NewConfig(bump, guardian, delay))
    {
      if buffer.Length != CONFIG_LEN {
        return Err(InvalidAccountData);
      }
      FillZero(buffer, 0, CONFIG_LEN);
      buffer[0] := CONFIG_VERSION;
      buffer[1] := bump;
      assert buffer[..] == [CONFIG_VERSION, bump] + Zeros(126);
      CopyFromSlice(buffer, 4, guardian);
      CopyFromSlice(buffer, 36, Le64(delay));
      FreshLayout(bump, guardian, delay);
      var config := new RecoveryConfig(buffer);
      return Ok(config);
    }

    function Bump(): (r: byte)
      reads data
      requires Valid()
      ensures r == View().bump
    {
      data[1]
    }

    function Guardian(): (r: Key)
      reads data
      requires Valid()
      ensures r == View().guardian
    {
      assert data[..][4..36] == data[4..36];
      data[4..36]
    }

    function Delay(): (r: u64)
      reads data
      requires Valid()
      ensures r == View().delay
    {
      assert data[..][36..44] == data[36..44];
      U64Of(data[36..44])
    }

    function Pending(): (r: Key)
      reads data
      requires Valid()
      ensures r == View().pending
    {
      assert data[..][44..76] == data[44..76];
      data[44..76]
    }

    function Ready(): (r: u64)
      reads data
      requires Valid()
      ensures r == View().ready
    {
      assert data[..][76..84] == data[76..84];
      U64Of(data[76..84])
    }

    predicate HasPending()
      reads data
      requires Valid()
      ensures HasPending() == View().HasPending()
    {
      Pending() != Zeros(32)
    }

    method SetGuardian(guardian: Key)
      requires Valid()
      modifies data
      ensures View() == old(View()).(guardian := guardian)
    {
      CopyFromSlice(data, 4, guardian);
      SpliceKey(old(data[..]), 4, guardian);
    }

    method SetDelay(delay: u64)
      requires Valid()
      modifies data
      ensures View() == old(View()).(delay := delay)
    {
      CopyFromSlice(data, 36, Le64(delay));
      SpliceWord(old(data[..]), 36, delay);
    }

    method SetPending(key: Key)
      requires Valid()
      modifies data
      ensures View() == old(View()).(pending := key)
    {
      CopyFromSlice(data, 44, key);
      SpliceKey(old(data[..]), 44, key);
    }

    method SetReady(slot: u64)
      requires Valid()
      modifies data
      ensures View() == old(View()).(ready := slot)
    {
      CopyFromSlice(data, 76, Le64(slot));
      SpliceWord(old(data[..]), 76, slot);
    }

    method ClearPending()
      requires Valid()
      modifies data
      ensures View() == old(View()).Cleared()
    {
      SetPending(Zeros(32));
      SetReady(0);
    }
  }

  lemma FreshLayout(bump: byte, guardian: Key, delay: u64)
    ensures var z: seq<byte> := [CONFIG_VERSION, bump] + Zeros(126);
            Splice(Splice(z, 4, guardian), 36, Le64(delay)) == ConfigBytes(NewConfig(bump, guardian, delay))
  {
    hide Le64;
    var z: seq<byte> := [CONFIG_VERSION, bump] + Zeros(126);
    var one := Splice(z, 4, guardian);
    assert one == [CONFIG_VERSION, bump, 0, 0] + guardian + Zeros(92);
    var two := Splice(one, 36, Le64(delay));
    assert two == [CONFIG_VERSION, bump, 0, 0] + guardian + Le64(delay) + Zeros(84);
    FreshTail([CONFIG_VERSION, bump, 0, 0] + guardian + Le64(delay));
  }

  lemma FreshTail(front: seq<byte>)
    ensures front + Zeros(84) == front + ZERO_KEY + Le64(0) + Zeros(44)
  {
    assert ToLe(0, 4) == Zeros(4);
    assert ToLe(0, 6) == Zeros(6);
    assert Le64(0) == Zeros(8);
  }
}
