/** Bytes, fixed-width little-endian integers and region copies. */
module Bytes {

  type byte = x: int | 0 <= x < 0x100
  type u32 = x: int | 0 <= x < 0x1_0000_0000
  type u64 = x: int | 0 <= x < 0x1_0000_0000_0000_0000

  const U64_MAX: u64 := 0xFFFF_FFFF_FFFF_FFFF

  function Zeros(n: nat): (s: seq<byte>)
    ensures |s| == n
    ensures forall i :: 0 <= i < n ==> s[i] == 0
  {
    seq(n, _ => 0)
  }

  predicate AllZero(s: seq<byte>) {
    forall i :: 0 <= i < |s| ==> s[i] == 0
  }

  lemma AllZeroIsZeros(s: seq<byte>)
    ensures AllZero(s) <==> s == Zeros(|s|)
  {
    if AllZero(s) {
      assert s == Zeros(|s|);
    }
  }

  /** A 32-byte value: an address, an Ed25519 key, or a SHA-256 digest. */
  type Key = s: seq<byte> | |s| == 32 witness Zeros(32)

  const ZERO_KEY: Key := Zeros(32)

  // ---------------------------------------------------------------- integers

  function Pow256(width: nat): (p: nat)
    ensures p > 0
  {
    if width == 0 then 1 else 256 * Pow256(width - 1)
  }

  function ToLe(n: nat, width: nat): (s: seq<byte>)
    ensures |s| == width
  {
    if width == 0 then [] else [n % 256] + ToLe(n / 256, width - 1)
  }

  function FromLe(s: seq<byte>): nat {
    if s == [] then 0 else s[0] + 256 * FromLe(s[1..])
  }

  lemma {:induction false} FromLeBound(s: seq<byte>)
    ensures FromLe(s) < Pow256(|s|)
  {
    if s != [] {
      FromLeBound(s[1..]);
    }
  }

  lemma {:induction false} FromToLe(n: nat, width: nat)
    requires n < Pow256(width)
    ensures FromLe(ToLe(n, width)) == n
  {
    if width != 0 {
      FromToLe(n / 256, width - 1);
      assert ToLe(n, width)[1..] == ToLe(n / 256, width - 1);
    }
  }

  lemma {:induction false} ToFromLe(s: seq<byte>)
    ensures ToLe(FromLe(s), |s|) == s
  {
    if s != [] {
      ToFromLe(s[1..]);
      assert FromLe(s) % 256 == s[0] && FromLe(s) / 256 == FromLe(s[1..]);
    }
  }

  lemma Widths()
    ensures Pow256(2) == 0x1_0000 && Pow256(4) == 0x1_0000_0000
    ensures Pow256(8) == 0x1_0000_0000_0000_0000
  {
    assert Pow256(4) == 256 * (256 * Pow256(2));
    assert Pow256(6) == 256 * (256 * Pow256(4));
  }

  function Le32(n: u32): (s: seq<byte>)
    ensures |s| == 4
    ensures FromLe(s) == n
  {
    Widths();
    FromToLe(n, 4);
    ToLe(n, 4)
  }

  function Le64(n: u64): (s: seq<byte>)
    ensures |s| == 8
    ensures FromLe(s) == n
  {
    Widths();
    FromToLe(n, 8);
    ToLe(n, 8)
  }

  function U16Of(s: seq<byte>): (n: nat)
    requires |s| == 2
    ensures n < 0x1_0000
  {
    Widths();
    FromLeBound(s);
    FromLe(s)
  }

  function U32Of(s: seq<byte>): (n: u32)
    requires |s| == 4
    ensures Le32(n) == s
  {
    Widths();
    FromLeBound(s);
    ToFromLe(s);
    FromLe(s)
  }

  function U64Of(s: seq<byte>): (n: u64)
    requires |s| == 8
    ensures Le64(n) == s
  {
    Widths();
    FromLeBound(s);
    ToFromLe(s);
    FromLe(s)
  }

  lemma {:induction false} NestedBytes(s: seq<byte>)
    requires s != []
    ensures FromLe(s) == s[0] + 256 * FromLe(s[1..])
  {
  }

  function Digit(s: seq<byte>, i: nat): nat
    requires i < |s|
  {
    s[i]
  }

  /** The least significant byte comes first, in words of all three widths. */
  lemma LittleEndian(s: seq<byte>)
    requires |s| == 8
    ensures U16Of(s[..2]) == Digit(s, 0) + 0x100 * Digit(s, 1)
    ensures U32Of(s[..4]) == Digit(s, 0) + 0x100 * Digit(s, 1) + 0x1_0000 * Digit(s, 2) + 0x100_0000 * Digit(s, 3)
    ensures U64Of(s) ==
            Digit(s, 0) + 0x100 * Digit(s, 1) + 0x1_0000 * Digit(s, 2) + 0x100_0000 * Digit(s, 3)
            + 0x1_0000_0000 * Digit(s, 4) + 0x100_0000_0000 * Digit(s, 5) + 0x1_0000_0000_0000 * Digit(s, 6)
            + 0x100_0000_0000_0000 * Digit(s, 7)
  {
    hide FromLe;
    Value2(s[..2]);
    Value4(s[..4]);
    Value4(s[4..]);
    Value8(s);
  }

  lemma Value2(s: seq<byte>)
    requires |s| == 2
    ensures FromLe(s) == Digit(s, 0) + 0x100 * Digit(s, 1)
  {
    NestedBytes(s);
    NestedBytes(s[1..]);
    assert s[1..][1..] == [];
  }

  lemma Value4(s: seq<byte>)
    requires |s| == 4
    ensures FromLe(s) == Digit(s, 0) + 0x100 * Digit(s, 1) + 0x1_0000 * Digit(s, 2) + 0x100_0000 * Digit(s, 3)
  {
    hide FromLe;
    NestedBytes(s);
    NestedBytes(s[1..]);
    assert s[1..][1..] == s[2..];
    Value2(s[2..]);
  }

  lemma Value8(s: seq<byte>)
    requires |s| == 8
    ensures FromLe(s) == FromLe(s[..4]) + 0x1_0000_0000 * FromLe(s[4..])
  {
    hide FromLe;
    Value4(s[..4]);
    NestedBytes(s);
    NestedBytes(s[1..]);
    NestedBytes(s[2..]);
    NestedBytes(s[3..]);
    assert s[1..][1..] == s[2..] && s[2..][1..] == s[3..] && s[3..][1..] == s[4..];
  }

  /** Little-endian words round-trip in both directions. */
  lemma WordRoundTrip(n: u64, m: u32)
    ensures U64Of(Le64(n)) == n && U32Of(Le32(m)) == m
  {
  }

  // ----------------------------------------------------------------- regions

  /** What is appended reads back behind what was there, which reads as before. */
  lemma Append(front: seq<byte>, x: seq<byte>)
    ensures (front + x)[|front|..|front| + |x|] == x
    ensures forall lo: nat, hi: nat {:trigger (front + x)[lo..hi]} ::
              lo <= hi <= |front| ==> (front + x)[lo..hi] == front[lo..hi]
    ensures forall i: nat {:trigger (front + x)[i]} :: i < |front| ==> (front + x)[i] == front[i]
  {
    forall lo: nat, hi: nat | lo <= hi <= |front| ensures (front + x)[lo..hi] == front[lo..hi] {
    }
  }

  /** `s` with the region starting at `off` overwritten by `v`. */
  function Splice(s: seq<byte>, off: nat, v: seq<byte>): (r: seq<byte>)
    requires off + |v| <= |s|
    ensures |r| == |s|
  {
    s[..off] + v + s[off + |v|..]
  }

  /** A region that the splice covers exactly reads back the written bytes; a
      region it does not meet reads back the old ones. */
  lemma SpliceRegion(s: seq<byte>, off: nat, v: seq<byte>, lo: nat, hi: nat)
    requires off + |v| <= |s| && lo <= hi <= |s|
    ensures lo == off && hi == off + |v| ==> Splice(s, off, v)[lo..hi] == v
    ensures hi <= off || off + |v| <= lo ==> Splice(s, off, v)[lo..hi] == s[lo..hi]
  {
    var r := Splice(s, off, v);
    if lo == off && hi == off + |v| {
      assert r[lo..hi] == v;
    }
    if hi <= off || off + |v| <= lo {
      assert r[lo..hi] == s[lo..hi];
    }
  }

  /** `dst[off..off + src.len()].copy_from_slice(src)`. */
  method CopyFromSlice(dst: array<byte>, off: nat, src: seq<byte>)
    requires off + |src| <= dst.Length
    modifies dst
    ensures dst[..] == Splice(old(dst[..]), off, src)
  {
    forall i | 0 <= i < |src| {
      dst[off + i] := src[i];
    }
  }

  /** `dst[off..off + n].fill(0)`. */
  method FillZero(dst: array<byte>, off: nat, n: nat)
    requires off + n <= dst.Length
    modifies dst
    ensures dst[..] == Splice(old(dst[..]), off, Zeros(n))
  {
    forall i | off <= i < off + n {
      dst[i] := 0;
    }
  }
}
