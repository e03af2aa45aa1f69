/** The transfer-hook check over Token-2022 mint and token account data, and the
    checks that precede the token program call. */
module SplToken {
  import opened Prelude
  import opened Bytes

  const TOKEN_ACCOUNT_LEN := 165
  const MINT_LEN := 82
  const MULTISIG_LEN := 355
  const EXT_TRANSFER_HOOK := 14
  const EXT_TRANSFER_HOOK_ACCOUNT := 15

  predicate IsHook(kind: nat) {
    kind == EXT_TRANSFER_HOOK || kind == EXT_TRANSFER_HOOK_ACCOUNT
  }

  /** Recursive reader of a type-length-value area. */
  function ReadTlv(s: seq<byte>): Result<Unit>
    decreases |s|
  {
    if |s| < 4 then Ok(Done)
    else
      var kind, len := U16Of(s[0..2]), U16Of(s[2..4]);
      if 4 + len > |s| then Err(InvalidAccountData)
      else if IsHook(kind) then Err(InvalidAccountData)
      else if kind == 0 && len == 0 then Ok(Done)
      else ReadTlv(s[4 + len..])
  }

  /** Where the type-length-value area starts: after the base, the zero padding if
      there is any, and the account type byte. */
  function TlvStart(data: seq<byte>, baseLen: nat): (start: nat)
    requires baseLen < |data|
    ensures baseLen < start <= |data|
  {
    if |data| > MULTISIG_LEN && baseLen < MULTISIG_LEN && AllZero(data[baseLen..MULTISIG_LEN])
    then MULTISIG_LEN + 1
    else baseLen + 1
  }

  function NoTransferHook(data: seq<byte>, baseLen: nat): Result<Unit> {
    if |data| <= baseLen then Ok(Done) else ReadTlv(data[TlvStart(data, baseLen)..])
  }

  /** `reject_if_transfer_hook`: the loop refines the recursive reader. */
  method RejectIfTransferHook(data: seq<byte>, baseLen: nat) returns (r: Result<Unit>)
    ensures r == NoTransferHook(data, baseLen)
  {
    if |data| <= baseLen {
      return Ok(Done);
    }
    var tlvStart := baseLen;
    if |data| > MULTISIG_LEN && baseLen < MULTISIG_LEN && AllZero(data[baseLen..MULTISIG_LEN]) {
      tlvStart := MULTISIG_LEN;
    }
    if tlvStart >= |data| {
      return Ok(Done);
    }
    tlvStart := tlvStart + 1;
    var i := tlvStart;
    while i + 4 <= |data|
      invariant tlvStart <= i <= |data|
      invariant ReadTlv(data[i..]) == ReadTlv(data[tlvStart..])
      decreases |data| - i
    {
      var rest := data[i..];
      assert rest[0..2] == data[i..i + 2] && rest[2..4] == data[i + 2..i + 4];
      var extType := U16Of(data[i..i + 2]);
      var extLen := U16Of(data[i + 2..i + 4]);
      assert i + 4 + extLen <= |data| ==> rest[4 + extLen..] == data[i + 4 + extLen..];
      i := i + 4;
      if i + extLen > |data| {
        return Err(InvalidAccountData);
      }
      if extType == EXT_TRANSFER_HOOK || extType == EXT_TRANSFER_HOOK_ACCOUNT {
        return Err(InvalidAccountData);
      }
      if extType == 0 && extLen == 0 {
        break;
      }
      i := i + extLen;
    }
    return Ok(Done);
  }

  // ------------------------------------------ what the reader accepts, exactly

  datatype Entry = Entry(kind: nat, payload: seq<byte>)

  /** An entry that can be written and does not end the area. */
  predicate Proper(e: Entry) {
    e.kind < 0x1_0000 && |e.payload| < 0x1_0000 && !(e.kind == 0 && e.payload == [])
  }

  function EntryBytes(e: Entry): (b: seq<byte>)
    ensures |b| == 4 + |e.payload|
  {
    ToLe(e.kind, 2) + ToLe(|e.payload|, 2) + e.payload
  }

  function AreaBytes(es: seq<Entry>, tail: seq<byte>): seq<byte> {
    if es == [] then tail else EntryBytes(es[0]) + AreaBytes(es[1..], tail)
  }

  /** Fewer than four bytes left, or an end marker. */
  predicate EndsArea(tail: seq<byte>) {
    |tail| < 4 || AllZero(tail[..4])
  }

  ghost predicate HookFreeArea(s: seq<byte>) {
    exists es: seq<Entry>, tail :: WellFormedArea(s, es, tail)
  }

  ghost predicate WellFormedArea(s: seq<byte>, es: seq<Entry>, tail: seq<byte>) {
    && s == AreaBytes(es, tail)
    && EndsArea(tail)
    && forall i :: 0 <= i < |es| ==> Proper(es[i]) && !IsHook(es[i].kind)
  }

  lemma HeaderReads(e: Entry, rest: seq<byte>)
    requires Proper(e)
    ensures var s := EntryBytes(e) + rest;
            U16Of(s[0..2]) == e.kind && U16Of(s[2..4]) == |e.payload| && s[4 + |e.payload|..] == rest
  {
    var s := EntryBytes(e) + rest;
    assert s[0..2] == ToLe(e.kind, 2) && s[2..4] == ToLe(|e.payload|, 2);
    Widths();
    FromToLe(e.kind, 2);
    FromToLe(|e.payload|, 2);
  }

  lemma ZeroHeader(s: seq<byte>)
    requires |s| >= 4
    ensures U16Of(s[0..2]) == 0 && U16Of(s[2..4]) == 0 <==> AllZero(s[..4])
  {
    PairZero(s[0..2]);
    PairZero(s[2..4]);
    assert s[0..2][0] == s[0] && s[0..2][1] == s[1] && s[2..4][0] == s[2] && s[2..4][1] == s[3];
    assert AllZero(s[..4]) <==> s[..4][0] == 0 && s[..4][1] == 0 && s[..4][2] == 0 && s[..4][3] == 0;
  }

  lemma PairZero(p: seq<byte>)
    requires |p| == 2
    ensures U16Of(p) == 0 <==> p[0] == 0 && p[1] == 0
  {
    assert FromLe(p[1..]) == p[1] + 256 * FromLe(p[1..][1..]);
  }

  lemma {:induction false} AreaAccepted(es: seq<Entry>, tail: seq<byte>)
    requires EndsArea(tail)
    requires forall i :: 0 <= i < |es| ==> Proper(es[i])
    ensures ReadTlv(AreaBytes(es, tail)).Ok? <==> forall i :: 0 <= i < |es| ==> !IsHook(es[i].kind)
    decreases |es|
  {
    if es == [] {
      if |tail| >= 4 {
        ZeroHeader(tail);
      }
    } else {
      AreaAccepted(es[1..], tail);
      HeaderReads(es[0], AreaBytes(es[1..], tail));
      assert forall i :: 1 <= i < |es| ==> es[i] == es[1..][i - 1];
    }
  }

  lemma {:induction false} AcceptedArea(s: seq<byte>) returns (es: seq<Entry>, tail: seq<byte>)
    requires ReadTlv(s).Ok?
    ensures WellFormedArea(s, es, tail)
    decreases |s|
  {
    es, tail := [], s;
    if |s| >= 4 {
      ZeroHeader(s);
      var kind, len := U16Of(s[0..2]), U16Of(s[2..4]);
      if !(kind == 0 && len == 0) {
        var rest: seq<Entry>;
        rest, tail := AcceptedArea(s[4 + len..]);
        var e := Entry(kind, s[4..4 + len]);
        ToFromLe(s[0..2]);
        ToFromLe(s[2..4]);
        assert s == EntryBytes(e) + s[4 + len..];
        es := [e] + rest;
        assert es[1..] == rest;
      }
    }
  }

  /** The reader accepts exactly the areas that are a list of hook-free entries,
      each within bounds, up to an end marker or the last three bytes. */
  lemma ReadTlvExact(s: seq<byte>)
    ensures ReadTlv(s).Ok? <==> HookFreeArea(s)
  {
    if ReadTlv(s).Ok? {
      var es, tail := AcceptedArea(s);
    } else if HookFreeArea(s) {
      var es, tail :| WellFormedArea(s, es, tail);
      AreaAccepted(es, tail);
    }
  }

  /** No transfer hook among the entries behind a base of this length, if there are any. */
  ghost predicate HookFree(data: seq<byte>, baseLen: nat) {
    |data| > baseLen ==> HookFreeArea(data[TlvStart(data, baseLen)..])
  }

  lemma HookFreeExact(data: seq<byte>, baseLen: nat)
    ensures NoTransferHook(data, baseLen).Ok? <==> HookFree(data, baseLen)
  {
    hide HookFreeArea, ReadTlv;
    if |data| > baseLen {
      ReadTlvExact(data[TlvStart(data, baseLen)..]);
    }
  }

  /** An entry of kind 14 or 15 anywhere among the entries is refused. */
  lemma HooksRefused(es: seq<Entry>, tail: seq<byte>, i: nat)
    requires EndsArea(tail) && i < |es| && (es[i].kind == 14 || es[i].kind == 15)
    requires forall j :: 0 <= j < |es| ==> Proper(es[j])
    ensures ReadTlv(AreaBytes(es, tail)).Err?
  {
    AreaAccepted(es, tail);
  }

  /** Where token data is read, in plain offsets: from 356 on when the data is longer than
      355 bytes and zero from its base up to 355, right behind the account type
      otherwise; a first entry of kind 14 or 15 there is refused. */
  lemma FirstHookRefused(data: seq<byte>, baseLen: nat, start: nat)
    requires |data| > baseLen && start + 4 <= |data|
    requires start == if |data| > 355 && baseLen < 355 && AllZero(data[baseLen..355]) then 356 else baseLen + 1
    requires data[start..start + 2] == [14, 0] || data[start..start + 2] == [15, 0]
    ensures NoTransferHook(data, baseLen).Err?
  {
    var s := data[start..];
    assert s[0..2] == data[start..start + 2];
    assert data[start..start + 2][1..] == [0];
    assert FromLe([0]) == 0 + 256 * FromLe([0][1..]);
  }

  /** The declared layout: base, optional zero padding up to 355, account type,
      entries. */
  function Layout(base: seq<byte>, padded: bool, accountType: byte, area: seq<byte>): seq<byte>
    requires |base| < MULTISIG_LEN
  {
    base + (if padded then Zeros(MULTISIG_LEN - |base|) else []) + [accountType] + area
  }

  /** The walk starts at the entries exactly when the data is padded, or is too
      short to be padded, or is not all zero where the padding would be. */
  lemma LayoutLocated(base: seq<byte>, padded: bool, accountType: byte, area: seq<byte>)
    requires |base| < MULTISIG_LEN
    ensures var data := Layout(base, padded, accountType, area);
            && data[|data| - |area|..] == area
            && (TlvStart(data, |base|) == |data| - |area|
                <==> padded || |data| <= MULTISIG_LEN || !AllZero(data[|base|..MULTISIG_LEN]))
  {
    var data := Layout(base, padded, accountType, area);
    if padded {
      assert data[|base|..MULTISIG_LEN] == Zeros(MULTISIG_LEN - |base|);
    }
    assert data[|data| - |area|..] == area;
  }

  /** In the declared layout with a non-zero account type, the check succeeds
      exactly when the entries hold no hook and no overrun before their end. */
  lemma HookCheckExact(base: seq<byte>, padded: bool, accountType: byte, area: seq<byte>)
    requires |base| < MULTISIG_LEN && accountType != 0
    ensures NoTransferHook(Layout(base, padded, accountType, area), |base|).Ok? <==> HookFreeArea(area)
  {
    var data := Layout(base, padded, accountType, area);
    if !padded && |data| > MULTISIG_LEN {
      assert data[|base|..MULTISIG_LEN][0] == accountType;
    }
    LayoutLocated(base, padded, accountType, area);
    ReadTlvExact(area);
  }

  /** Unpadded data that is zero through the padding region reads as padded. */
  predicate MistakenForPadded(base: seq<byte>, padded: bool, accountType: byte, area: seq<byte>)
    requires |base| < MULTISIG_LEN
  {
    var data := Layout(base, padded, accountType, area);
    !padded && |data| > MULTISIG_LEN && AllZero(data[|base|..MULTISIG_LEN])
  }

  lemma MistakenAreaEnds(base: seq<byte>, accountType: byte, area: seq<byte>)
    requires |base| + 5 <= MULTISIG_LEN && MistakenForPadded(base, false, accountType, area)
    ensures HookFreeArea(area)
  {
    var data := Layout(base, false, accountType, area);
    assert forall i :: 0 <= i < 4 ==> area[i] == data[|base|..MULTISIG_LEN][1 + i];
    assert WellFormedArea(area, [], area);
  }

  /** Whatever the account type, data that passes has no hook among its entries; and
      the check is exact unless unpadded data reads as padded and what then stands at
      the entries' place is not a hook-free area. Both base lengths in use leave room
      for the end marker. */
  lemma HookCheckSound(base: seq<byte>, padded: bool, accountType: byte, area: seq<byte>)
    requires |base| + 5 <= MULTISIG_LEN
    ensures var data := Layout(base, padded, accountType, area);
            var ok := NoTransferHook(data, |base|).Ok?;
            && (ok ==> HookFreeArea(area))
            && ((ok <==> HookFreeArea(area)) <==>
                  !MistakenForPadded(base, padded, accountType, area) || HookFreeArea(data[MULTISIG_LEN + 1..]))
  {
    var data := Layout(base, padded, accountType, area);
    LayoutLocated(base, padded, accountType, area);
    if MistakenForPadded(base, padded, accountType, area) {
      MistakenAreaEnds(base, accountType, area);
      ReadTlvExact(data[MULTISIG_LEN + 1..]);
    } else {
      ReadTlvExact(area);
    }
  }

  /** The exception is real: token account data with account type 0 whose entries end at
      once is refused because of bytes that follow the end marker. */
  lemma ZeroAccountTypeRefused()
    ensures var area: seq<byte> := Zeros(190) + [14, 0, 0, 0];
            && HookFreeArea(area)
            && NoTransferHook(Layout(Zeros(TOKEN_ACCOUNT_LEN), false, 0, area), TOKEN_ACCOUNT_LEN).Err?
  {
    var area: seq<byte> := Zeros(190) + [14, 0, 0, 0];
    var data := Layout(Zeros(TOKEN_ACCOUNT_LEN), false, 0, area);
    assert AllZero(area[..4]);
    assert WellFormedArea(area, [], area);
    var rest := data[MULTISIG_LEN + 1..];
    assert rest == [14, 0, 0, 0];
    assert rest[0..2] == [14, 0] && rest[2..4] == [0, 0];
    assert FromLe([14, 0]) == 14 + 256 * FromLe([0]) by {
      assert [14, 0][1..] == [0];
    }
    assert FromLe([0]) == 0 by {
      assert [0][1..] == [];
    }
    PairZero([0, 0]);
  }
}
