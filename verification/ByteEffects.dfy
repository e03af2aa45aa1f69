/** What instructions do, read off the raw bytes of the accounts before and after:
    literal offsets and values, and none of the model's own readings. */
module ByteEffects {
  import opened Prelude
  import opened Bytes
  import opened Intent
  import opened Codec
  import opened State
  import opened Recovery
  import opened Host
  import opened Authorize
  import opened Protocol
  import opened Outcome
  import opened Machine
  import opened Ledger
  import opened Steps
  import opened Custody
  import opened Effects
  import opened Bytewise
  import Completeness
  import Ed25519
  import SplToken

  // ------------------------------------------------------ signed: the vault

  /** Policy byte, threshold flag and threshold: only tag 5 moves them, to the signed
      policy, and to the signed threshold or none. */
  predicate PolicyMoves(d: seq<byte>, b: seq<byte>, a: seq<byte>)
    requires |d| >= 50 && |b| == |a| == 1120
  {
    if d[9] == 5 then
      && a[2] == d[10] <= 5 && a[3] % 2 == b[3] % 2 && a[3] / 4 == b[3] / 4
      && (if d[10] == 5 then a[3] / 2 % 2 == 1 && a[80..88] == d[18..26]
          else a[3] / 2 % 2 == 0 && a[80..88] == Zeros(8))
    else a[2] == b[2] && a[3] / 2 == b[3] / 2 && a[80..88] == b[80..88]
  }

  /** The recovery flag: raised from clear or cleared from raised, by tag 6 only. */
  predicate RecoveryMoves(d: seq<byte>, b: seq<byte>, a: seq<byte>)
    requires |d| >= 50 && |b| == |a| == 1120
  {
    if d[9] == 6 && d[10] == 0 then b[3] % 2 == 0 && a[3] == b[3] + 1 && d[18..50] == Zeros(32)
    else if d[9] == 6 && d[10] == 1 then b[3] % 2 == 1 && a[3] == b[3] - 1 && d[18..50] == Zeros(32)
    else a[3] % 2 == b[3] % 2
  }

  /** The owner: only tag 3 and the rotation of tag 6 move it, to the signed key. */
  predicate OwnerMoves(d: seq<byte>, b: seq<byte>, a: seq<byte>)
    requires |d| >= 50 && |b| == |a| == 1120
  {
    if d[9] == 3 then a[8..40] == d[10..42] != b[8..40]
    else if d[9] == 6 && d[10] == 2 then a[8..40] == d[18..50] != b[8..40] && d[18..50] != Zeros(32)
    else a[8..40] == b[8..40]
  }

  /** The Falcon key: only tag 4 moves it, to the signed hash of the key carried along
      and to that key's prepared form. */
  ghost predicate FalconMoves(host: Host, d: seq<byte>, b: seq<byte>, a: seq<byte>)
    requires |d| >= 716 && |b| == |a| == 1120
  {
    if d[9] == 4 then
      && |d| >= 1613 && a[40..72] == d[10..42] == host.sha(d[716..1613]) && a[40..72] != b[40..72]
      && host.prepare(d[716..1613]) == Some(a[96..1120])
    else a[40..72] == b[40..72] && a[96..1120] == b[96..1120]
  }

  /** The bytes of a vault before and after a signed instruction. */
  ghost predicate VaultMoves(host: Host, d: seq<byte>, b: seq<byte>, a: seq<byte>)
    requires |d| >= 716 && |b| == |a| == 1120
  {
    && a[0] == b[0] == 1 && a[1] == b[1] && a[4..8] == b[4..8] && a[88..96] == b[88..96]
    && U64Of(a[72..80]) == U64Of(b[72..80]) + 1
    && PolicyMoves(d, b, a) && RecoveryMoves(d, b, a) && OwnerMoves(d, b, a) && FalconMoves(host, d, b, a)
  }

  lemma MovedPolicy(d: seq<byte>, b: seq<byte>, action: Action, c: Option<Config>, prepared: Prepared)
    requires |d| >= 50 && |b| == 1120 && CarriesAction(d, action)
    requires VaultOf(b).nonce < U64_MAX && Permits(VaultOf(b), c, action)
    ensures var a := VaultBytes(VaultAfter(VaultOf(b), action, prepared));
            PolicyMoves(d, b, a) && RecoveryMoves(d, b, a)
  {
    hide U64Of, U32Of, VaultBytes, Le64, Le32;
    var u := VaultAfter(VaultOf(b), action, prepared);
    VaultRegions(u);
    BodyWord(d);
    ZeroWord();
  }

  lemma MovedOwner(d: seq<byte>, b: seq<byte>, action: Action, c: Option<Config>, prepared: Prepared)
    requires |d| >= 50 && |b| == 1120 && CarriesAction(d, action)
    requires VaultOf(b).nonce < U64_MAX && Permits(VaultOf(b), c, action)
    ensures OwnerMoves(d, b, VaultBytes(VaultAfter(VaultOf(b), action, prepared)))
  {
    hide U64Of, U32Of, VaultBytes, Le64, Le32, Policy.FromByte;
    VaultRegions(VaultAfter(VaultOf(b), action, prepared));
    BodyWord(d);
  }

  lemma MovedRest(b: seq<byte>, action: Action, prepared: Prepared)
    requires |b| == 1120 && VaultOf(b).nonce < U64_MAX
    ensures var a := VaultBytes(VaultAfter(VaultOf(b), action, prepared));
            && a[0] == b[0] && a[1] == b[1] && a[4..8] == b[4..8] && a[88..96] == b[88..96]
            && U64Of(a[72..80]) == U64Of(b[72..80]) + 1
            && (if action.RotateFalconKey? then a[40..72] == action.newHash && a[96..1120] == prepared
                else a[40..72] == b[40..72] && a[96..1120] == b[96..1120])
  {
    hide U64Of, U32Of, VaultBytes, Le64, Le32, VaultAfter;
    var v := VaultOf(b);
    var u := VaultAfter(v, action, prepared);
    VaultRegions(u);
    VaultAfterKeeps(v, action, prepared);
    WordRoundTrip(u.nonce, 0);
    FalconAfter(v, action, prepared);
  }

  lemma FalconAfter(v: Vault, action: Action, prepared: Prepared)
    requires v.nonce < U64_MAX
    ensures action.RotateFalconKey? ==>
              var u := VaultAfter(v, action, prepared); u.falconHash == action.newHash && u.prepared == prepared
  {
  }

  /** What the outcome of a Falcon rotation says of the carried key. */
  lemma CarriedKey(host: Host, w: World, ix: Instruction, q: Patch)
    requires SignedOutcome(host, w, ix, q) && |ix.data| >= 716
    ensures WireOf(ix).Ok? && VaultAt(host, w, q.vault).Some?
    ensures Permits(VaultAt(host, w, q.vault).value, ConfigAt(host, w, q.vault), WireOf(ix).value.action)
    ensures WireOf(ix).value.action.RotateFalconKey? ==>
              && |ix.data| >= 1613 && WireOf(ix).value.action.newHash == host.sha(ix.data[716..1613])
              && host.prepare(ix.data[716..1613]) == Some(NewPrepared(host, ix))
              && WireOf(ix).value.action.newHash != VaultAt(host, w, q.vault).value.falconHash
  {
    hide WireOf, SubjectOf, VaultAt, VaultAfter, ConfigWritten, PaymentFits, SysvarOf, SignatureOf, TokensFit,
         DiscriminatorOf, EffectiveRequirement, Digest, Policy.FromByte, ConfigAt;
  }

  /** Every field of a vault after a signed instruction, whichever of the eight actions it
      carries. */
  lemma SignedVaultBytes(host: Host, w: World, ix: Instruction)
    requires HostOk(host) && Inv(host, w) && Admissible(host, ix)
    requires ix.data != [] && ix.data[0] in {1, 2, 3, 4, 5, 6, 9} && Decide(host, w, ix).Ok?
    ensures |ix.data| >= 716 && ix.metas != []
    ensures var b, a := Get(w, ix.metas[0].key).data, Get(After(host, w, ix), ix.metas[0].key).data;
            |b| == |a| == 1120 && VaultMoves(host, ix.data, b, a)
  {
    hide HostOk, Inv, Decide, SignedOutcome, VaultMoves, CarriesAction, WireOf, VaultAt, Get, Ed25519.RuntimeVerified,
         After, VaultBytes, VaultAfter, NewPrepared, RightDiscriminator, SigningBytes, SignaturesAllow, PossessionShown;
    var q := Decide(host, w, ix).value;
    SignedInstruction(host, w, ix, q);
    var p, action := SignedMeans(host, w, ix);
    VaultLamportsFixed(host, w, ix, q);
    SignedPatch(host, w, ix, q);
    CarriedKey(host, w, ix, q);
    StoredBytes(host, w, q.vault);
    MovedVault(host, ix, Get(w, q.vault).data, action, ConfigAt(host, w, q.vault), NewPrepared(host, ix));
  }

  lemma StoredBytes(host: Host, w: World, k: Key)
    requires VaultAt(host, w, k).Some?
    ensures Get(w, k).owner == host.programId && |Get(w, k).data| == 1120 && Get(w, k).data[0] == 1
    ensures VaultAt(host, w, k).value == VaultOf(Get(w, k).data)
  {
  }

  lemma MovedVault(
      host: Host, ix: Instruction, b: seq<byte>, action: Action, c: Option<Config>, prepared: Prepared)
    requires |ix.data| >= 716 && |b| == 1120 && b[0] == 1 && CarriesAction(ix.data, action)
    requires VaultOf(b).nonce < U64_MAX && Permits(VaultOf(b), c, action)
    requires action.RotateFalconKey? ==>
               && |ix.data| >= 1613 && action.newHash == host.sha(ix.data[716..1613])
               && host.prepare(ix.data[716..1613]) == Some(prepared) && action.newHash != VaultOf(b).falconHash
    ensures VaultMoves(host, ix.data, b, VaultBytes(VaultAfter(VaultOf(b), action, prepared)))
  {
    hide U64Of, U32Of, VaultBytes, Permits, VaultAfter, PolicyMoves, RecoveryMoves, OwnerMoves;
    MovedPolicy(ix.data, b, action, c, prepared);
    MovedOwner(ix.data, b, action, c, prepared);
    MovedRest(b, action, prepared);
    BodyWord(ix.data);
  }

  // --------------------------------------------- signed: lamports and tokens

  /** Tag 1 moves the signed amount from the vault to the signed recipient and leaves the
      rent; no other tag takes lamports from the vault. */
  predicate LamportsMove(host: Host, d: seq<byte>, k: Key, w: World, w': World)
    requires |d| >= 50
  {
    if d[9] == 1 then
      var amount, to := U64Of(d[42..50]), d[10..42];
      && to != k
      && Get(w', k).lamports == Get(w, k).lamports - amount
      && Get(w', to).lamports == Get(w, to).lamports + amount
      && (amount > 0 ==> Get(w', k).lamports >= host.vaultRent)
    else Get(w', k).lamports == Get(w, k).lamports
  }

  lemma AmountBytes(d: seq<byte>, action: Action)
    requires |d| >= 50 && CarriesAction(d, action)
    ensures d[9] == 1 <==> action.TransferSol?
    ensures action.TransferSol? ==> action.recipient == d[10..42] && action.lamports == U64Of(d[42..50])
    ensures action.TransferSpl? ==> action.destination == d[10..42] && action.amount == U64Of(d[42..50])
  {
    hide U64Of, Le64;
    BodyWord(d);
    AmountWord(action);
    if action.TransferSol? {
      WordRoundTrip(action.lamports, 0);
    }
    if action.TransferSpl? {
      WordRoundTrip(action.amount, 0);
    }
  }

  lemma RecipientPaid(host: Host, w: World, ix: Instruction, q: Patch)
    requires SignedOutcome(host, w, ix, q) && Decide(host, w, ix) == Ok(q) && WireOf(ix).Ok?
    requires WireOf(ix).value.action.TransferSol?
    ensures var action := WireOf(ix).value.action;
            && action.recipient != q.vault
            && Get(After(host, w, ix), action.recipient).lamports
               == Get(w, action.recipient).lamports + action.lamports
            && (action.lamports > 0 ==> Get(w, q.vault).lamports >= action.lamports + host.vaultRent)
  {
    hide Decide, SignedOutcome, VaultAfter, VaultAt, Get, ConfigWritten, TokensFit, NewPrepared, WireOf, Apply, Purge;
    SignedPatch(host, w, ix, q);
    ApplyAt(host, w, q, q.payment.to);
    GetPurged(Apply(host, w, q), q.payment.to);
  }

  /** Lamports before and after a signed instruction. */
  lemma SignedLamportsBytes(host: Host, w: World, ix: Instruction)
    requires HostOk(host) && Inv(host, w) && Admissible(host, ix)
    requires ix.data != [] && ix.data[0] in {1, 2, 3, 4, 5, 6, 9} && Decide(host, w, ix).Ok?
    ensures |ix.data| >= 716 && ix.metas != []
    ensures LamportsMove(host, ix.data, ix.metas[0].key, w, After(host, w, ix))
  {
    hide HostOk, Inv, Decide, SignedOutcome, CarriesAction, WireOf, VaultAt, Get, Ed25519.RuntimeVerified,
         After, VaultBytes, VaultAfter, NewPrepared, RightDiscriminator, SigningBytes, SignaturesAllow, PossessionShown;
    var q := Decide(host, w, ix).value;
    SignedInstruction(host, w, ix, q);
    var p, action := SignedMeans(host, w, ix);
    AmountBytes(ix.data, action);
    VaultLamportsFixed(host, w, ix, q);
    if action.TransferSol? {
      RecipientPaid(host, w, ix, q);
    }
  }

  /** No transfer hook behind a base of this length: entries start after the account type
      byte, which stands at 355 when zeros reach up to there. */
  ghost predicate NoHooks(data: seq<byte>, base: nat)
    requires base < 355
  {
    |data| > base ==>
      if |data| > 355 && (forall i :: base <= i < 355 ==> data[i] == 0) then SplToken.HookFreeArea(data[356..])
      else SplToken.HookFreeArea(data[base + 1..])
  }

  lemma HooksInBytes(data: seq<byte>, base: nat)
    requires base < 355
    ensures SplToken.NoTransferHook(data, base).Ok? <==> NoHooks(data, base)
  {
    hide SplToken.NoTransferHook, SplToken.HookFreeArea;
    SplToken.HookFreeExact(data, base);
    if |data| > 355 {
      ZerosBetween(data, base);
    }
  }

  lemma ZerosBetween(data: seq<byte>, base: nat)
    requires base < 355 < |data|
    ensures AllZero(data[base..355]) <==> forall i :: base <= i < 355 ==> data[i] == 0
  {
    var s := data[base..355];
    if AllZero(s) {
      forall i | base <= i < 355 ensures data[i] == 0 {
        assert s[i - base] == 0;
      }
    }
  }

  /** What a token transfer to `to` out of the vault at `k` asks of the accounts it names:
      creator, source, mint, destination and token program, in that order from position
      1 on. */
  ghost predicate TokensNeed(host: Host, w: World, k: Key, metas: seq<Meta>, to: Key, amount: nat)
    requires |metas| == 7 && |Get(w, k).data| == 1120 && amount <= 0xFFFF_FFFF_FFFF_FFFF
  {
    var creator, source, mint, destination, program := metas[1].key, metas[2].key, metas[3].key, metas[4].key,
                                                       metas[5].key;
    var b, s, m, t := Get(w, k).data, Get(w, source).data, Get(w, mint).data, Get(w, destination).data;
    && destination == to && source != destination && metas[2].writable && metas[4].writable
    && (program == host.tokenProgram || program == host.token2022Program)
    && Get(w, source).owner == program && Get(w, destination).owner == program && Get(w, mint).owner == program
    && host.create([[0x64, 0x75, 0x61, 0x6C, 0x6B, 0x65, 0x79], creator, b[4..8], [b[1]]]) == Some(k)
    && |m| >= 82 && NoHooks(m, 82)
    && |s| >= 165 && NoHooks(s, 165) && s[0..32] == mint && s[32..64] == k && U64Of(s[64..72]) >= amount
    && |t| >= 165 && NoHooks(t, 165) && t[0..32] == mint
    && (amount > 0 ==>
          && var r := host.token(TokenCall(program, source, mint, destination, k, amount, m[44], s, m, t));
             && r.Some? && r.value.moved <= Get(w, source).lamports
             && Get(w, destination).lamports + r.value.moved <= 0xFFFF_FFFF_FFFF_FFFF)
  }

  lemma SignerBytes(creator: Key, b: seq<byte>)
    requires |b| == 1120
    ensures SignerSeeds(creator, VaultOf(b).index, VaultOf(b).bump)
            == [[0x64, 0x75, 0x61, 0x6C, 0x6B, 0x65, 0x79], creator, b[4..8], [b[1]]]
  {
    hide U64Of, U32Of;
    SeedBytes(creator, VaultOf(b).index, creator);
  }

  lemma AccountsInBytes(w: World, k: Key, source: Key, mint: Key, destination: Key, amount: u64)
    ensures TokenAccountsFit(w, k, source, mint, destination, amount).Ok? <==>
            && |Get(w, mint).data| >= 82 && NoHooks(Get(w, mint).data, 82)
            && |Get(w, source).data| >= 165 && NoHooks(Get(w, source).data, 165)
            && Get(w, source).data[0..32] == mint && Get(w, source).data[32..64] == k
            && U64Of(Get(w, source).data[64..72]) >= amount
            && |Get(w, destination).data| >= 165 && NoHooks(Get(w, destination).data, 165)
            && Get(w, destination).data[0..32] == mint
  {
    hide Get, SplToken.NoTransferHook, NoHooks, U64Of;
    HooksInBytes(Get(w, mint).data, 82);
    HooksInBytes(Get(w, source).data, 165);
    HooksInBytes(Get(w, destination).data, 165);
  }

  lemma TokensInBytes(host: Host, w: World, k: Key, metas: seq<Meta>, to: Key, amount: u64)
    requires |metas| == 7 && |Get(w, k).data| == 1120
    ensures var r := DecideTokens(host, w, k, metas[1], metas[2], metas[3], metas[4], metas[5], to, amount);
            && (r.Ok? <==> TokensNeed(host, w, k, metas, to, amount))
            && (r.Ok? && amount == 0 ==> r.value == (NO_PAYMENT, None))
  {
    hide Get, NoHooks, U64Of, TokenAccountsFit, VaultOf, SignerSeeds;
    SignerBytes(metas[1].key, Get(w, k).data);
    AccountsInBytes(w, k, metas[2].key, metas[3].key, metas[4].key, amount);
  }

  /** What becomes of the two token accounts: what the token program answered, or nothing
      when the amount is zero. */
  ghost predicate TokensMove(host: Host, k: Key, metas: seq<Meta>, amount: nat, w: World, w': World)
    requires |metas| == 7 && |Get(w, metas[3].key).data| >= 82 && amount <= 0xFFFF_FFFF_FFFF_FFFF
  {
    var source, mint, destination := metas[2].key, metas[3].key, metas[4].key;
    var s, m, t := Get(w, source), Get(w, mint), Get(w, destination);
    if amount == 0 then Get(w', source) == Completeness.Left(s) && Get(w', destination) == Completeness.Left(t)
    else
      var call := host.token(TokenCall(metas[5].key, source, mint, destination, k, amount, m.data[44], s.data, m.data,
                                       t.data));
      && call.Some? && call.value.moved <= s.lamports
      && Get(w', source)
         == Completeness.Left(Account(s.owner, s.lamports - call.value.moved, call.value.sourceData))
      && Get(w', destination)
         == Completeness.Left(Account(t.owner, t.lamports + call.value.moved, call.value.destinationData))
  }

  /** The patch of a token transfer comes from the decision about its tokens. */
  lemma TokenPatch(host: Host, w: World, ix: Instruction, q: Patch)
    requires Decide(host, w, ix) == Ok(q) && ix.data != [] && ix.data[0] == 1
    requires WireOf(ix).Ok? && WireOf(ix).value.action.TransferSpl?
    ensures |ix.metas| == 7 && q.vault == ix.metas[0].key && q.config.None?
    ensures var m, action := ix.metas, WireOf(ix).value.action;
            var r := DecideTokens(host, w, q.vault, m[1], m[2], m[3], m[4], m[5], action.destination, action.amount);
            r.Ok? && q.payment == r.value.0 && q.tokens == r.value.1
  {
    hide DecodeWire, Authorized, DecideTokens, DecideTransferSol, Get, DecideInitialize, DecideRotateEd25519,
         DecideRotateFalcon, DecideChangePolicy, DecideRecover, DecideSetRecoveryConfig, DecideInitiate,
         DecideFinalize, DecideCancel;
    PayloadRegions(ix);
  }

  lemma TokenResults(host: Host, w: World, k: Key, metas: seq<Meta>, to: Key, amount: u64)
    requires |metas| == 7 && |Get(w, k).data| == 1120
    requires DecideTokens(host, w, k, metas[1], metas[2], metas[3], metas[4], metas[5], to, amount).Ok? && amount > 0
    ensures TokensNeed(host, w, k, metas, to, amount)
    ensures var r := DecideTokens(host, w, k, metas[1], metas[2], metas[3], metas[4], metas[5], to, amount).value;
            var m := Get(w, metas[3].key).data;
            var call := host.token(TokenCall(metas[5].key, metas[2].key, metas[3].key, metas[4].key, k, amount, m[44],
                                             Get(w, metas[2].key).data, m, Get(w, metas[4].key).data)).value;
            && r.0 == Payment(metas[2].key, metas[4].key, call.moved)
            && r.1 == Some(TokenWrite(metas[2].key, call.sourceData, metas[4].key, call.destinationData))
  {
    hide Get, NoHooks, U64Of, TokenAccountsFit, VaultOf, SignerSeeds;
    TokensInBytes(host, w, k, metas, to, amount);
  }

  lemma TokensMoved(host: Host, w: World, q: Patch, metas: seq<Meta>, to: Key, amount: u64)
    requires HostOk(host) && PatchFits(host, w, q) && Get(w, q.vault).owner == host.programId
    requires |metas| == 7 && |Get(w, q.vault).data| == 1120 && q.config.None?
    requires var r := DecideTokens(host, w, q.vault, metas[1], metas[2], metas[3], metas[4], metas[5], to, amount);
             r.Ok? && q.payment == r.value.0 && q.tokens == r.value.1
    ensures Payable(w, q.payment) && TokensNeed(host, w, q.vault, metas, to, amount)
    ensures TokensMove(host, q.vault, metas, amount, w, Purge(Apply(host, w, q)))
  {
    hide HostOk, PatchFits, Get, Apply, Purge, DecideTokens, NoHooks, U64Of, VaultBytes, ConfigBytes;
    Distinct(host);
    FitsPayable(host, w, q);
    TokensInBytes(host, w, q.vault, metas, to, amount);
    if amount > 0 {
      TokenResults(host, w, q.vault, metas, to, amount);
    }
    ApplyAt(host, w, q, metas[2].key);
    ApplyAt(host, w, q, metas[4].key);
    GetPurged(Apply(host, w, q), metas[2].key);
    GetPurged(Apply(host, w, q), metas[4].key);
  }

  /** Needs and effects for the destination and the amount in an instruction's data. */
  ghost predicate TokensSent(host: Host, ix: Instruction, w: World, w': World)
    requires |ix.data| >= 50 && |ix.metas| == 7 && |Get(w, ix.metas[0].key).data| == 1120
  {
    var amount := U64Of(ix.data[42..50]);
    && TokensNeed(host, w, ix.metas[0].key, ix.metas, ix.data[10..42], amount)
    && TokensMove(host, ix.metas[0].key, ix.metas, amount, w, w')
  }

  /** What a signed token transfer asks of the accounts it names and does to them. */
  lemma SignedTokenBytes(host: Host, w: World, ix: Instruction)
    requires HostOk(host) && Inv(host, w) && Admissible(host, ix)
    requires |ix.data| > 9 && ix.data[0] == 1 && ix.data[9] == 2 && Decide(host, w, ix).Ok?
    ensures |ix.data| >= 716 && |ix.metas| == 7 && |Get(w, ix.metas[0].key).data| == 1120
    ensures TokensSent(host, ix, w, After(host, w, ix))
  {
    hide HostOk, Inv, Decide, Get, U64Of, Apply, Purge, SigningBytes, SignaturesAllow, RightDiscriminator, PatchFits,
         PossessionShown, WireOf, DecideTokens, TokensNeed, TokensMove, Ed25519.RuntimeVerified;
    var q := Decide(host, w, ix).value;
    var p, action := SignedMeans(host, w, ix);
    AmountBytes(ix.data, action);
    TokenPatch(host, w, ix, q);
    DecidedFits(host, w, ix, q);
    TokensMoved(host, w, q, ix.metas, action.destination, action.amount);
  }

  // ---------------------------------------------- signed: the configuration

  /** A configuration with its proposal cleared: key and ready slot zero, nothing else
      changed. */
  predicate ClearedBytes(c: seq<byte>, e: seq<byte>) {
    |c| == |e| == 128 && c[0] == 1 && e[..44] == c[..44] && e[44..84] == Zeros(40) && e[84..] == c[84..]
  }

  /** What tag 7 leaves: the signed guardian and delay in a fresh configuration, or in the
      one that is there and has nothing pending. */
  predicate ConfiguredBytes(d: seq<byte>, bump: byte, c: seq<byte>, e: seq<byte>)
    requires |d| >= 50
  {
    && |e| == 128 && e[0] == 1 && e[4..36] == d[10..42] != Zeros(32) && e[36..44] == d[42..50]
    && U64Of(d[42..50]) >= 1
    && (if c == [] then e[1] == bump && e[2..4] == Zeros(2) && e[44..] == Zeros(84)
        else |c| == 128 && c[0] == 1 && c[44..76] == Zeros(32) && e[1..4] == c[1..4] && e[44..] == c[44..])
  }

  lemma ClearedRecord(c: seq<byte>)
    requires |c| == 128 && c[0] == 1
    ensures ClearedBytes(c, ConfigBytes(ConfigOf(c).Cleared()))
  {
    hide ConfigBytes, Le64, U64Of;
    var x := ConfigOf(c);
    var e := ConfigBytes(x.Cleared());
    ConfigRegions(x.Cleared());
    ZeroWord();
    HeadBytes(c, e);
    assert e[44..84] == e[44..76] + e[76..84];
    assert e[84..] == e[84..128] && c[84..] == c[84..128];
    assert e[44..84] == Zeros(40);
  }

  lemma HeadBytes(c: seq<byte>, e: seq<byte>)
    requires |c| == |e| == 128
    requires e[0] == c[0] && e[1] == c[1] && e[2] == c[2] && e[3] == c[3]
    requires e[4..36] == c[4..36] && e[36..44] == c[36..44]
    ensures e[..44] == c[..44]
  {
    assert c[..44] == [c[0], c[1], c[2], c[3]] + c[4..36] + c[36..44];
    assert e[..44] == [e[0], e[1], e[2], e[3]] + e[4..36] + e[36..44];
  }

  lemma FreshRecord(bump: byte, guardian: Key, delay: u64)
    ensures var e := ConfigBytes(NewConfig(bump, guardian, delay));
            && e[0] == 1 && e[1] == bump && e[2..4] == Zeros(2) && e[4..36] == guardian && e[36..44] == Le64(delay)
            && e[44..] == Zeros(84)
  {
    hide ConfigBytes, Le64, U64Of;
    var e := ConfigBytes(NewConfig(bump, guardian, delay));
    ConfigRegions(NewConfig(bump, guardian, delay));
    ZeroWord();
    assert e[2..4] == [e[2], e[3]];
    assert e[44..] == e[44..76] + e[76..84] + e[84..128];
  }

  lemma UpdatedRecord(c: seq<byte>, guardian: Key, delay: u64)
    requires |c| == 128 && c[0] == 1
    ensures var e := ConfigBytes(ConfigOf(c).(guardian := guardian, delay := delay));
            && e[0] == 1 && e[1..4] == c[1..4] && e[4..36] == guardian && e[36..44] == Le64(delay)
            && e[44..] == c[44..]
  {
    hide ConfigBytes, Le64, U64Of;
    var x := ConfigOf(c).(guardian := guardian, delay := delay);
    var e := ConfigBytes(x);
    ConfigRegions(x);
    assert e[1..4] == [e[1], e[2], e[3]] && c[1..4] == [c[1], c[2], c[3]];
    assert e[44..] == e[44..76] + e[76..84] + e[84..128];
    assert c[44..] == c[44..76] + c[76..84] + c[84..128];
  }

  /** The bytes at a vault's configuration address `r` before and after a signed
      instruction. Owner changes clear what is there, if anything is; tag 8 clears a
      proposal; tag 7 configures; the others leave a stored configuration alone. */
  predicate ConfigMoves(host: Host, d: seq<byte>, r: Option<(Key, byte)>, w: World, w': World)
    requires |d| >= 50
  {
    if d[9] == 7 then
      r.Some? && ConfiguredBytes(d, r.value.1, Get(w, r.value.0).data, Get(w', r.value.0).data)
    else if d[9] == 8 then
      && r.Some? && ClearedBytes(Get(w, r.value.0).data, Get(w', r.value.0).data)
      && Get(w, r.value.0).data[44..76] != Zeros(32)
    else if d[9] == 3 || (d[9] == 6 && d[10] == 2) then
      && r.Some?
      && (if Get(w, r.value.0).data == [] then Get(w', r.value.0).data == []
          else ClearedBytes(Get(w, r.value.0).data, Get(w', r.value.0).data))
    else
      r.Some? && ConfigStored(host, w, r.value.0) ==> Get(w', r.value.0).data == Get(w, r.value.0).data
  }

  /** A program account of 128 bytes with version 1. */
  predicate ConfigStored(host: Host, w: World, k: Key) {
    Get(w, k).owner == host.programId && |Get(w, k).data| == 128 && Get(w, k).data[0] == 1
  }

  lemma ConfigAtStored(host: Host, w: World, vault: Key)
    ensures ConfigAt(host, w, vault).Some? <==>
            ConfigAddress(host, vault).Some? && ConfigStored(host, w, ConfigAddress(host, vault).value.0)
    ensures ConfigAt(host, w, vault).Some? ==>
              ConfigAt(host, w, vault).value == ConfigOf(Get(w, ConfigAddress(host, vault).value.0).data)
  {
    hide ConfigOf;
  }

  /** What a written configuration is made of, byte by byte. */
  lemma WrittenBytes(host: Host, w: World, k: Key, d: seq<byte>, action: Action, config: ConfigWrite)
    requires |d| >= 50 && CarriesAction(d, action) && ConfigWritten(host, w, k, action, Some(config))
    requires action.SetRecoveryConfig? ==>
               && action.guardian != ZERO_KEY && action.delay >= 1
               && (ConfigAt(host, w, k).Some? ==> !ConfigAt(host, w, k).value.HasPending())
    ensures var r := ConfigAddress(host, k);
            && r.Some? && config.key == r.value.0
            && var c, e := Get(w, r.value.0).data, ConfigBytes(config.config);
               if action.SetRecoveryConfig? then ConfiguredBytes(d, r.value.1, c, e) else ClearedBytes(c, e)
  {
    hide ConfigOf, ConfigBytes, Get, ConfigAddress, U64Of, NewConfig, Config.Cleared;
    var r := ConfigAddress(host, k).value;
    var c := Get(w, r.0).data;
    ConfigAtStored(host, w, k);
    BodyWord(d);
    if action.SetRecoveryConfig? {
      WordRoundTrip(action.delay, 0);
      if ConfigAt(host, w, k).None? {
        FreshRecord(r.1, action.guardian, action.delay);
      } else {
        UpdatedRecord(c, action.guardian, action.delay);
        PendingBytes(c);
      }
    } else {
      ClearedRecord(c);
    }
  }

  lemma PendingBytes(c: seq<byte>)
    requires |c| == 128
    ensures ConfigOf(c).HasPending() <==> c[44..76] != Zeros(32)
  {
  }

  lemma EmptyStays(host: Host, w: World, q: Patch, action: Action, k: Key)
    requires HostOk(host) && Inv(host, w) && PatchFits(host, w, q) && q.record.Some? && q.config.None?
    requires TokensFit(host, w, action, q.tokens) && !action.TransferSpl?
    requires Get(w, k).data == []
    ensures k == q.vault || Get(Purge(Apply(host, w, q)), k).data == []
  {
    hide HostOk, Inv, Get, Apply, Purge, PatchFits, VaultBytes, ConfigBytes;
    FitsPayable(host, w, q);
    ApplyAt(host, w, q, k);
    GetPurged(Apply(host, w, q), k);
  }

  lemma FitsPayable(host: Host, w: World, q: Patch)
    requires PatchFits(host, w, q)
    ensures Payable(w, q.payment)
  {
    hide RecordFits, ConfigFits, PaymentOrigin;
  }

  lemma UnwrittenConfig(host: Host, w: World, q: Patch, action: Action)
    requires ConfigWritten(host, w, q.vault, action, None) && TouchesConfig(action)
    requires action.CancelSocialRecovery? ==> ConfigAt(host, w, q.vault).Some?
    ensures ReplacesOwner(action) && ConfigAddress(host, q.vault).Some?
    ensures Get(w, ConfigAddress(host, q.vault).value.0).data == []
  {
    hide ConfigAt, ConfigAddress, Get;
  }

  lemma KeptConfig(host: Host, w: World, q: Patch)
    requires HostOk(host) && Inv(host, w) && PatchFits(host, w, q) && q.config.None?
    ensures var r := ConfigAddress(host, q.vault);
            r.Some? && ConfigStored(host, w, r.value.0) ==>
              Get(Purge(Apply(host, w, q)), r.value.0).data == Get(w, r.value.0).data
  {
    hide HostOk, Inv, Get, Apply, Purge, PatchFits, ConfigAt, ConfigAddress, ConfigStored;
    FitsPayable(host, w, q);
    FitsInUse(host, w, q);
    ConfigAfterPatch(host, w, q, q.vault);
    ConfigAtStored(host, w, q.vault);
    if ConfigAt(host, w, q.vault).Some? {
      SameConfigSameBytes(host, w, Purge(Apply(host, w, q)), q.vault);
    }
  }

  lemma ConfigNeeds(v: Vault, c: Option<Config>, action: Action)
    requires Permits(v, c, action)
    ensures action.CancelSocialRecovery? ==> c.Some? && c.value.HasPending()
    ensures action.SetRecoveryConfig? ==>
              action.guardian != ZERO_KEY && action.delay >= 1 && (c.Some? ==> !c.value.HasPending())
  {
  }

  lemma MovedConfig(host: Host, w: World, d: seq<byte>, action: Action, q: Patch)
    requires HostOk(host) && Inv(host, w) && PatchFits(host, w, q) && q.record.Some?
    requires |d| >= 50 && CarriesAction(d, action) && |Get(w, q.vault).data| == 1120
    requires ConfigWritten(host, w, q.vault, action, q.config) && TokensFit(host, w, action, q.tokens)
    requires exists v :: Permits(v, ConfigAt(host, w, q.vault), action)
    ensures Payable(w, q.payment)
    ensures ConfigMoves(host, d, ConfigAddress(host, q.vault), w, Purge(Apply(host, w, q)))
  {
    hide HostOk, Inv, PatchFits, ConfigAt, ConfigAddress, Get, Apply, Purge, ConfigBytes, ConfiguredBytes,
         ConfigStored, ConfigWritten, Permits, TokensFit, U64Of;
    FitsPayable(host, w, q);
    var v :| Permits(v, ConfigAt(host, w, q.vault), action);
    ConfigNeeds(v, ConfigAt(host, w, q.vault), action);
    TagOfTouch(d, action);
    if q.config.Some? {
      SetsTouch(host, w, q.vault, action, q.config.value);
      WrittenBytes(host, w, q.vault, d, action, q.config.value);
      WrittenConfig(host, w, q);
      if action.CancelSocialRecovery? {
        ConfigAtStored(host, w, q.vault);
        PendingBytes(Get(w, ConfigAddress(host, q.vault).value.0).data);
      }
    } else if TouchesConfig(action) {
      UnwrittenConfig(host, w, q, action);
      EmptyStays(host, w, q, action, ConfigAddress(host, q.vault).value.0);
    } else {
      KeptConfig(host, w, q);
    }
  }

  lemma SetsTouch(host: Host, w: World, k: Key, action: Action, config: ConfigWrite)
    requires ConfigWritten(host, w, k, action, Some(config))
    ensures TouchesConfig(action)
  {
    hide ConfigAt, ConfigAddress, Get;
  }

  lemma TagOfTouch(d: seq<byte>, action: Action)
    requires |d| >= 50 && CarriesAction(d, action)
    ensures d[9] == 7 <==> action.SetRecoveryConfig?
    ensures d[9] == 8 <==> action.CancelSocialRecovery?
    ensures d[9] == 3 || (d[9] == 6 && d[10] == 2) <==> ReplacesOwner(action)
    ensures TouchesConfig(action) ==> !action.TransferSpl?
  {
    BodyWord(d);
  }

  /** The recovery configuration before and after a signed instruction. */
  lemma SignedConfigBytes(host: Host, w: World, ix: Instruction)
    requires HostOk(host) && Inv(host, w) && Admissible(host, ix)
    requires ix.data != [] && ix.data[0] in {1, 2, 3, 4, 5, 6, 9} && Decide(host, w, ix).Ok?
    ensures |ix.data| >= 716 && ix.metas != []
    ensures ConfigMoves(host, ix.data, ConfigAddress(host, ix.metas[0].key), w, After(host, w, ix))
  {
    hide HostOk, Inv, Decide, SignedOutcome, CarriesAction, WireOf, VaultAt, Get, Ed25519.RuntimeVerified, ConfigMoves,
         VaultBytes, VaultAfter, NewPrepared, RightDiscriminator, SigningBytes, SignaturesAllow, PossessionShown,
         PatchFits, ConfigWritten, TokensFit, Apply, Purge;
    var q := Decide(host, w, ix).value;
    SignedInstruction(host, w, ix, q);
    var p, action := SignedMeans(host, w, ix);
    SignedPatch(host, w, ix, q);
    CarriedKey(host, w, ix, q);
    DecidedFits(host, w, ix, q);
    MovedConfig(host, w, ix.data, action, q);
  }

  /** Tag 7 charges the rent of a fresh configuration to its signing payer, a System
      account, and nothing for one that is there. */
  predicate ConfigCharged(host: Host, ix: Instruction, r: Key, w: World, w': World)
    requires |ix.metas| == 5
  {
    var payer, created := ix.metas[2].key, Get(w, r).data == [];
    var charge := if created then host.configRent else 0;
    && ix.metas[2].signer && payer != r
    && Get(w', r).lamports == Get(w, r).lamports + charge
    && Get(w', payer).lamports == Get(w, payer).lamports - charge
    && (created ==> Get(w, payer).owner == SYSTEM && Get(w, payer).data == [] && Get(w, r).owner == SYSTEM)
  }

  lemma ConfiguredPayment(host: Host, w: World, ix: Instruction, q: Patch)
    requires SignedOutcome(host, w, ix, q) && ix.data[0] == 6
    ensures |ix.metas| == 5 && ix.metas[2].signer && q.payment.from == ix.metas[2].key
    ensures ConfigAddress(host, q.vault).Some? && q.payment.to == ConfigAddress(host, q.vault).value.0
    ensures if Get(w, q.payment.to).data == [] then
              && q.payment.amount == host.configRent && Get(w, q.payment.from).owner == SYSTEM
              && Get(w, q.payment.from).data == [] && Get(w, q.payment.to).owner == SYSTEM
            else q.payment.amount == 0
  {
    hide WireOf, VaultAt, VaultAfter, NewPrepared, MayAuthorize, Get, ConfigAddress, ConfigOf, TokensFit, Permits,
         SysvarOf, SYSTEM;
  }

  lemma ConfigChargeBytes(host: Host, w: World, ix: Instruction)
    requires HostOk(host) && Inv(host, w) && Admissible(host, ix)
    requires ix.data != [] && ix.data[0] == 6 && Decide(host, w, ix).Ok?
    ensures |ix.metas| == 5 && ConfigAddress(host, ix.metas[0].key).Some?
    ensures ConfigCharged(host, ix, ConfigAddress(host, ix.metas[0].key).value.0, w, After(host, w, ix))
  {
    hide HostOk, Inv, Admissible, Decide, Get, Apply, Purge, PatchFits, SYSTEM, ConfigAddress, NamesVault,
         SignedOutcome, DerivedFrom, VaultAddress;
    var q := Decide(host, w, ix).value;
    SignedInstruction(host, w, ix, q);
    DecidedFits(host, w, ix, q);
    FitsPayable(host, w, q);
    DecidedNames(host, w, ix, q);
    NamedFirst(ix, q.vault);
    ConfiguredPayment(host, w, ix, q);
    SignerIsNotDerived(host, ix, 2, 0);
    Charged(host, w, q);
  }

  lemma Charged(host: Host, w: World, q: Patch)
    requires Payable(w, q.payment) && q.payment.from != q.payment.to
    ensures var w' := Purge(Apply(host, w, q));
            && Get(w', q.payment.from).lamports == Get(w, q.payment.from).lamports - q.payment.amount
            && Get(w', q.payment.to).lamports == Get(w, q.payment.to).lamports + q.payment.amount
  {
    hide Get, Apply, Purge;
    ApplyAt(host, w, q, q.payment.from);
    GetPurged(Apply(host, w, q), q.payment.from);
    ApplyAt(host, w, q, q.payment.to);
    GetPurged(Apply(host, w, q), q.payment.to);
  }

  // ------------------------------------------------------------- Initialize

  /** The bytes of a vault that Initialize leaves, from its payload, its derived bump and
      the prepared form of its Falcon key. */
  ghost predicate InitialBytes(host: Host, d: seq<byte>, bump: byte, a: seq<byte>)
    requires |d| == 935
  {
    && |a| == 1120
    && a[0] == 1 && a[1] == bump && a[2] == d[37] <= 5 && a[3] == 0
    && a[4..8] == d[1..5] && a[8..40] == d[5..37] && a[40..72] == host.sha(d[38..935])
    && a[72..96] == Zeros(24)
    && host.prepare(d[38..935]) == Some(a[96..1120])
  }

  lemma FreshBytes(bump: byte, index: u32, owner: Key, hash: Key, policy: Policy, prepared: Prepared)
    ensures var a := VaultBytes(NewVault(bump, index, owner, hash, policy, prepared));
            && a[0] == 1 && a[1] == bump && Policy.FromByte(a[2]) == Some(policy) && a[3] == 0
            && a[4..8] == Le32(index) && a[8..40] == owner && a[40..72] == hash && a[72..96] == Zeros(24)
            && a[96..1120] == prepared
  {
    hide VaultBytes, Le64, Le32;
    var v := NewVault(bump, index, owner, hash, policy, prepared);
    var a := VaultBytes(v);
    VaultRegions(v);
    ZeroWord();
    assert a[72..96] == a[72..80] + a[80..88] + a[88..96];
    CodeReadsBack(policy);
  }

  lemma CodeReadsBack(policy: Policy)
    ensures Policy.FromByte(policy.AsByte()) == Some(policy)
  {
  }

  lemma OneCode(x: byte, y: byte)
    requires Policy.FromByte(x).Some? && Policy.FromByte(x) == Policy.FromByte(y)
    ensures x == y <= 5
  {
  }

  lemma ParsedBytes(d: seq<byte>)
    requires d != [] && ParseInitialize(d[1..]).Ok?
    ensures |d| == 935
    ensures var args := ParseInitialize(d[1..]).value;
            && Le32(args.index) == d[1..5] && args.owner == d[5..37] && Policy.FromByte(d[37]) == Some(args.policy)
            && args.wireKey == d[38..935]
  {
    hide Policy.FromByte, Le32, U32Of;
    if |d| == 935 {
      assert d[1..][0..4] == d[1..5] && d[1..][4..36] == d[5..37] && d[1..][37..934] == d[38..935];
    }
  }

  /** What a successful Initialize does: at the address derived from its creator and the
      index in its payload, an empty System account becomes a vault with these bytes and
      at least its rent, the creator paying what is missing. */
  lemma InitializeBytes(host: Host, w: World, ix: Instruction)
    requires HostOk(host) && Inv(host, w) && Admissible(host, ix)
    requires ix.data != [] && ix.data[0] == 0 && Decide(host, w, ix).Ok?
    ensures |ix.data| == 935 && |ix.metas| == 3 && ix.metas[0].signer
    ensures var creator, k, d := ix.metas[0].key, ix.metas[1].key, ix.data;
            var found := host.find([[0x64, 0x75, 0x61, 0x6C, 0x6B, 0x65, 0x79], creator, d[1..5]]);
            var before, after := Get(w, k), Get(After(host, w, ix), k);
            && found.Some? && found.value.0 == k
            && before.owner == SYSTEM && before.data == []
            && after.owner == host.programId && InitialBytes(host, d, found.value.1, after.data)
            && after.lamports == (if before.lamports >= host.vaultRent then before.lamports else host.vaultRent)
            && Get(After(host, w, ix), creator).lamports
               == Get(w, creator).lamports - (after.lamports - before.lamports)
            && (after.lamports > before.lamports ==> Get(w, creator).owner == SYSTEM && Get(w, creator).data == [])
  {
    hide HostOk, Inv, Admissible, Decide, Get, Apply, Purge, PatchFits, VaultBytes, ParseInitialize, NewVault, Le32,
         VaultAddress, SYSTEM, LamportsAfter;
    var q := Decide(host, w, ix).value;
    CreatedInstruction(host, w, ix, q);
    DecidedFits(host, w, ix, q);
    WrittenVault(host, w, q);
    FitsPayable(host, w, q);
    var args := ParseInitialize(ix.data[1..]).value;
    ParsedBytes(ix.data);
    CreatedAt(host, ix.metas[0].key, args.index);
    CreatedBytes(host, args, ix.data, VaultAddress(host, ix.metas[0].key, args.index).value.1);
    CreatedLamports(host, w, ix, q);
  }

  lemma CreatedAt(host: Host, creator: Key, index: u32)
    ensures VaultAddress(host, creator, index)
            == host.find([[0x64, 0x75, 0x61, 0x6C, 0x6B, 0x65, 0x79], creator, Le32(index)])
  {
    SeedBytes(creator, index, creator);
  }

  lemma CreatedBytes(host: Host, args: InitializeArgs, d: seq<byte>, bump: byte)
    requires |d| == 935 && Le32(args.index) == d[1..5] && args.owner == d[5..37]
    requires Policy.FromByte(d[37]) == Some(args.policy) && args.wireKey == d[38..935]
    requires host.prepare(args.wireKey).Some?
    ensures InitialBytes(host, d, bump, VaultBytes(NewVault(bump, args.index, args.owner, host.sha(args.wireKey),
                                                            args.policy, host.prepare(args.wireKey).value)))
  {
    hide VaultBytes, NewVault, Le32, Policy.FromByte;
    FreshBytes(bump, args.index, args.owner, host.sha(args.wireKey), args.policy, host.prepare(args.wireKey).value);
    OneCode(VaultBytes(NewVault(bump, args.index, args.owner, host.sha(args.wireKey), args.policy,
                                host.prepare(args.wireKey).value))[2], d[37]);
  }

  lemma CreatedLamports(host: Host, w: World, ix: Instruction, q: Patch)
    requires HostOk(host) && Admissible(host, ix) && CreatedOutcome(host, w, ix, q) && Payable(w, q.payment)
    ensures var after := Purge(Apply(host, w, q));
            var need := if Get(w, q.vault).lamports >= host.vaultRent then 0
                        else host.vaultRent - Get(w, q.vault).lamports;
            && Get(after, q.vault).lamports == Get(w, q.vault).lamports + need
            && Get(after, ix.metas[0].key).lamports == Get(w, ix.metas[0].key).lamports - need
            && (need > 0 ==> Get(w, ix.metas[0].key).owner == SYSTEM && Get(w, ix.metas[0].key).data == [])
  {
    hide HostOk, Admissible, Get, Apply, Purge, VaultBytes, ParseInitialize, NewVault, VaultAddress, SYSTEM;
    var creator := ix.metas[0].key;
    SignerIsNotDerived(host, ix, 0, 0);
    ApplyAt(host, w, q, q.vault);
    GetPurged(Apply(host, w, q), q.vault);
    ApplyAt(host, w, q, creator);
    GetPurged(Apply(host, w, q), creator);
  }

  /** What Initialize asks, condition by condition. */
  ghost predicate InitializeNeeds(host: Host, w: World, ix: Instruction) {
    && |ix.data| == 935 && ix.data[37] <= 5
    && |ix.metas| == 3 && ix.metas[0].signer && ix.metas[1].writable && ix.metas[2].key == Zeros(32)
    && var creator, k := ix.metas[0].key, ix.metas[1].key;
       var found := host.find([[0x64, 0x75, 0x61, 0x6C, 0x6B, 0x65, 0x79], creator, ix.data[1..5]]);
       && found.Some? && found.value.0 == k
       && Get(w, k).owner == Zeros(32) && Get(w, k).data == []
       && (Get(w, k).lamports < host.vaultRent ==>
             && ix.metas[0].writable && Get(w, creator).owner == Zeros(32) && Get(w, creator).data == []
             && Get(w, creator).lamports + Get(w, k).lamports >= host.vaultRent
             && host.vaultRent <= 0xFFFF_FFFF_FFFF_FFFF)
       && host.prepare(ix.data[38..935]).Some?
  }

  /** Exactly when Initialize succeeds. */
  lemma InitializeExactly(host: Host, w: World, ix: Instruction)
    requires ix.data != [] && ix.data[0] == 0
    ensures Decide(host, w, ix).Ok? <==> InitializeNeeds(host, w, ix)
  {
    hide DecideExecute, DecideRotateEd25519, DecideRotateFalcon, DecideChangePolicy, DecideRecover,
         DecideSetRecoveryConfig, DecideInitiate, DecideFinalize, DecideCancel, Get, ParseInitialize, VaultAddress,
         NewVault, Le32;
    ParsesExactly(ix.data);
    if ParseInitialize(ix.data[1..]).Ok? && ix.metas != [] {
      ParsedBytes(ix.data);
      CreatedAt(host, ix.metas[0].key, ParseInitialize(ix.data[1..]).value.index);
    }
  }

  lemma ParsesExactly(d: seq<byte>)
    requires d != []
    ensures ParseInitialize(d[1..]).Ok? <==> |d| == 935 && d[37] <= 5
  {
    hide Policy.FromByte, U32Of;
    if |d| == 935 {
      PolicyByteExists(d[37]);
    }
  }

  // ------------------------------------------------------ the guardian's path

  /** The 169 bytes a guardian signs for the new owner in `d` about a vault with bytes `b`:
      tag, chain, program, vault, new owner, stored nonce. */
  predicate GuardianBytes(host: Host, vault: Key, b: seq<byte>, d: seq<byte>, p: seq<byte>)
    requires |b| == 1120 && |d| == 33
  {
    && |p| == 169 && p[0] == 17
    && p[1..18] == [0x44, 0x55, 0x41, 0x4C, 0x4B, 0x45, 0x59, 0x5F, 0x53, 0x4F, 0x4C, 0x41, 0x4E, 0x41, 0x5F, 0x56,
                    0x31]
    && p[18] == 14
    && p[19..33] == [0x53, 0x4F, 0x43, 0x49, 0x41, 0x4C, 0x5F, 0x52, 0x45, 0x43, 0x4F, 0x56, 0x45, 0x52]
    && p[33..65] == host.chainDomain && p[65..97] == host.programId && p[97..129] == vault
    && p[129..161] == d[1..33] && p[161..169] == b[72..80]
  }

  lemma ClaimIsGuardianBytes(host: Host, vault: Key, b: seq<byte>, d: seq<byte>)
    requires |b| == 1120 && |d| == 33
    ensures GuardianBytes(host, vault, b, d, SocialPreimage(Claim(host, vault, d[1..], VaultOf(b).nonce)))
  {
    hide SocialPreimage, U64Of, U32Of, Le64;
    SocialBytes(Claim(host, vault, d[1..], VaultOf(b).nonce));
    assert d[1..] == d[1..33];
  }

  /** A configuration with a proposal: the proposed key and the first slot at which it may
      take effect, nothing else changed. */
  predicate ProposalBytes(slot: u64, d: seq<byte>, c: seq<byte>, e: seq<byte>)
    requires |d| == 33
  {
    && |c| == |e| == 128 && c[0] == 1 && c[44..76] == Zeros(32)
    && e[..44] == c[..44] && e[44..76] == d[1..33] != Zeros(32) && e[84..] == c[84..]
    && U64Of(e[76..84]) == slot + U64Of(c[36..44])
  }

  lemma ProposedRecord(c: seq<byte>, d: seq<byte>, slot: u64)
    requires |c| == 128 && c[0] == 1 && |d| == 33 && d[1..] != ZERO_KEY && !ConfigOf(c).HasPending()
    requires slot + ConfigOf(c).delay <= U64_MAX
    ensures ProposalBytes(slot, d, c, ConfigBytes(ConfigOf(c).(pending := d[1..], ready := slot + ConfigOf(c).delay)))
  {
    hide ConfigBytes, Le64, U64Of;
    var x := ConfigOf(c).(pending := d[1..], ready := slot + ConfigOf(c).delay);
    var e := ConfigBytes(x);
    ConfigRegions(x);
    WordRoundTrip(x.ready, 0);
    HeadBytes(c, e);
    PendingBytes(c);
    assert d[1..] == d[1..33];
    assert e[84..] == e[84..128] && c[84..] == c[84..128];
  }

  /** The vault at `k` has recovery enabled and another owner than the proposed key, and the
      instruction in front carries the signature of the guardian stored at `r` over the
      guardian bytes `p`. */
  predicate GuardianEndorsed(host: Host, w: World, ix: Instruction, k: Key, r: Key, p: seq<byte>)
    requires |ix.data| == 33 && |ix.metas| == 3
  {
    var b, c := Get(w, k).data, Get(w, r).data;
    && Get(w, k).owner == host.programId && |b| == 1120 && b[0] == 1 && b[3] % 2 == 1
    && ix.data[1..33] != b[8..40]
    && ConfigStored(host, w, r)
    && GuardianBytes(host, k, b, ix.data, p)
    && Ed25519.FrontSigned(host, ix.metas[2].key, ix.previous, c[4..36], host.sha(p))
  }

  /** What a successful initiate means: recovery is enabled, nothing was pending, the
      proposal is stored and the vault untouched, and the instruction in front carries the
      configured guardian's signature over bytes that name chain, program, vault, the
      proposed key and the stored nonce. */
  lemma InitiateBytes(host: Host, w: World, ix: Instruction) returns (p: seq<byte>)
    requires HostOk(host) && Inv(host, w) && Admissible(host, ix)
    requires ix.data != [] && ix.data[0] == 7 && Decide(host, w, ix).Ok?
    ensures |ix.data| == 33 && |ix.metas| == 3
    ensures var k := ix.metas[0].key;
            var r := ConfigAddress(host, k);
            && r.Some? && GuardianEndorsed(host, w, ix, k, r.value.0, p)
            && ProposalBytes(w.slot, ix.data, Get(w, r.value.0).data, Get(After(host, w, ix), r.value.0).data)
            && Get(After(host, w, ix), k).data == Get(w, k).data
  {
    hide HostOk, Inv, Decide, Get, Apply, Purge, PatchFits, ConfigBytes, Ed25519.Verify, Ed25519.RuntimeVerified,
         VaultOf, ConfigOf, ConfigAt, VaultAt, ConfigAddress, ClaimDigest, ProposalBytes, GuardianBytes, NamesVault,
         Ed25519.FrontSigned, SYSTEM, Ed25519.Carries;
    var q := Decide(host, w, ix).value;
    ProposedInstruction(host, w, ix, q);
    DecidedNames(host, w, ix, q);
    InUse(host, ix, q.vault);
    ProposedFits(host, w, ix, q);
    var k := q.vault;
    var r := ConfigAddress(host, k).value;
    var b, c := Get(w, k).data, Get(w, r.0).data;
    StoredBytes(host, w, k);
    ConfigAtStored(host, w, k);
    p := SocialPreimage(Claim(host, k, ix.data[1..], VaultOf(b).nonce));
    ClaimIsGuardianBytes(host, k, b, ix.data);
    DigestOfClaim(host, k, ix.data[1..], VaultOf(b).nonce);
    GuardianField(c);
    Ed25519.IntrospectionSound(host, SysvarOf(ix), ix.previous, c[4..36], host.sha(p));
    Ed25519.CarriesPlainly(host, SysvarOf(ix), ix.previous, c[4..36], host.sha(p));
    ProposedRecord(c, ix.data, w.slot);
    WrittenConfig(host, w, q);
    QuietVault(host, w, q);
    FieldsOf(b);
  }

  lemma DigestOfClaim(host: Host, vault: Key, newOwner: Key, nonce: u64)
    ensures ClaimDigest(host, vault, newOwner, nonce) == host.sha(SocialPreimage(Claim(host, vault, newOwner, nonce)))
  {
    hide SocialPreimage, Claim;
  }

  lemma GuardianField(c: seq<byte>)
    requires |c| == 128
    ensures ConfigOf(c).guardian == c[4..36] && ConfigOf(c).delay == U64Of(c[36..44])
    ensures ConfigOf(c).pending == c[44..76] && ConfigOf(c).ready == U64Of(c[76..84])
  {
    hide U64Of;
  }

  lemma FieldsOf(b: seq<byte>)
    requires |b| == 1120
    ensures VaultOf(b).owner == b[8..40] && VaultOf(b).RecoveryEnabled() == (b[3] % 2 == 1)
    ensures VaultOf(b).nonce == U64Of(b[72..80])
  {
    hide U64Of, U32Of;
  }

  /** A patch that writes no record leaves the vault's bytes. */
  lemma QuietVault(host: Host, w: World, q: Patch)
    requires HostOk(host) && Inv(host, w) && PatchFits(host, w, q) && q.record.None?
    requires VaultAt(host, w, q.vault).Some?
    ensures Get(Purge(Apply(host, w, q)), q.vault).data == Get(w, q.vault).data
  {
    hide HostOk, Inv, Get, Apply, Purge, PatchFits, VaultBytes, VaultAt;
    FitsPayable(host, w, q);
    VaultAfterPatch(host, w, q, q.vault);
    VaultBytesAt(host, w, q.vault);
    VaultBytesAt(host, Purge(Apply(host, w, q)), q.vault);
  }

  /** The guardian bytes leave nothing open. */
  lemma GuardianBytesUnique(host: Host, vault: Key, b: seq<byte>, d: seq<byte>, p: seq<byte>, q: seq<byte>)
    requires |b| == 1120 && |d| == 33
    requires GuardianBytes(host, vault, b, d, p) && GuardianBytes(host, vault, b, d, q)
    ensures p == q
  {
    GuardianParts(p);
    GuardianParts(q);
  }

  lemma GuardianParts(p: seq<byte>)
    requires |p| == 169
    ensures p == [p[0]] + p[1..18] + [p[18]] + p[19..33] + p[33..65] + p[65..97] + p[97..129] + p[129..161]
                 + p[161..169]
  {
  }

  /** What initiating asks, condition by condition. */
  ghost predicate InitiateNeeds(host: Host, w: World, ix: Instruction) {
    && |ix.data| == 33 && ix.data[1..33] != Zeros(32)
    && |ix.metas| == 3 && ix.metas[1].writable
    && var k := ix.metas[0].key;
       var found := host.find([[0x64, 0x75, 0x61, 0x6C, 0x6B, 0x65, 0x79, 0x2D, 0x72, 0x65, 0x63], k]);
       && found.Some? && found.value.0 == ix.metas[1].key
       && var b, c := Get(w, k).data, Get(w, ix.metas[1].key).data;
          && Get(w, k).owner == host.programId && Get(w, ix.metas[1].key).owner == host.programId
          && |b| == 1120 && b[3] % 2 == 1 && b[8..40] != ix.data[1..33]
          && |c| == 128 && c[0] == 1 && c[44..76] == Zeros(32)
          && w.slot + U64Of(c[36..44]) <= 0xFFFF_FFFF_FFFF_FFFF
          && exists p {:trigger GuardianBytes(host, k, b, ix.data, p)} ::
               && GuardianBytes(host, k, b, ix.data, p)
               && Ed25519.FrontSigned(host, ix.metas[2].key, ix.previous, c[4..36], host.sha(p))
  }

  /** The guardian's verdict: the parser accepts if and only if a signature over the guardian
      bytes stands in front. */
  lemma GuardianVerdict(
      host: Host, sysvar: Key, previous: Preceding, guardian: Key, k: Key, b: seq<byte>, d: seq<byte>)
    requires Ed25519.RuntimeVerified(host, previous) && |b| == 1120 && |d| == 33
    ensures Ed25519.Verify(host, sysvar, previous, guardian, ClaimDigest(host, k, d[1..], VaultOf(b).nonce)).Ok? <==>
            exists p {:trigger GuardianBytes(host, k, b, d, p)} ::
              GuardianBytes(host, k, b, d, p) && Ed25519.FrontSigned(host, sysvar, previous, guardian, host.sha(p))
  {
    hide GuardianBytes, Ed25519.FrontSigned, Ed25519.Verify, Ed25519.RuntimeVerified, Ed25519.Carries, ClaimDigest,
         SocialPreimage, VaultOf;
    var q := SocialPreimage(Claim(host, k, d[1..], VaultOf(b).nonce));
    ClaimIsGuardianBytes(host, k, b, d);
    DigestOfClaim(host, k, d[1..], VaultOf(b).nonce);
    Ed25519.IntrospectionSound(host, sysvar, previous, guardian, host.sha(q));
    Ed25519.CarriesPlainly(host, sysvar, previous, guardian, host.sha(q));
    forall p | GuardianBytes(host, k, b, d, p) ensures p == q {
      GuardianBytesUnique(host, k, b, d, p, q);
    }
  }

  lemma ConfigFound(host: Host, k: Key)
    ensures ConfigAddress(host, k) == host.find([[0x64, 0x75, 0x61, 0x6C, 0x6B, 0x65, 0x79, 0x2D, 0x72, 0x65, 0x63], k])
  {
    SeedBytes(k, 0, k);
  }

  /** Exactly when initiating succeeds. */
  lemma InitiateExactly(host: Host, w: World, ix: Instruction)
    requires ix.data != [] && ix.data[0] == 7 && Ed25519.RuntimeVerified(host, ix.previous)
    ensures Decide(host, w, ix).Ok? <==> InitiateNeeds(host, w, ix)
  {
    hide DecideInitialize, DecideExecute, DecideRotateEd25519, DecideRotateFalcon, DecideChangePolicy, DecideRecover,
         DecideSetRecoveryConfig, DecideFinalize, DecideCancel, Get, VaultOf, ConfigOf, ConfigAddress, ClaimDigest,
         GuardianBytes, Ed25519.FrontSigned, Ed25519.Verify, Ed25519.RuntimeVerified, U64Of;
    if |ix.data| == 33 && |ix.metas| == 3 && |Get(w, ix.metas[0].key).data| == 1120
       && |Get(w, ix.metas[1].key).data| == 128 {
      var b, c := Get(w, ix.metas[0].key).data, Get(w, ix.metas[1].key).data;
      assert ix.data[1..] == ix.data[1..33];
      ConfigFound(host, ix.metas[0].key);
      FieldsOf(b);
      GuardianField(c);
      PendingBytes(c);
      GuardianVerdict(host, ix.metas[2].key, ix.previous, c[4..36], ix.metas[0].key, b, ix.data);
    }
  }

  /** The bytes of a vault whose owner becomes `newOwner` in a finalization. */
  predicate FinalizedBytes(newOwner: Key, b: seq<byte>, a: seq<byte>) {
    && |b| == |a| == 1120 && b[0] == 1 && b[3] % 2 == 1
    && a[..8] == b[..8] && a[8..40] == newOwner && a[40..72] == b[40..72]
    && U64Of(a[72..80]) == U64Of(b[72..80]) + 1 && a[80..] == b[80..]
  }

  lemma FinalizedRecord(b: seq<byte>, newOwner: Key)
    requires |b| == 1120 && b[0] == 1 && VaultOf(b).RecoveryEnabled() && VaultOf(b).nonce < U64_MAX
    ensures FinalizedBytes(newOwner, b, VaultBytes(VaultOf(b).(owner := newOwner, nonce := VaultOf(b).nonce + 1)))
  {
    hide VaultBytes, Le64, Le32, U64Of, U32Of;
    var v := VaultOf(b).(owner := newOwner, nonce := VaultOf(b).nonce + 1);
    var a := VaultBytes(v);
    VaultRegions(v);
    WordRoundTrip(v.nonce, 0);
    VaultEnds(a, b);
  }

  lemma VaultEnds(a: seq<byte>, b: seq<byte>)
    requires |a| == |b| == 1120
    requires a[0] == b[0] && a[1] == b[1] && a[2] == b[2] && a[3] == b[3] && a[4..8] == b[4..8]
    requires a[80..88] == b[80..88] && a[88..96] == b[88..96] && a[96..1120] == b[96..1120]
    ensures a[..8] == b[..8] && a[80..] == b[80..]
  {
    assert a[..8] == [a[0], a[1], a[2], a[3]] + a[4..8] && b[..8] == [b[0], b[1], b[2], b[3]] + b[4..8];
    assert a[80..] == a[80..88] + a[88..96] + a[96..1120] && b[80..] == b[80..88] + b[88..96] + b[96..1120];
  }

  /** What a successful finalize means: recovery is enabled, the slot has reached the
      stored ready slot, the stored proposal becomes the owner and is cleared. */
  lemma FinalizeBytes(host: Host, w: World, ix: Instruction)
    requires HostOk(host) && Inv(host, w) && Admissible(host, ix)
    requires ix.data != [] && ix.data[0] == 8 && Decide(host, w, ix).Ok?
    ensures ix.data == [8] && |ix.metas| == 2
    ensures var k := ix.metas[0].key;
            var r := ConfigAddress(host, k);
            && r.Some? && ConfigStored(host, w, r.value.0)
            && var c := Get(w, r.value.0).data;
               && c[44..76] != Zeros(32) && w.slot >= U64Of(c[76..84])
               && FinalizedBytes(c[44..76], Get(w, k).data, Get(After(host, w, ix), k).data)
               && ClearedBytes(c, Get(After(host, w, ix), r.value.0).data)
  {
    hide HostOk, Inv, Decide, Get, Apply, Purge, PatchFits, ConfigBytes, VaultBytes, FinalizedBytes, ClearedBytes,
         VaultOf, ConfigOf, ConfigAt, VaultAt, ConfigAddress, NamesVault, SYSTEM, Ed25519.RuntimeVerified;
    var q := Decide(host, w, ix).value;
    FinalizedInstruction(host, w, ix, q);
    FinalizeShape(host, w, ix);
    DecidedNames(host, w, ix, q);
    InUse(host, ix, q.vault);
    FinalizedFits(host, w, ix, q);
    var b, c := Get(w, q.vault).data, Get(w, ConfigAddress(host, q.vault).value.0).data;
    StoredBytes(host, w, q.vault);
    ConfigAtStored(host, w, q.vault);
    GuardianField(c);
    PendingBytes(c);
    FinalizedRecord(b, c[44..76]);
    ClearedRecord(c);
    WrittenConfig(host, w, q);
    WrittenVault(host, w, q);
  }

  lemma FinalizeShape(host: Host, w: World, ix: Instruction)
    requires ix.data != [] && ix.data[0] == 8 && Decide(host, w, ix).Ok?
    ensures ix.data == [8] && |ix.metas| == 2
  {
    hide LoadVault, LoadConfig, VerifyAddress, Get, DecideInitialize, DecideExecute, DecideRotateEd25519,
         DecideRotateFalcon, DecideChangePolicy, DecideRecover, DecideSetRecoveryConfig, DecideInitiate, DecideCancel;
  }

  /** What finalizing asks, condition by condition. */
  predicate FinalizeNeeds(host: Host, w: World, ix: Instruction) {
    && ix.data == [8] && |ix.metas| == 2 && ix.metas[0].writable && ix.metas[1].writable
    && var k := ix.metas[0].key;
       var found := host.find([[0x64, 0x75, 0x61, 0x6C, 0x6B, 0x65, 0x79, 0x2D, 0x72, 0x65, 0x63], k]);
       && found.Some? && found.value.0 == ix.metas[1].key
       && var b, c := Get(w, k).data, Get(w, ix.metas[1].key).data;
          && Get(w, k).owner == host.programId && Get(w, ix.metas[1].key).owner == host.programId
          && |b| == 1120 && b[3] % 2 == 1 && U64Of(b[72..80]) < 0xFFFF_FFFF_FFFF_FFFF
          && |c| == 128 && c[0] == 1 && c[44..76] != Zeros(32) && w.slot >= U64Of(c[76..84])
  }

  /** Exactly when finalizing succeeds. */
  lemma FinalizeExactly(host: Host, w: World, ix: Instruction)
    requires ix.data != [] && ix.data[0] == 8
    ensures Decide(host, w, ix).Ok? <==> FinalizeNeeds(host, w, ix)
  {
    hide DecideInitialize, DecideExecute, DecideRotateEd25519, DecideRotateFalcon, DecideChangePolicy, DecideRecover,
         DecideSetRecoveryConfig, DecideInitiate, DecideCancel, Get, VaultOf, ConfigOf, ConfigAddress, U64Of;
    if ix.data == [8] && |ix.metas| == 2 {
      ConfigFound(host, ix.metas[0].key);
      if |Get(w, ix.metas[0].key).data| == 1120 && |Get(w, ix.metas[1].key).data| == 128 {
        var c := Get(w, ix.metas[1].key).data;
        FieldsOf(Get(w, ix.metas[0].key).data);
        GuardianField(c);
        PendingBytes(c);
      }
    }
  }

  /** One guardian signature, one proposal: two successful initiates behind the same
      instruction, from whatever worlds, are about one vault, one nonce and one proposed
      key, or exhibit two preimages with one SHA-256 hash. */
  lemma ProposalFixed(host: Host, w: World, u: World, ix: Instruction, jx: Instruction)
    returns (p: seq<byte>, q: seq<byte>)
    requires HostOk(host) && Inv(host, w) && Inv(host, u) && Admissible(host, ix) && Admissible(host, jx)
    requires ix.data != [] && ix.data[0] == 7 && Decide(host, w, ix).Ok?
    requires jx.data != [] && jx.data[0] == 7 && Decide(host, u, jx).Ok?
    requires ix.previous == jx.previous
    ensures ix.metas != [] && jx.metas != []
    ensures host.sha(p) == host.sha(q)
    ensures p != q || (&& ix.metas[0].key == jx.metas[0].key && ix.data[1..] == jx.data[1..]
                       && |Get(w, ix.metas[0].key).data| == |Get(u, jx.metas[0].key).data| == 1120
                       && Get(w, ix.metas[0].key).data[72..80] == Get(u, jx.metas[0].key).data[72..80])
  {
    hide HostOk, Inv, Admissible, Decide, Get, After, ConfigAddress, ProposalBytes, U64Of;
    p := InitiateBytes(host, w, ix);
    q := InitiateBytes(host, u, jx);
    assert ix.data[1..] == ix.data[1..33] && jx.data[1..] == jx.data[1..33];
  }

  // ----------------------------------------------- the threshold that governs

  /** Transfers from the vault at `k`: up to `bound` Ed25519 decides alone, above it Falcon
      does. */
  predicate SplitAt(
      host: Host, u: World, k: Key, bound: nat, previous: Preceding, sysvar: Key, wire: Wire, signature: seq<byte>)
    requires AmountOf(wire.action).Some? && |Get(u, k).data| == 1120
  {
    var b := Get(u, k).data;
    Authorized(host, u, previous, k, sysvar, wire, signature).Ok? <==>
      && |signature| == 666 && u.slot <= wire.expirySlot && U64Of(b[72..80]) < 0xFFFF_FFFF_FFFF_FFFF
      && var digest := Digest(host, k, U64Of(b[72..80]), wire);
         if AmountOf(wire.action).value <= bound
         then Ed25519.Verify(host, sysvar, previous, b[8..40], digest).Ok?
         else host.falcon(b[96..1120], digest, signature) == Valid
  }

  lemma BoundSplits(
      host: Host, u: World, k: Key, previous: Preceding, sysvar: Key, wire: Wire, signature: seq<byte>)
    requires Get(u, k).owner == host.programId && |Get(u, k).data| == 1120
    requires Get(u, k).data[0] == 1 && Get(u, k).data[2] == 5 && Get(u, k).data[3] / 2 % 2 == 1
    requires AmountOf(wire.action).Some?
    ensures SplitAt(host, u, k, U64Of(Get(u, k).data[80..88]), previous, sysvar, wire, signature)
  {
    hide Get, U64Of, Authorized, Digest, Ed25519.Verify;
    AuthorizedInBytes(host, u, previous, k, sysvar, wire, signature);
  }

  /** What a signed policy change to policy 5 means from then on: while the vault's bytes
      stay, a transfer up to the signed threshold is Ed25519's alone, and a larger one
      Falcon's alone. */
  lemma ThresholdGoverns(
      host: Host, w: World, ix: Instruction, u: World, previous: Preceding, sysvar: Key, wire: Wire,
      signature: seq<byte>)
    requires HostOk(host) && Inv(host, w) && Admissible(host, ix)
    requires |ix.data| > 10 && ix.data[0] == 4 && ix.data[10] == 5 && Decide(host, w, ix).Ok?
    requires AmountOf(wire.action).Some?
    ensures ix.metas != [] && |ix.data| >= 716
    ensures var k := ix.metas[0].key;
            Get(u, k).owner == host.programId && Get(u, k).data == Get(After(host, w, ix), k).data ==>
              && |Get(u, k).data| == 1120
              && SplitAt(host, u, k, U64Of(ix.data[18..26]), previous, sysvar, wire, signature)
  {
    hide HostOk, Inv, Admissible, Decide, Get, After, U64Of, SplitAt, AmountOf;
    ThresholdStored(host, w, ix);
    var k := ix.metas[0].key;
    if Get(u, k).owner == host.programId && Get(u, k).data == Get(After(host, w, ix), k).data {
      BoundSplits(host, u, k, previous, sysvar, wire, signature);
    }
  }

  lemma ThresholdStored(host: Host, w: World, ix: Instruction)
    requires HostOk(host) && Inv(host, w) && Admissible(host, ix)
    requires |ix.data| > 10 && ix.data[0] == 4 && ix.data[10] == 5 && Decide(host, w, ix).Ok?
    ensures ix.metas != [] && |ix.data| >= 716
    ensures var a := Get(After(host, w, ix), ix.metas[0].key).data;
            |a| == 1120 && a[0] == 1 && a[2] == 5 && a[3] / 2 % 2 == 1 && a[80..88] == ix.data[18..26]
  {
    hide HostOk, Inv, Decide, Get, After, U64Of, RecoveryMoves, OwnerMoves, FalconMoves, SigningBytes, SignaturesAllow,
         PossessionShown, CarriesAction, WireOf, Ed25519.RuntimeVerified, NamesVault;
    SignedVaultBytes(host, w, ix);
    var p, action := SignedMeans(host, w, ix);
  }
}
