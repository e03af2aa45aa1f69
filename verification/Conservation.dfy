/** Lamports are neither made nor lost. */
module Conservation {
  import opened Prelude
  import opened Bytes
  import opened Codec
  import opened State
  import opened Recovery
  import opened Host
  import opened Authorize
  import opened Protocol
  import opened Outcome
  import opened Ledger
  import opened Steps

  /** The lamports held at some addresses together. */
  function Total(w: World, ks: seq<Key>): nat {
    if ks == [] then 0 else Get(w, ks[0]).lamports + Total(w, ks[1..])
  }

  predicate AllDistinct(ks: seq<Key>) {
    forall i, j :: 0 <= i < j < |ks| ==> ks[i] != ks[j]
  }

  function Paid(p: Payment, ks: seq<Key>): nat {
    if p.from in ks then p.amount else 0
  }

  function Received(p: Payment, ks: seq<Key>): nat {
    if p.to in ks then p.amount else 0
  }

  lemma TailDistinct(ks: seq<Key>)
    requires ks != [] && AllDistinct(ks)
    ensures AllDistinct(ks[1..]) && ks[0] !in ks[1..]
  {
    assert forall i :: 0 <= i < |ks[1..]| ==> ks[1..][i] == ks[i + 1];
  }

  /** What a payment does to the total over any set of distinct addresses. */
  lemma {:induction false} PaymentTotal(w: World, u: World, p: Payment, ks: seq<Key>)
    requires Payable(w, p) && AllDistinct(ks)
    requires forall k :: k in ks ==> Get(u, k).lamports == LamportsAfter(w, p, k)
    ensures Total(u, ks) + Paid(p, ks) == Total(w, ks) + Received(p, ks)
    decreases |ks|
  {
    hide Get, AllDistinct;
    if ks != [] {
      TailDistinct(ks);
      PaymentTotal(w, u, p, ks[1..]);
      assert forall k :: k in ks <==> k == ks[0] || k in ks[1..];
      assert Get(u, ks[0]).lamports == LamportsAfter(w, p, ks[0]);
    }
  }

  /** Both ends of an instruction's payment are accounts it was given. */
  predicate Touches(ix: Instruction, k: Key) {
    exists i :: 0 <= i < |ix.metas| && ix.metas[i].key == k
  }

  predicate PaysAmong(ix: Instruction, p: Patch) {
    p.payment.amount > 0 ==> Touches(ix, p.payment.from) && Touches(ix, p.payment.to)
  }

  lemma Touched(ix: Instruction, i: nat)
    requires i < |ix.metas|
    ensures Touches(ix, ix.metas[i].key)
  {
  }

  lemma InitializePaysAmong(host: Host, w: World, ix: Instruction, payload: seq<byte>, p: Patch)
    requires DecideInitialize(host, w, ix, payload) == Ok(p)
    ensures PaysAmong(ix, p)
  {
    hide Touches, ParseInitialize, CanTransfer, CanClaim, Get, NewVault, VaultAddress;
    Touched(ix, 0);
    Touched(ix, 1);
  }

  lemma TransferSolPaysAmong(host: Host, w: World, ix: Instruction, wire: Wire, signature: seq<byte>, p: Patch)
    requires wire.action.TransferSol? && DecideTransferSol(host, w, ix, wire, signature) == Ok(p)
    ensures PaysAmong(ix, p)
  {
    hide Touches, Authorized, Get;
    Touched(ix, 0);
    Touched(ix, 1);
  }

  lemma TransferSplPaysAmong(host: Host, w: World, ix: Instruction, wire: Wire, signature: seq<byte>, p: Patch)
    requires wire.action.TransferSpl? && DecideTransferSpl(host, w, ix, wire, signature) == Ok(p)
    ensures PaysAmong(ix, p)
  {
    hide Touches, Authorized, Get, CallToken, TokenAccountsFit, SignerSeeds;
    Touched(ix, 2);
    Touched(ix, 4);
  }

  lemma SetRecoveryConfigPaysAmong(host: Host, w: World, ix: Instruction, payload: seq<byte>, p: Patch)
    requires DecideSetRecoveryConfig(host, w, ix, payload) == Ok(p)
    ensures PaysAmong(ix, p)
  {
    hide Touches, Authorized, Get, Configure, SplitWire, ConfigAddress;
    Touched(ix, 1);
    Touched(ix, 2);
  }

  lemma ExecutePaysAmong(host: Host, w: World, ix: Instruction, payload: seq<byte>, p: Patch)
    requires DecideExecute(host, w, ix, payload) == Ok(p)
    ensures PaysAmong(ix, p)
  {
    hide PaysAmong, DecideTransferSol, DecideTransferSpl, DecodeWire;
    var (wire, signature) := SplitWire(payload).value;
    if wire.action.TransferSol? {
      TransferSolPaysAmong(host, w, ix, wire, signature, p);
    } else {
      TransferSplPaysAmong(host, w, ix, wire, signature, p);
    }
  }

  lemma OthersPayNothing(host: Host, w: World, ix: Instruction, payload: seq<byte>, p: Patch)
    requires || DecideRotateEd25519(host, w, ix, payload) == Ok(p) || DecideRotateFalcon(host, w, ix, payload) == Ok(p)
             || DecideChangePolicy(host, w, ix, payload) == Ok(p) || DecideInitiate(host, w, ix, payload) == Ok(p)
             || DecideFinalize(host, w, ix, payload) == Ok(p) || DecideCancel(host, w, ix, payload) == Ok(p)
    ensures p.payment == NO_PAYMENT
  {
    hide Authorized, Get, SplitWire, ConfigAddress, ClearPending, LoadVault, LoadConfig, VerifyAddress, DecodeWire,
         VerifyRaw, GuardianFromSlice, ClaimDigest, ResultingThreshold;
  }

  lemma RecoverPaysNothing(host: Host, w: World, ix: Instruction, payload: seq<byte>, p: Patch)
    requires DecideRecover(host, w, ix, payload) == Ok(p)
    ensures p.payment == NO_PAYMENT
  {
    hide Authorized, Get, SplitWire, ConfigAddress, ClearPending, LoadVault, LoadConfig, VerifyAddress, DecodeWire;
  }

  lemma DecidedPaysAmong(host: Host, w: World, ix: Instruction, p: Patch)
    requires Decide(host, w, ix) == Ok(p)
    ensures PaysAmong(ix, p)
  {
    hide Touches, DecideInitialize, DecideExecute, DecideRotateEd25519, DecideRotateFalcon, DecideChangePolicy,
         DecideRecover, DecideSetRecoveryConfig, DecideInitiate, DecideFinalize, DecideCancel;
    var payload := ix.data[1..];
    match ix.data[0]
    case 0 => InitializePaysAmong(host, w, ix, payload, p);
    case 1 => ExecutePaysAmong(host, w, ix, payload, p);
    case 5 => RecoverPaysNothing(host, w, ix, payload, p);
    case 6 => SetRecoveryConfigPaysAmong(host, w, ix, payload, p);
    case _ => OthersPayNothing(host, w, ix, payload, p);
  }

  lemma LamportsAfterInstruction(host: Host, w: World, ix: Instruction, p: Patch, k: Key)
    requires Decide(host, w, ix) == Ok(p)
    ensures Get(After(host, w, ix), k).lamports == LamportsAfter(w, p.payment, k)
  {
    hide Decide, Apply, Purge, Get, LamportsAfter;
    ApplyAt(host, w, p, k);
    GetPurged(Apply(host, w, p), k);
  }

  /** Every instruction, successful or not, conserves the lamports of the accounts
      it was given, counted together with any others. */
  lemma Conserved(host: Host, w: World, ix: Instruction, ks: seq<Key>)
    requires AllDistinct(ks) && forall i :: 0 <= i < |ix.metas| ==> ix.metas[i].key in ks
    ensures Total(After(host, w, ix), ks) == Total(w, ks)
  {
    hide Decide, Apply, Purge, Get, LamportsAfter, AllDistinct;
    if Decide(host, w, ix).Ok? {
      var p := Decide(host, w, ix).value;
      DecidedPaysAmong(host, w, ix, p);
      forall k | k in ks ensures Get(After(host, w, ix), k).lamports == LamportsAfter(w, p.payment, k) {
        LamportsAfterInstruction(host, w, ix, p, k);
      }
      PaymentTotal(w, After(host, w, ix), p.payment, ks);
    }
  }

  lemma CreatorIsNotVault(host: Host, w: World, ix: Instruction, p: Patch)
    requires Admissible(host, ix) && CreatedOutcome(host, w, ix, p)
    ensures ix.metas[0].key != p.vault
  {
    hide Admissible, ParseInitialize, VaultAddress, Get, SYSTEM, NewVault;
    SignerIsNotDerived(host, ix, 0, 0);
  }

  /** Initialize charges its creator exactly the shortfall: the vault ends with its
      old balance or the rent minimum, whichever is larger. */
  lemma InitializeCharges(host: Host, w: World, ix: Instruction)
    requires Admissible(host, ix)
    requires ix.data != [] && ix.data[0] == 0 && Decide(host, w, ix).Ok?
    ensures |ix.metas| == 3
    ensures var creator, vault := ix.metas[0].key, ix.metas[1].key;
            var held, rent := Get(w, vault).lamports, host.vaultRent;
            && Get(After(host, w, ix), vault).lamports == (if held < rent then rent else held)
            && Get(w, creator).lamports - Get(After(host, w, ix), creator).lamports
               == (if held < rent then rent - held else 0)
  {
    hide Admissible, Decide, Apply, Purge, Get, ParseInitialize, VaultAddress, After;
    var p := Decide(host, w, ix).value;
    CreatedInstruction(host, w, ix, p);
    CreatorIsNotVault(host, w, ix, p);
    LamportsAfterInstruction(host, w, ix, p, ix.metas[0].key);
    LamportsAfterInstruction(host, w, ix, p, ix.metas[1].key);
  }
}
