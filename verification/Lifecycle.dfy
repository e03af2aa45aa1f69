/** The assumptions are met together: one deployment, and one run of it in which a vault
    is created, opts in to recovery, names a guardian and is recovered. */
module Lifecycle {
  import opened Prelude
  import opened Bytes
  import opened Intent
  import opened Codec
  import opened State
  import opened Recovery
  import opened Host
  import opened Authorize
  import opened Protocol
  import opened Outcome
  import opened Machine
  import opened Ledger
  import opened Steps
  import opened Runs
  import opened Effects
  import opened Client
  import opened Completeness
  import Ed25519

  // ------------------------------------------------------------- deployment

  function Fill(b: byte): Key {
    seq(32, _ => b)
  }

  const CREATOR: Key := Fill(1)
  const VAULT: Key := Fill(2)
  const CONFIG: Key := Fill(3)
  const OWNER: Key := Fill(4)
  const GUARDIAN: Key := Fill(5)
  const SUCCESSOR: Key := Fill(6)

  /** One vault, derived from any creator, and its configuration. */
  const HOST: Host := Host(
    Fill(10), Fill(11), Fill(12), Fill(13), Fill(14), Fill(15), 10, 5,
    _ => ZERO_KEY,
    (seeds: seq<seq<byte>>) => if |seeds| == 4 then Some(VAULT) else Some(CONFIG),
    (seeds: seq<seq<byte>>) => if |seeds| == 3 then Some((VAULT, 255)) else Some((CONFIG, 255)),
    (_, _, _) => true,
    (_, _, _) => Valid,
    (_, _, _) => Valid,
    _ => Some(Zeros(PREPARED_LEN)),
    _ => None,
    {VAULT})

  lemma Apart(a: byte, b: byte)
    requires a != b
    ensures Fill(a) != Fill(b)
  {
    assert Fill(a)[0] == a && Fill(b)[0] == b;
  }

  lemma AllApart()
    ensures CREATOR != VAULT && CREATOR != CONFIG && VAULT != CONFIG && OWNER != SUCCESSOR
    ensures GUARDIAN != ZERO_KEY && SUCCESSOR != ZERO_KEY && CREATOR != SYSTEM && CONFIG != SYSTEM && VAULT != SYSTEM
    ensures HOST.programId != SYSTEM && HOST.tokenProgram != SYSTEM && HOST.token2022Program != SYSTEM
    ensures HOST.programId != HOST.tokenProgram && HOST.programId != HOST.token2022Program
  {
    Apart(1, 2);
    Apart(1, 3);
    Apart(2, 3);
    Apart(4, 6);
    Apart(10, 14);
    Apart(10, 15);
    assert Fill(0) == ZERO_KEY;
    Apart(5, 0);
    Apart(6, 0);
    Apart(1, 0);
    Apart(2, 0);
    Apart(3, 0);
    Apart(10, 0);
    Apart(14, 0);
    Apart(15, 0);
  }

  lemma HostIsOk()
    ensures HostOk(HOST)
    ensures forall creator: Key, index: u32 :: VaultAddress(HOST, creator, index) == Some((VAULT, 255))
    ensures forall vault: Key :: ConfigAddress(HOST, vault) == Some((CONFIG, 255))
  {
    AllApart();
  }

  /** Instructions about the vault that only its creator signs can be delivered. */
  lemma Delivered(ix: Instruction)
    requires forall i :: 0 <= i < |ix.metas| && ix.metas[i].signer ==> ix.metas[i].key == CREATOR
    requires forall k :: NamesVault(ix, k) ==> k == VAULT
    ensures Admissible(HOST, ix)
  {
    hide NamesVault;
    HostIsOk();
    AllApart();
  }

  // -------------------------------------------------------------- the stages

  /** A world in order, with the vault and configuration as given and the creator still
      holding `funds`. */
  ghost predicate Stage(w: World, s: Pair, funds: nat) {
    && Inv(HOST, w)
    && w.slot == 0
    && PairAt(HOST, w, VAULT) == s
    && Get(w, CREATOR) == Account(SYSTEM, funds, [])
  }

  function W0(): World {
    World(map[CREATOR := Account(SYSTEM, 100, [])], 0)
  }

  lemma Start()
    ensures Genesis(HOST, W0()) && Stage(W0(), Pair(None, None), 100)
    ensures Get(W0(), VAULT) == Get(W0(), CONFIG) == Account(SYSTEM, 0, [])
  {
    HostIsOk();
    AllApart();
    GenesisInv(HOST, W0());
  }

  function Create(): Instruction {
    Instruction(InitializeMetas(CREATOR, VAULT), InitializeData(0, OWNER, Ed25519Only, Zeros(FALCON_WIRE_KEY_LEN)),
                Ed25519.Nothing)
  }

  function Created0(): Vault {
    NewVault(255, 0, OWNER, ZERO_KEY, Ed25519Only, Zeros(PREPARED_LEN))
  }

  function W1(): World {
    After(HOST, W0(), Create())
  }

  lemma CreateDelivered()
    ensures Admissible(HOST, Create())
    ensures Create().data != [] && Create().data[0] == 0
  {
    InitializeTag(0, OWNER, Ed25519Only, Zeros(FALCON_WIRE_KEY_LEN));
    Delivered(Create());
  }

  lemma CreateGoes()
    ensures Decide(HOST, W0(), Create()).Ok?
    ensures Decide(HOST, W0(), Create()).value.record == Some(Created0())
  {
    hide Decide, InitializeData, W0, NewVault;
    HostIsOk();
    Start();
    InitializeAccepted(HOST, W0(), Create(), CREATOR, 0, OWNER, Ed25519Only, Zeros(FALCON_WIRE_KEY_LEN));
  }

  lemma CreateLeaves()
    requires Decide(HOST, W0(), Create()).Ok?
    ensures Get(W1(), CREATOR) == Account(SYSTEM, 90, []) && Get(W1(), CONFIG) == Account(SYSTEM, 0, [])
    ensures W1().slot == 0 && Decide(HOST, W0(), Create()).value.vault == VAULT
  {
    hide Decide, InitializeData, ParseInitialize, Apply, Purge, VaultBytes;
    HostIsOk();
    AllApart();
    Start();
    CreateDelivered();
    var p := Decide(HOST, W0(), Create()).value;
    CreatedInstruction(HOST, W0(), Create(), p);
    ApplyAt(HOST, W0(), p, CREATOR);
    GetPurged(Apply(HOST, W0(), p), CREATOR);
    ApplyAt(HOST, W0(), p, CONFIG);
    GetPurged(Apply(HOST, W0(), p), CONFIG);
    ApplySlot(HOST, W0(), p);
  }

  lemma Stage1()
    ensures EventOf(HOST, W0(), Invoke(Create()), VAULT) == Created(Created0())
    ensures Stage(W1(), Pair(Some(Created0()), None), 90)
    ensures Get(W1(), CONFIG) == Account(SYSTEM, 0, [])
  {
    hide Decide, HostOk, Inv, Admissible, PairAt, Create, Created0, W0, After, EventOf, Get;
    HostIsOk();
    Start();
    CreateDelivered();
    CreateGoes();
    CreateLeaves();
    OwnEvent(HOST, W0(), Create(), Decide(HOST, W0(), Create()).value);
    OwnProjects(HOST, W0(), Create(), Decide(HOST, W0(), Create()).value);
    StepKeepsInv(HOST, W0(), Invoke(Create()), W1());
  }

  // ----------------------------------------------------- the owner's actions

  function IntentOf(v: Vault, action: Action): Intent {
    Intent(INTENT_VERSION, HOST.chainDomain, HOST.programId, VAULT, v.nonce, U64_MAX, action)
  }

  const PAID_BY_CREATOR := NO_EXTRAS.(config := CONFIG, payer := CREATOR)

  function Signs(v: Vault, action: Action): Instruction {
    InstructionFor(HOST, VAULT, IntentOf(v, action), Zeros(FALCON_SIGNATURE_LEN), PAID_BY_CREATOR)
    .(previous := PackedBefore(HOST, v.owner, Zeros(64), ZERO_KEY))
  }

  lemma SignsDelivered(v: Vault, action: Action)
    ensures Admissible(HOST, Signs(v, action))
  {
    hide DataFor;
    NamedBySigned(v, action);
    Delivered(Signs(v, action));
  }

  lemma NamedBySigned(v: Vault, action: Action)
    ensures forall k :: NamesVault(Signs(v, action), k) ==> k == VAULT
  {
    var ix := Signs(v, action);
    assert ix.data[0] == DiscriminatorOf(action);
  }

  /** The owner's action on the vault as it stands, once it is ready. */
  lemma SignsGoes(w: World, v: Vault, c: Option<Config>, action: Action)
    requires Inv(HOST, w) && PairAt(HOST, w, VAULT) == Pair(Some(v), c) && v.nonce < U64_MAX
    requires !action.ChangePolicy? && !action.RotateFalconKey? && !(action.RecoverAccount? && action.op.RotateOwner?)
    requires Ready(HOST, w, VAULT, v, action, PAID_BY_CREATOR, ZERO_KEY)
    ensures var ix := Signs(v, action);
            && Decide(HOST, w, ix).Ok? && Decide(HOST, w, ix).value.vault == VAULT
            && IsSigned(ix) && WireOf(ix).Ok? && WireOf(ix).value.action == action
            && EventOf(HOST, w, Invoke(ix), VAULT) == Signed(action, NewPrepared(HOST, ix))
  {
    hide HostOk, Inv, Ready, Decide, VaultAt, Preimage, DataFor, MetasFor, EventOf, NewPrepared, WireOf, IsSigned,
         SubjectOf;
    var ix, intent := Signs(v, action), IntentOf(v, action);
    HostIsOk();
    PolicyStands(w, v);
    BothSignaturesApprove(HOST, w, v, intent, Zeros(64), Zeros(FALCON_SIGNATURE_LEN));
    AcceptedExactly(HOST, w, ix, VAULT, v, intent, Zeros(FALCON_SIGNATURE_LEN), PAID_BY_CREATOR);
    ReadBack(HOST, ix, VAULT, intent, Zeros(FALCON_SIGNATURE_LEN), PAID_BY_CREATOR);
    SignedInstruction(HOST, w, ix, Decide(HOST, w, ix).value);
    SignedParts(HOST, w, ix, Decide(HOST, w, ix).value);
    OwnEvent(HOST, w, ix, Decide(HOST, w, ix).value);
  }

  lemma PolicyStands(w: World, v: Vault)
    requires Inv(HOST, w) && VaultAt(HOST, w, VAULT) == Some(v)
    ensures Policy.FromByte(v.policy).Some?
  {
    hide VaultAt, ConfigAt;
    PairInv(HOST, w, VAULT);
  }

  /** What the action leaves of the pair. */
  lemma SignsLeaves(w: World, v: Vault, c: Option<Config>, action: Action)
    requires Inv(HOST, w) && PairAt(HOST, w, VAULT) == Pair(Some(v), c) && v.nonce < U64_MAX
    requires !action.ChangePolicy? && !action.RotateFalconKey? && !(action.RecoverAccount? && action.op.RotateOwner?)
    requires Ready(HOST, w, VAULT, v, action, PAID_BY_CREATOR, ZERO_KEY)
    ensures var ix, u := Signs(v, action), After(HOST, w, Signs(v, action));
            && Inv(HOST, u) && u.slot == w.slot
            && PairAt(HOST, u, VAULT)
               == Pair(Some(VaultAfter(v, action, NewPrepared(HOST, ix))), ConfigAfter(c, action, 255))
  {
    hide HostOk, Inv, Ready, Decide, Admissible, PairAt, Signs, EventOf, NewPrepared, WireOf, IsSigned, VaultAfter,
         ConfigAfter, Permits;
    var ix := Signs(v, action);
    HostIsOk();
    SignsDelivered(v, action);
    SignsGoes(w, v, c, action);
    OwnProjects(HOST, w, ix, Decide(HOST, w, ix).value);
    StepKeepsInv(HOST, w, Invoke(ix), After(HOST, w, ix));
    ApplySlot(HOST, w, Decide(HOST, w, ix).value);
  }

  const OPT_IN: Action := RecoverAccount(Enable, ZERO_KEY)
  const NAME_GUARDIAN: Action := SetRecoveryConfig(GUARDIAN, 1)

  function Enabled(): Vault {
    Created0().(nonce := 1).WithRecovery(true)
  }

  function W2(): World {
    After(HOST, W1(), Signs(Created0(), OPT_IN))
  }

  lemma OptInReady()
    ensures Ready(HOST, W1(), VAULT, Created0(), OPT_IN, PAID_BY_CREATOR, ZERO_KEY)
    ensures forall prepared: Prepared :: VaultAfter(Created0(), OPT_IN, prepared) == Enabled()
  {
    hide W1;
  }

  /** An action that pays nothing and touches no configuration leaves other accounts be. */
  lemma OptInLeaves(k: Key)
    requires k == CREATOR || k == CONFIG
    ensures Get(W2(), k) == Get(W1(), k)
  {
    hide HostOk, Inv, Ready, Decide, PairAt, Signs, EventOf, NewPrepared, WireOf, IsSigned, VaultAfter, W1, Apply,
         Purge, VaultBytes, Get, SignedOutcome, VaultAt, ConfigAt;
    AllApart();
    var ix := Signs(Created0(), OPT_IN);
    Stage1();
    OptInReady();
    SignsGoes(W1(), Created0(), None, OPT_IN);
    var p := Decide(HOST, W1(), ix).value;
    SignedInstruction(HOST, W1(), ix, p);
    SignedPatch(HOST, W1(), ix, p);
    ApplyAt(HOST, W1(), p, k);
    GetPurged(Apply(HOST, W1(), p), k);
  }

  lemma OptInSteps()
    ensures Inv(HOST, W2()) && W2().slot == 0 && PairAt(HOST, W2(), VAULT) == Pair(Some(Enabled()), None)
  {
    hide HostOk, Inv, Ready, Signs, NewPrepared, VaultAfter, Enabled, W1, Get, PairAt, After;
    Stage1();
    OptInReady();
    SignsLeaves(W1(), Created0(), None, OPT_IN);
  }

  lemma Stage2()
    ensures Stage(W2(), Pair(Some(Enabled()), None), 90)
    ensures Get(W2(), CONFIG) == Account(SYSTEM, 0, [])
  {
    hide HostOk, Inv, W1, W2, Get, PairAt, Enabled, Created0;
    Stage1();
    OptInSteps();
    OptInLeaves(CREATOR);
    OptInLeaves(CONFIG);
  }

  function Guarded(): Pair {
    Pair(Some(Enabled().(nonce := 2)), Some(NewConfig(255, GUARDIAN, 1)))
  }

  function W3(): World {
    After(HOST, W2(), Signs(Enabled(), NAME_GUARDIAN))
  }

  /** Nothing stands in the way of naming a guardian beside a vault that has no
      configuration, at an address that is still empty. */
  lemma GuardianCanBeNamed(w: World, v: Vault)
    requires ConfigAt(HOST, w, VAULT).None?
    requires Get(w, CONFIG) == Account(SYSTEM, 0, []) && Get(w, CREATOR) == Account(SYSTEM, 90, [])
    ensures Ready(HOST, w, VAULT, v, NAME_GUARDIAN, PAID_BY_CREATOR, ZERO_KEY)
  {
    hide Get, ConfigAt;
    HostIsOk();
    AllApart();
  }

  lemma GuardianReady()
    ensures Ready(HOST, W2(), VAULT, Enabled(), NAME_GUARDIAN, PAID_BY_CREATOR, ZERO_KEY)
    ensures forall prepared: Prepared :: VaultAfter(Enabled(), NAME_GUARDIAN, prepared) == Enabled().(nonce := 2)
    ensures ConfigAfter(None, NAME_GUARDIAN, 255) == Some(NewConfig(255, GUARDIAN, 1))
  {
    hide W2, Inv, Ready, VaultAt, ConfigAt, Get, VaultOf;
    Stage2();
    GuardianCanBeNamed(W2(), Enabled());
    GuardianEffect();
  }

  lemma GuardianEffect()
    ensures forall prepared: Prepared :: VaultAfter(Enabled(), NAME_GUARDIAN, prepared) == Enabled().(nonce := 2)
    ensures ConfigAfter(None, NAME_GUARDIAN, 255) == Some(NewConfig(255, GUARDIAN, 1))
  {
  }

  lemma Stage3()
    ensures Inv(HOST, W3()) && W3().slot == 0 && PairAt(HOST, W3(), VAULT) == Guarded()
  {
    hide HostOk, Inv, Ready, Signs, NewPrepared, VaultAfter, ConfigAfter, Enabled, W2, Get, PairAt, After;
    Stage2();
    GuardianReady();
    EnabledNonce();
    SignsLeaves(W2(), Enabled(), None, NAME_GUARDIAN);
  }

  lemma EnabledNonce()
    ensures Enabled().nonce == 1 && Enabled().RecoveryEnabled() && Enabled().owner == OWNER
  {
  }

  // ------------------------------------------------------ the guardian's part

  function Proposes(): Instruction {
    InitiateInstruction(HOST, VAULT, CONFIG, SUCCESSOR).(previous := PackedBefore(HOST, GUARDIAN, Zeros(64), ZERO_KEY))
  }

  function Proposed0(): Pair {
    Pair(Guarded().vault, Some(NewConfig(255, GUARDIAN, 1).(pending := SUCCESSOR, ready := 1)))
  }

  function W4(): World {
    After(HOST, W3(), Proposes())
  }

  lemma ProposesDelivered()
    ensures Admissible(HOST, Proposes())
    ensures Proposes().data != [] && Proposes().data[0] == 7 && |Proposes().data| == 33
            && Proposes().data[1..] == SUCCESSOR
  {
    assert Proposes().data[1..] == SUCCESSOR;
    Delivered(Proposes());
  }

  lemma GuardianVerified()
    ensures Ed25519.Verify(HOST, HOST.instructionsSysvar, PackedBefore(HOST, GUARDIAN, Zeros(64), ZERO_KEY), GUARDIAN,
                           ZERO_KEY).Ok?
  {
    hide Ed25519.Inspect, Ed25519.SingleDigestData;
    Ed25519.PackedDataAccepted(GUARDIAN, Zeros(64), ZERO_KEY);
  }

  lemma ProposesGoes()
    ensures Admissible(HOST, Proposes()) && Decide(HOST, W3(), Proposes()).Ok?
    ensures Decide(HOST, W3(), Proposes()).value.vault == VAULT
    ensures EventOf(HOST, W3(), Invoke(Proposes()), VAULT) == Proposed(SUCCESSOR)
  {
    hide Decide, EventOf, W3, Inv, HostOk, Admissible, Ed25519.Verify, PackedBefore, VaultAt, ConfigAt, VaultOf, Get,
         Enabled, SocialPreimage;
    HostIsOk();
    AllApart();
    Stage3();
    EnabledNonce();
    ProposesDelivered();
    GuardianVerified();
    InitiateAccepted(HOST, W3(), Proposes(), VAULT, Guarded().vault.value, Guarded().config.value, SUCCESSOR);
    DecidedAbout(W3(), Proposes());
    OwnEvent(HOST, W3(), Proposes(), Decide(HOST, W3(), Proposes()).value);
  }

  /** A decided instruction that names the vault is about the vault. */
  lemma DecidedAbout(w: World, ix: Instruction)
    requires Decide(HOST, w, ix).Ok? && Admissible(HOST, ix)
    ensures Decide(HOST, w, ix).value.vault == VAULT
  {
    hide Decide, NamesVault;
    DecidedNames(HOST, w, ix, Decide(HOST, w, ix).value);
    InUse(HOST, ix, Decide(HOST, w, ix).value.vault);
  }

  lemma Stage4()
    ensures Inv(HOST, W4()) && W4().slot == 0 && PairAt(HOST, W4(), VAULT) == Proposed0()
  {
    hide Decide, EventOf, W3, Inv, HostOk, Admissible, PairAt, Proposes, Enabled;
    HostIsOk();
    Stage3();
    ProposesGoes();
    OwnProjects(HOST, W3(), Proposes(), Decide(HOST, W3(), Proposes()).value);
    StepKeepsInv(HOST, W3(), Invoke(Proposes()), W4());
    ApplySlot(HOST, W3(), Decide(HOST, W3(), Proposes()).value);
  }

  /** The delay passes. */
  function W5(): World {
    W4().(slot := 1)
  }

  lemma Stage5()
    ensures Step(HOST, W4(), Other, W5()) && Inv(HOST, W5()) && PairAt(HOST, W5(), VAULT) == Proposed0()
  {
    hide Inv, HostOk, PairAt, Proposed0, W4;
    HostIsOk();
    Stage4();
    Waits(W4(), 1);
    ElsewhereProjects(HOST, W4(), W5(), VAULT);
    StepKeepsInv(HOST, W4(), Other, W5());
  }

  lemma Waits(w: World, slot: u64)
    requires Inv(HOST, w) && w.slot <= slot
    ensures Elsewhere(HOST, w, w.(slot := slot))
  {
    hide Inv;
    assert forall k: Key :: Get(w.(slot := slot), k) == Get(w, k);
  }

  function Finalizes(): Instruction {
    FinalizeInstruction(VAULT, CONFIG)
  }

  function W6(): World {
    After(HOST, W5(), Finalizes())
  }

  lemma FinalizesGoes()
    ensures Admissible(HOST, Finalizes()) && Decide(HOST, W5(), Finalizes()).Ok?
    ensures Decide(HOST, W5(), Finalizes()).value.vault == VAULT
    ensures EventOf(HOST, W5(), Invoke(Finalizes()), VAULT) == Finalized
  {
    hide Decide, EventOf, W4, Inv, HostOk, VaultAt, ConfigAt, VaultOf, Get, Enabled;
    HostIsOk();
    AllApart();
    Stage5();
    EnabledNonce();
    Delivered(Finalizes());
    FinalizeAccepted(HOST, W5(), Finalizes(), VAULT, Proposed0().vault.value, Proposed0().config.value);
    DecidedAbout(W5(), Finalizes());
    OwnEvent(HOST, W5(), Finalizes(), Decide(HOST, W5(), Finalizes()).value);
  }

  lemma Stage6()
    ensures PairAt(HOST, W6(), VAULT).vault.Some? && PairAt(HOST, W6(), VAULT).vault.value.owner == SUCCESSOR
  {
    hide Decide, EventOf, W5, Inv, HostOk, Admissible, PairAt, Finalizes, Enabled;
    HostIsOk();
    Stage5();
    FinalizesGoes();
    OwnProjects(HOST, W5(), Finalizes(), Decide(HOST, W5(), Finalizes()).value);
  }

  // --------------------------------------------------------------- the run

  function Worlds(): seq<World> {
    [W0(), W1(), W2(), W3(), W4(), W5(), W6()]
  }

  function Labels(): seq<Label> {
    [Invoke(Create()), Invoke(Signs(Created0(), OPT_IN)), Invoke(Signs(Enabled(), NAME_GUARDIAN)), Invoke(Proposes()),
     Other, Invoke(Finalizes())]
  }

  lemma EveryStep()
    ensures Run(HOST, Worlds(), Labels())
  {
    hide Admissible, Elsewhere, W0, W1, W2, W3, W4, W5, W6, Create, Signs, Proposes, Finalizes, Created0, Enabled;
    StepsHold();
    var ws, ls := Worlds(), Labels();
    forall i | 0 <= i < |ls| ensures Step(HOST, ws[i], ls[i], ws[i + 1]) {
    }
  }

  lemma StepsHold()
    ensures Step(HOST, W0(), Invoke(Create()), W1())
    ensures Step(HOST, W1(), Invoke(Signs(Created0(), OPT_IN)), W2())
    ensures Step(HOST, W2(), Invoke(Signs(Enabled(), NAME_GUARDIAN)), W3())
    ensures Step(HOST, W3(), Invoke(Proposes()), W4())
    ensures Step(HOST, W4(), Other, W5())
    ensures Step(HOST, W5(), Invoke(Finalizes()), W6())
  {
    hide Admissible, Elsewhere, After, Create, Signs, Proposes, Finalizes, Created0, Enabled, W0;
    CreateDelivered();
    SignsDelivered(Created0(), OPT_IN);
    SignsDelivered(Enabled(), NAME_GUARDIAN);
    ProposesGoes();
    Stage5();
    FinalizesGoes();
  }

  /** There is a deployment, and a run of it from a chain without program accounts, in
      which a vault is created, opts in, names a guardian, and passes to the guardian's
      choice after the delay: what the theorems about runs assume can be had all at
      once, and every kind of event they speak of happens. */
  lemma Recovered() returns (host: Host, ws: seq<World>, ls: seq<Label>, vault: Key)
    ensures HostOk(host) && SoundRun(host, ws, ls) && Genesis(host, ws[0]) && |ls| == 6 && vault in host.vaults
    ensures EventAt(host, ws, ls, vault, 0).Created?
    ensures EventAt(host, ws, ls, vault, 3) == Proposed(SUCCESSOR)
    ensures EventAt(host, ws, ls, vault, 5).Finalized?
    ensures At(host, ws, vault, 1).vault.Some? && At(host, ws, vault, 1).vault.value.owner != SUCCESSOR
    ensures At(host, ws, vault, 6).vault.Some? && At(host, ws, vault, 6).vault.value.owner == SUCCESSOR
  {
    hide HostOk, Run, Genesis, Inv, EventOf, PairAt, W0, W1, W2, W3, W4, W5, W6, Create, Signs, Proposes, Finalizes,
         Enabled;
    HostIsOk();
    AllApart();
    Start();
    Stage1();
    ProposesGoes();
    FinalizesGoes();
    Stage6();
    EveryStep();
    host, ws, ls, vault := HOST, Worlds(), Labels(), VAULT;
    assert ws[0] == W0() && ws[1] == W1() && ws[3] == W3() && ws[5] == W5() && ws[6] == W6();
    assert ls[0] == Invoke(Create()) && ls[3] == Invoke(Proposes()) && ls[5] == Invoke(Finalizes());
  }
}
