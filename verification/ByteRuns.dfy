/** Theorems about runs, read off the raw bytes of instructions and accounts. */
module ByteRuns {
  import opened Prelude
  import opened Bytes
  import opened Intent
  import opened Codec
  import opened State
  import opened Recovery
  import opened Host
  import opened Authorize
  import opened Protocol
  import opened Outcome
  import opened Machine
  import opened Ledger
  import opened Steps
  import opened Runs
  import opened Custody
  import opened Effects
  import opened Bytewise
  import opened ByteEffects
  import Ed25519

  // ---------------------------------------------------- what is always there

  /** A program account of 1120 bytes with version 1. */
  predicate VaultStored(host: Host, w: World, k: Key) {
    Get(w, k).owner == host.programId && |Get(w, k).data| == 1120 && Get(w, k).data[0] == 1
  }

  lemma VaultAtStored(host: Host, w: World, k: Key)
    ensures VaultAt(host, w, k).Some? <==> VaultStored(host, w, k)
    ensures VaultAt(host, w, k).Some? ==> VaultAt(host, w, k).value == VaultOf(Get(w, k).data)
  {
    hide VaultOf;
  }

  /** The bytes every stored vault has: a policy, no flag but the two, a threshold only
      under policy 5, zeros where nothing is kept, an address derived from some creator,
      and one Falcon wire key behind both its hash and its prepared form. */
  ghost predicate SoundVault(host: Host, k: Key, b: seq<byte>)
    requires |b| == 1120
  {
    && b[2] <= 5 && b[3] < 4
    && (if b[3] / 2 == 1 then b[2] == 5 else b[80..88] == Zeros(8))
    && b[88..96] == Zeros(8) && Derived(host, k, b) && Keyed(host, b)
  }

  ghost predicate Derived(host: Host, k: Key, b: seq<byte>)
    requires |b| == 1120
  {
    exists creator: Key ::
      host.find([[0x64, 0x75, 0x61, 0x6C, 0x6B, 0x65, 0x79], creator, b[4..8]]) == Some((k, b[1]))
  }

  ghost predicate Keyed(host: Host, b: seq<byte>)
    requires |b| == 1120
  {
    exists wireKey: seq<byte> ::
      |wireKey| == 897 && b[40..72] == host.sha(wireKey) && host.prepare(wireKey) == Some(b[96..1120])
  }

  /** The bytes a configuration has beside the bytes of its vault: a guardian, a delay, a
      ready slot exactly while a proposal is pending, and a proposal that would change
      the owner and has the whole delay before it. */
  predicate SoundConfig(bump: byte, b: seq<byte>, c: seq<byte>)
    requires |b| == 1120 && |c| == 128
  {
    && c[0] == 1 && c[1] == bump && c[2] == 0 && c[3] == 0 && c[4..36] != Zeros(32) && U64Of(c[36..44]) >= 1
    && (c[44..76] == Zeros(32) <==> U64Of(c[76..84]) == 0)
    && (c[44..76] != Zeros(32) ==> c[44..76] != b[8..40] && U64Of(c[76..84]) >= U64Of(c[36..44]))
    && c[84..128] == Zeros(44)
  }

  lemma SoundVaultBytes(host: Host, k: Key, b: seq<byte>)
    requires |b| == 1120 && VaultOk(host, k, VaultOf(b))
    ensures SoundVault(host, k, b)
  {
    hide VaultOf, U64Of, Zeros, Policy.FromByte, Policy.AsByte, HasOrigin, FromOneWireKey, Derived, Keyed;
    HeaderFields(b);
    PolicyByteExists(b[2]);
    ThresholdByte();
    ZeroThreshold(b);
    OriginBytes(host, k, b);
    WireKeyBytes(host, b);
  }

  lemma HeaderFields(b: seq<byte>)
    requires |b| == 1120
    ensures VaultOf(b).policy == b[2] && VaultOf(b).flags == b[3] && VaultOf(b).reserved == b[88..96]
  {
    hide U64Of, U32Of;
  }

  lemma ThresholdByte()
    ensures FalconAboveThreshold.AsByte() == 5
  {
  }

  lemma ZeroThreshold(b: seq<byte>)
    requires |b| == 1120
    ensures VaultOf(b).above == 0 ==> b[80..88] == Zeros(8)
  {
    hide U64Of, U32Of, Le64;
    ZeroWord();
  }

  lemma OriginBytes(host: Host, k: Key, b: seq<byte>)
    requires |b| == 1120 && HasOrigin(host, k, VaultOf(b))
    ensures Derived(host, k, b)
  {
    hide U64Of, U32Of;
    var v := VaultOf(b);
    var creator: Key :| VaultAddress(host, creator, v.index) == Some((k, v.bump));
    SeedBytes(creator, v.index, k);
    assert host.find([[0x64, 0x75, 0x61, 0x6C, 0x6B, 0x65, 0x79], creator, b[4..8]]) == Some((k, b[1]));
  }

  lemma WireKeyBytes(host: Host, b: seq<byte>)
    requires |b| == 1120 && FromOneWireKey(host, VaultOf(b).falconHash, VaultOf(b).prepared)
    ensures Keyed(host, b)
  {
    hide U64Of, U32Of;
  }

  lemma SoundConfigBytes(host: Host, k: Key, b: seq<byte>, c: seq<byte>)
    requires |b| == 1120 && |c| == 128 && ConfigOk(host, k, VaultOf(b), ConfigOf(c))
    ensures ConfigAddress(host, k).Some? && SoundConfig(ConfigAddress(host, k).value.1, b, c)
  {
    hide U64Of, U32Of, VaultOf;
    FieldsOf(b);
  }

  /** From a chain without program accounts, in every reachable world: stored vaults are
      sound and hold their rent, and so is every configuration beside one. */
  lemma ReachableBytes(host: Host, ws: seq<World>, ls: seq<Label>, k: Key, i: nat)
    requires HostOk(host) && Run(host, ws, ls) && Genesis(host, ws[0]) && i < |ws|
    ensures VaultStored(host, ws[i], k) ==>
              && SoundVault(host, k, Get(ws[i], k).data) && Get(ws[i], k).lamports >= host.vaultRent > 0
              && var r := ConfigAddress(host, k);
                 r.Some? && ConfigStored(host, ws[i], r.value.0) ==>
                   SoundConfig(r.value.1, Get(ws[i], k).data, Get(ws[i], r.value.0).data)
  {
    hide HostOk, Run, Genesis, SoundVault, SoundConfig, VaultOk, ConfigOk, Get, VaultOf, ConfigOf, VaultAt, ConfigAt,
         ConfigAddress, ConfigStored, VaultStored;
    ReachableVaultInvariant(host, ws, ls, k, i);
    VaultAtStored(host, ws[i], k);
    ConfigAtStored(host, ws[i], k);
    StoredLengths(host, ws[i], k);
    if VaultStored(host, ws[i], k) {
      SoundVaultBytes(host, k, Get(ws[i], k).data);
      if ConfigAt(host, ws[i], k).Some? {
        SoundConfigBytes(host, k, Get(ws[i], k).data, Get(ws[i], ConfigAddress(host, k).value.0).data);
      }
    }
  }

  lemma StoredLengths(host: Host, w: World, k: Key)
    ensures VaultStored(host, w, k) ==> |Get(w, k).data| == 1120
    ensures forall r: Key :: ConfigStored(host, w, r) ==> |Get(w, r).data| == 128
  {
  }

  // -------------------------------------------- endorsements and claims, spelled out

  /** An endorsement over raw bytes: what a requirement accepts of the Ed25519 signature in
      front and the Falcon signature behind the fragment, both over signing bytes about the
      vault as stored. */
  ghost predicate EndorsedBytes(host: Host, w: World, ix: Instruction, k: Key, req: Requirement)
    requires |ix.data| >= 716 && |Get(w, k).data| == 1120
  {
    exists p {:trigger SigningBytes(host, k, Get(w, k).data, ix.data, p)} ::
      && SigningBytes(host, k, Get(w, k).data, ix.data, p)
      && req.AcceptedBy(
           Ed25519.FrontSigned(host, SysvarOf(ix), ix.previous, Get(w, k).data[8..40], host.sha(p)),
           host.falcon(Get(w, k).data[96..1120], host.sha(p), ix.data[50..716]) == Valid)
  }

  /** What the endorsements in the theorems about runs come to. */
  lemma EndorsedPlainly(host: Host, w: World, ix: Instruction, k: Key, req: Requirement)
    requires Endorsed(host, w, Invoke(ix), k, req) && |ix.data| >= 716
    ensures VaultStored(host, w, k) && EndorsedBytes(host, w, ix, k, req)
  {
    hide DecodeWire, Get, VaultOf, VaultAt, SigningBytes, Digest, Ed25519.Carries, Ed25519.FrontSigned, SysvarOf,
         Preimage, Requirement.AcceptedBy;
    var wire, b := WireOf(ix).value, Get(w, k).data;
    VaultAtStored(host, w, k);
    VaultFields(b);
    var p := Preimage(IntentAt(host, k, VaultOf(b).nonce, wire));
    SignedIsSigningBytes(host, k, b, ix.data, wire);
    DigestOf(host, k, VaultOf(b).nonce, wire);
    Ed25519.CarriesPlainly(host, SysvarOf(ix), ix.previous, b[8..40], host.sha(p));
  }

  lemma VaultFields(b: seq<byte>)
    requires |b| == 1120
    ensures VaultOf(b).owner == b[8..40] && VaultOf(b).prepared == b[96..1120]
  {
    hide U64Of, U32Of;
  }

  /** What a carried claim comes to: the guardian's signature stands in front of the step,
      over guardian bytes for the vault as stored and the proposed key. */
  lemma ClaimPlainly(host: Host, l: Label, guardian: Key, k: Key, b: seq<byte>, d: seq<byte>) returns (p: seq<byte>)
    requires |b| == 1120 && |d| == 33 && CarriesClaim(host, l, guardian, k, d[1..], VaultOf(b).nonce)
    ensures l.Invoke? && GuardianBytes(host, k, b, d, p)
    ensures Ed25519.FrontSigned(host, SysvarOf(l.ix), l.ix.previous, guardian, host.sha(p))
  {
    hide VaultOf, SocialPreimage, ClaimDigest, GuardianBytes, Ed25519.Carries, Ed25519.FrontSigned, SysvarOf;
    p := SocialPreimage(Claim(host, k, d[1..], VaultOf(b).nonce));
    ClaimIsGuardianBytes(host, k, b, d);
    DigestOfClaim(host, k, d[1..], VaultOf(b).nonce);
    Ed25519.CarriesPlainly(host, SysvarOf(l.ix), l.ix.previous, guardian, host.sha(p));
  }

  // --------------------------------------------------- one-scheme compromise

  /** A stored vault with policy byte 2 and the recovery flag clear. */
  predicate BothRequired(host: Host, w: World, k: Key) {
    VaultStored(host, w, k) && Get(w, k).data[2] == 2 && Get(w, k).data[3] % 2 == 0
  }

  /** A step carries both signatures over signing bytes about the vault as stored. */
  ghost predicate CarriesBoth(host: Host, w: World, l: Label, k: Key) {
    && l.Invoke? && |l.ix.data| >= 716 && |Get(w, k).data| == 1120
    && exists p {:trigger SigningBytes(host, k, Get(w, k).data, l.ix.data, p)} ::
         && SigningBytes(host, k, Get(w, k).data, l.ix.data, p)
         && Ed25519.FrontSigned(host, SysvarOf(l.ix), l.ix.previous, Get(w, k).data[8..40], host.sha(p))
         && host.falcon(Get(w, k).data[96..1120], host.sha(p), l.ix.data[50..716]) == Valid
  }

  lemma SignedCarriesBoth(host: Host, w: World, ix: Instruction, k: Key)
    requires Admissible(host, ix) && BothRequired(host, w, k)
    requires ix.data != [] && ix.data[0] in {1, 2, 3, 4, 5, 6, 9} && Decide(host, w, ix).Ok?
    requires Decide(host, w, ix).value.vault == k
    ensures CarriesBoth(host, w, Invoke(ix), k)
  {
    hide Decide, Get, U64Of, SigningBytes, Ed25519.FrontSigned, RightDiscriminator, CarriesAction, PossessionShown,
         WireOf, SysvarOf, Ed25519.RuntimeVerified, NamesVault;
    var p, action := SignedMeans(host, w, ix);
  }

  lemma ActingCarriesBoth(host: Host, w: World, l: Label, k: Key)
    requires HostOk(host) && Inv(host, w) && l.Invoke? && Admissible(host, l.ix)
    requires BothRequired(host, w, k) && ActsOn(host, w, l, k)
    ensures CarriesBoth(host, w, l, k)
  {
    hide HostOk, Inv, Admissible, Decide, Get, After, CarriesBoth, ProposalBytes, InitialBytes, ClearedBytes, SYSTEM,
         GuardianBytes, Ed25519.FrontSigned, U64Of, ConfigAddress;
    var ix := l.ix;
    Distinct(host);
    DecidedHasData(host, w, ix);
    DecidedNames(host, w, ix, Decide(host, w, ix).value);
    if ix.data[0] == 0 {
      InitializeBytes(host, w, ix);
    } else if ix.data[0] == 7 {
      var p := InitiateBytes(host, w, ix);
    } else if ix.data[0] == 8 {
      FinalizeBytes(host, w, ix);
    } else {
      SignedCarriesBoth(host, w, ix, k);
    }
  }

  lemma BothRequiredStep(host: Host, ws: seq<World>, ls: seq<Label>, k: Key, i: nat)
    requires SoundRun(host, ws, ls) && i < |ls|
    requires BothRequired(host, ws[i], k) && !CarriesBoth(host, ws[i], ls[i], k)
    ensures !ActsOn(host, ws[i], ls[i], k)
    ensures BothRequired(host, ws[i + 1], k) && Get(ws[i + 1], k).data == Get(ws[i], k).data
    ensures Get(ws[i + 1], k).lamports >= Get(ws[i], k).lamports
    ensures ConfigAt(host, ws[i + 1], k) == ConfigAt(host, ws[i], k)
  {
    hide HostOk, Inv, VaultOf, ConfigOf, CarriesBoth, Decide, Get, VaultAt, ConfigAt, WireOf, NewPrepared, Admissible,
         VaultStored, After;
    assert Step(host, ws[i], ls[i], ws[i + 1]);
    RunKeepsInv(host, ws, ls, i, i);
    VaultAtStored(host, ws[i], k);
    VaultAtStored(host, ws[i + 1], k);
    VaultInUse(host, ws, ls, k, i);
    if ActsOn(host, ws[i], ls[i], k) {
      ActingCarriesBoth(host, ws[i], ls[i], k);
    }
    StepProjects(host, ws[i], ls[i], ws[i + 1], k);
    QuietKeepsVault(host, ws[i], ls[i], ws[i + 1], k);
    if Get(ws[i + 1], k).lamports < Get(ws[i], k).lamports {
      LamportsStep(host, ws[i], ls[i], ws[i + 1], k);
    }
  }

  /** One-scheme compromise in bytes: from policy byte 2 with the recovery flag clear,
      along any run in which no step carries both signatures, no instruction acts on the
      vault, its bytes and those of its configuration stay, and its lamports never fall. */
  lemma {:induction false} OneSchemeBytes(host: Host, ws: seq<World>, ls: seq<Label>, k: Key, j: nat)
    requires SoundRun(host, ws, ls) && j <= |ls| && BothRequired(host, ws[0], k)
    requires forall i :: 0 <= i < j ==> !CarriesBoth(host, ws[i], ls[i], k)
    ensures forall i :: 0 <= i < j ==> !ActsOn(host, ws[i], ls[i], k)
    ensures BothRequired(host, ws[j], k) && Get(ws[j], k).data == Get(ws[0], k).data
    ensures Get(ws[j], k).lamports >= Get(ws[0], k).lamports
    ensures ConfigAt(host, ws[j], k) == ConfigAt(host, ws[0], k)
    ensures var r := ConfigAddress(host, k);
            r.Some? && ConfigStored(host, ws[0], r.value.0) ==>
              Get(ws[j], r.value.0).data == Get(ws[0], r.value.0).data
  {
    hide *;
    StartOfRun(host, ws, ls);
    if j > 0 {
      OneSchemeBytes(host, ws, ls, k, j - 1);
      BothRequiredStep(host, ws, ls, k, j - 1);
    }
    ConfigAtStored(host, ws[0], k);
    if ConfigAt(host, ws[0], k).Some? {
      SameConfigSameBytes(host, ws[j], ws[0], k);
    }
  }

  lemma StartOfRun(host: Host, ws: seq<World>, ls: seq<Label>)
    requires SoundRun(host, ws, ls)
    ensures |ws| == |ls| + 1
  {
    hide *;
  }

  // --------------------------------------------------------------- timelock

  /** A successful instruction with this discriminator, naming this vault. */
  predicate Succeeds(host: Host, w: World, l: Label, discriminator: byte, k: Key) {
    && l.Invoke? && l.ix.data != [] && l.ix.data[0] == discriminator
    && l.ix.metas != [] && l.ix.metas[0].key == k && Decide(host, w, l.ix).Ok?
  }

  /** Nothing is pending for the vault at `k`. */
  predicate NothingPending(host: Host, w: World, k: Key) {
    var r := ConfigAddress(host, k);
    r.Some? && ConfigStored(host, w, r.value.0) ==> Get(w, r.value.0).data[44..76] == Zeros(32)
  }

  lemma NotPending(host: Host, w: World, k: Key)
    requires NothingPending(host, w, k)
    ensures !Pending(PairAt(host, w, k))
  {
    hide ConfigOf, Get, ConfigAddress, ConfigAt, Config.HasPending, VaultAt;
    ConfigAtStored(host, w, k);
    if ConfigAt(host, w, k).Some? {
      PendingBytes(Get(w, ConfigAddress(host, k).value.0).data);
    }
  }

  lemma SucceedsNames(host: Host, w: World, l: Label, discriminator: byte, k: Key)
    requires Succeeds(host, w, l, discriminator, k) && discriminator != 0
    ensures Decide(host, w, l.ix).value.vault == k
  {
    hide Decide;
    DecidedNames(host, w, l.ix, Decide(host, w, l.ix).value);
  }

  lemma FinalizedEvent(host: Host, w: World, l: Label, k: Key)
    requires Succeeds(host, w, l, 8, k)
    ensures EventOf(host, w, l, k).Finalized?
  {
    hide Decide, WireOf, NewPrepared;
    SucceedsNames(host, w, l, 8, k);
  }

  lemma ProposedEvent(host: Host, w: World, l: Label, k: Key)
    requires EventOf(host, w, l, k).Proposed?
    ensures Succeeds(host, w, l, 7, k) && |l.ix.data| == 33 && EventOf(host, w, l, k).newOwner == l.ix.data[1..]
  {
    hide Decide, WireOf, NewPrepared;
    DecidedHasData(host, w, l.ix);
    DecidedNames(host, w, l.ix, Decide(host, w, l.ix).value);
  }

  /** From step `t` to step `j` the configuration at `r` keeps the bytes `e` and the vault at
      `k` its owner. */
  ghost predicate Waits(ws: seq<World>, k: Key, r: Key, t: nat, j: nat, e: seq<byte>)
    requires t < j < |ws|
  {
    && |Get(ws[t], k).data| == 1120
    && forall i :: t < i <= j ==>
         && Get(ws[i], r).data == e && |Get(ws[i], k).data| == 1120
         && Get(ws[i], k).data[8..40] == Get(ws[t], k).data[8..40]
  }

  /** Guardian and delay at step `t` are those at step `j`, and the delay lies between. */
  predicate Matured(ws: seq<World>, r: Key, t: nat, j: nat)
    requires t < j < |ws|
  {
    var c, e := Get(ws[t], r).data, Get(ws[j], r).data;
    && |c| == |e| == 128 && c[4..44] == e[4..44]
    && U64Of(e[36..44]) >= 1 && ws[j].slot >= ws[t].slot + U64Of(e[36..44])
  }

  lemma WaitsInBytes(host: Host, ws: seq<World>, k: Key, t: nat, j: nat)
    requires t < j < |ws|
    requires VaultAt(host, ws[t], k).Some? && ConfigAt(host, ws[j], k).Some?
    requires forall i :: t < i <= j ==>
               && At(host, ws, k, i).vault.Some? && At(host, ws, k, i).config == ConfigAt(host, ws[j], k)
               && At(host, ws, k, i).vault.value.owner == VaultAt(host, ws[t], k).value.owner
    ensures ConfigAddress(host, k).Some?
    ensures Waits(ws, k, ConfigAddress(host, k).value.0, t, j, Get(ws[j], ConfigAddress(host, k).value.0).data)
  {
    hide VaultOf, ConfigOf, Get, VaultAt, ConfigAt, ConfigAddress;
    ConfigAtStored(host, ws[j], k);
    StoredBytes(host, ws[t], k);
    FieldsOf(Get(ws[t], k).data);
    var r := ConfigAddress(host, k).value.0;
    forall i | t < i <= j
      ensures Get(ws[i], r).data == Get(ws[j], r).data && |Get(ws[i], k).data| == 1120
      ensures Get(ws[i], k).data[8..40] == Get(ws[t], k).data[8..40]
    {
      assert At(host, ws, k, i).vault.Some?;
      SameConfigSameBytes(host, ws[i], ws[j], k);
      StoredBytes(host, ws[i], k);
      FieldsOf(Get(ws[i], k).data);
    }
  }

  lemma GuardianAt(host: Host, ws: seq<World>, ls: seq<Label>, k: Key, t: nat) returns (p: seq<byte>)
    requires SoundRun(host, ws, ls) && t < |ls| && EventAt(host, ws, ls, k, t).Proposed?
    ensures Succeeds(host, ws[t], ls[t], 7, k) && |ls[t].ix.data| == 33 && |ls[t].ix.metas| == 3
    ensures EventAt(host, ws, ls, k, t).newOwner == ls[t].ix.data[1..]
    ensures ConfigAddress(host, k).Some?
            && GuardianEndorsed(host, ws[t], ls[t].ix, k, ConfigAddress(host, k).value.0, p)
  {
    hide HostOk, Inv, Decide, Get, After, ConfigAddress, ProposalBytes, GuardianEndorsed, EventOf, Admissible;
    assert Step(host, ws[t], ls[t], ws[t + 1]);
    RunKeepsInv(host, ws, ls, t, t);
    ProposedEvent(host, ws[t], ls[t], k);
    p := InitiateBytes(host, ws[t], ls[t].ix);
  }

  lemma DelayBytes(host: Host, w: World, u: World, k: Key)
    requires ConfigAt(host, w, k).Some? && ConfigAt(host, u, k).Some?
    requires ConfigAt(host, w, k).value.guardian == ConfigAt(host, u, k).value.guardian
    requires ConfigAt(host, w, k).value.delay == ConfigAt(host, u, k).value.delay
    ensures ConfigAddress(host, k).Some?
    ensures var r := ConfigAddress(host, k).value.0;
            var c, e := Get(w, r).data, Get(u, r).data;
            && |c| == |e| == 128 && c[4..44] == e[4..44] && U64Of(e[36..44]) == ConfigAt(host, u, k).value.delay
  {
    hide ConfigOf, Get, ConfigAt, ConfigAddress, U64Of;
    ConfigAtStored(host, w, k);
    ConfigAtStored(host, u, k);
    var r := ConfigAddress(host, k).value.0;
    var c, e := Get(w, r).data, Get(u, r).data;
    GuardianField(c);
    GuardianField(e);
    SameTerms(c, e);
  }

  lemma SameTerms(c: seq<byte>, e: seq<byte>)
    requires |c| == |e| == 128 && c[4..36] == e[4..36] && U64Of(c[36..44]) == U64Of(e[36..44])
    ensures c[4..44] == e[4..44]
  {
    hide Le64, U64Of;
    assert Le64(U64Of(c[36..44])) == Le64(U64Of(e[36..44]));
    assert c[4..44] == c[4..36] + c[36..44] && e[4..44] == e[4..36] + e[36..44];
  }

  lemma NewOwnerBytes(host: Host, w: World, k: Key, newOwner: Key)
    requires VaultAt(host, w, k).Some? && VaultAt(host, w, k).value.owner == newOwner
    ensures |Get(w, k).data| == 1120 && Get(w, k).data[8..40] == newOwner
  {
    hide VaultOf, Get, VaultAt;
    StoredBytes(host, w, k);
    FieldsOf(Get(w, k).data);
  }

  /** The timelock in bytes: behind a successful finalize at step `j` there is an earlier
      successful initiate at step `t`, with the very key that becomes the owner, carrying
      the signature of the guardian stored then and now over the 169 bytes that name chain,
      program, vault, key and nonce; since then at least the stored delay has passed, and
      neither the configuration's bytes nor the owner have moved. */
  lemma TimelockBytes(host: Host, ws: seq<World>, ls: seq<Label>, k: Key, j: nat) returns (t: nat, p: seq<byte>)
    requires SoundRun(host, ws, ls) && j < |ls|
    requires NothingPending(host, ws[0], k) && Succeeds(host, ws[j], ls[j], 8, k)
    ensures t < j && Succeeds(host, ws[t], ls[t], 7, k) && |ls[t].ix.data| == 33 && |ls[t].ix.metas| == 3
    ensures |Get(ws[j + 1], k).data| == 1120 && Get(ws[j + 1], k).data[8..40] == ls[t].ix.data[1..]
    ensures ConfigAddress(host, k).Some?
            && GuardianEndorsed(host, ws[t], ls[t].ix, k, ConfigAddress(host, k).value.0, p)
            && Matured(ws, ConfigAddress(host, k).value.0, t, j)
            && Waits(ws, k, ConfigAddress(host, k).value.0, t, j, Get(ws[j], ConfigAddress(host, k).value.0).data)
  {
    hide HostOk, Run, Inv, Decide, Get, VaultAt, ConfigAt, EventOf, GuardianEndorsed, Waits, ConfigAddress, U64Of,
         CarriesClaim, NothingPending, VaultOf;
    StartOfRun(host, ws, ls);
    NotPending(host, ws[0], k);
    FinalizedEvent(host, ws[j], ls[j], k);
    t := Timelock(host, ws, ls, k, j);
    p := GuardianAt(host, ws, ls, k, t);
    DelayBytes(host, ws[t], ws[j], k);
    WaitsInBytes(host, ws, k, t, j);
    NewOwnerBytes(host, ws[j + 1], k, ls[t].ix.data[1..]);
  }
}
