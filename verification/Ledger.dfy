/** Steps of the whole world, its invariant, and the projection of every step onto
    the machine of each vault. */
module Ledger {
  import opened Prelude
  import opened Bytes
  import opened State
  import opened Recovery
  import opened Host
  import opened Authorize
  import opened Protocol
  import opened Outcome
  import opened Machine
  import Ed25519

  // ----------------------------------------------------------------- steps

  /** The address an instruction names as its vault. */
  predicate NamesVault(ix: Instruction, k: Key) {
    && ix.data != []
    && (if ix.data[0] == 0 then |ix.metas| > 1 && ix.metas[1].key == k else ix.metas != [] && ix.metas[0].key == k)
  }

  /** What the runtime guarantees about an instruction it delivers: no signer is an
      address that the program derives from the accounts at hand, a preceding Ed25519
      instruction has been verified, and the vault is one of those in use. */
  ghost predicate Admissible(host: Host, ix: Instruction) {
    && (forall i, j :: 0 <= i < |ix.metas| && 0 <= j < |ix.metas| && ix.metas[i].signer
          ==> !DerivedFrom(host, ix.metas[i].key, ix.metas[j].key))
    && Ed25519.RuntimeVerified(host, ix.previous)
    && (forall k :: NamesVault(ix, k) ==> k in host.vaults)
  }

  /** Anything else that happens on the chain: other programs, deposits, time. Data
      and lamports of this program's accounts are protected from others, and an
      account newly assigned to it is zero-filled. */
  ghost predicate Elsewhere(host: Host, w: World, w': World) {
    && w.slot <= w'.slot
    && forall k: Key {:trigger Get(w', k)} ::
         var a, b := Get(w, k), Get(w', k);
         && (a.owner == host.programId ==> b.owner == a.owner && b.data == a.data && b.lamports >= a.lamports)
         && (a.owner != host.programId && b.owner == host.programId ==> AllZero(b.data))
  }

  datatype Label = Invoke(ix: Instruction) | Other

  ghost predicate Step(host: Host, w: World, l: Label, w': World) {
    match l
    case Invoke(ix) => Admissible(host, ix) && w' == After(host, w, ix)
    case Other => Elsewhere(host, w, w')
  }

  /** What a step does to one vault. */
  function EventOf(host: Host, w: World, l: Label, vault: Key): Event {
    if l.Other? then Quiet
    else
      var r := Decide(host, w, l.ix);
      if r.Err? || r.value.vault != vault then Quiet
      else if l.ix.data[0] == 0 then
        (match r.value.record case None => Quiet case Some(v) => Created(v))
      else if l.ix.data[0] == 7 then
        (if |l.ix.data| == 33 then Proposed(l.ix.data[1..]) else Quiet)
      else if l.ix.data[0] == 8 then Finalized
      else if WireOf(l.ix).Err? then Quiet
      else Signed(WireOf(l.ix).value.action, NewPrepared(host, l.ix))
  }

  // ------------------------------------------------------------- invariant

  predicate IsVaultData(host: Host, a: Account) {
    a.owner == host.programId && |a.data| == ACCOUNT_LEN && a.data[0] == ACCOUNT_VERSION
  }

  predicate IsConfigData(host: Host, a: Account) {
    a.owner == host.programId && |a.data| == CONFIG_LEN && a.data[0] == CONFIG_VERSION
  }

  /** Each account by itself: vaults and configurations hold their rent minimum, a
      vault is one of those in use, and any other account assigned to the program is
      blank. */
  ghost predicate AccountOk(host: Host, k: Key, a: Account) {
    if IsVaultData(host, a) then a.lamports >= host.vaultRent && k in host.vaults
    else if IsConfigData(host, a) then a.lamports >= host.configRent
    else a.owner == host.programId ==> AllZero(a.data)
  }

  ghost predicate Inv(host: Host, w: World) {
    && (forall k: Key {:trigger Get(w, k)} :: AccountOk(host, k, Get(w, k)))
    && (forall k {:trigger PairAt(host, w, k)} :: k in host.vaults ==> PairOk(host, k, PairAt(host, w, k)))
  }

  lemma AccountInv(host: Host, w: World, k: Key)
    requires Inv(host, w)
    ensures AccountOk(host, k, Get(w, k))
  {
  }

  /** Every stored vault is one of those in use. */
  lemma StoredInUse(host: Host, w: World, k: Key)
    requires Inv(host, w) && VaultAt(host, w, k).Some?
    ensures k in host.vaults
  {
    hide VaultOf;
    AccountInv(host, w, k);
  }

  lemma PairInv(host: Host, w: World, k: Key)
    requires Inv(host, w) && k in host.vaults
    ensures PairOk(host, k, PairAt(host, w, k))
  {
  }

  /** A chain on which the program has no accounts yet. */
  ghost predicate Genesis(host: Host, w: World) {
    forall k: Key {:trigger Get(w, k)} :: Get(w, k).owner != host.programId
  }

  lemma GenesisInv(host: Host, w: World)
    requires Genesis(host, w)
    ensures Inv(host, w)
  {
    forall k: Key ensures PairOk(host, k, PairAt(host, w, k)) {
      assert Get(w, k).owner != host.programId;
      if ConfigAddress(host, k).Some? {
        assert Get(w, ConfigAddress(host, k).value.0).owner != host.programId;
      }
    }
  }

  // ---------------------------------------------------- the shape of a patch

  /** What every successful instruction's patch obeys, whichever it is. */
  ghost predicate PatchFits(host: Host, w: World, p: Patch) {
    && Payable(w, p.payment)
    && RecordFits(host, w, p)
    && ConfigFits(host, w, p)
    && PaymentOrigin(host, w, p)
    && p.vault in host.vaults
    && (p.tokens.Some? ==>
          && p.tokens.value.source != p.tokens.value.destination
          && IsTokenOwned(host, w, p.tokens.value.source) && IsTokenOwned(host, w, p.tokens.value.destination))
  }

  predicate Unused(a: Account) {
    a.owner == SYSTEM && a.data == []
  }

  /** The vault written is a live one or a fresh address, and ends above its rent. */
  predicate RecordFits(host: Host, w: World, p: Patch)
    requires Payable(w, p.payment)
  {
    p.record.Some? ==>
      && p.record.value.version == ACCOUNT_VERSION
      && (IsVaultData(host, Get(w, p.vault)) || Unused(Get(w, p.vault)))
      && LamportsAfter(w, p.payment, p.vault) >= host.vaultRent
  }

  /** The configuration written is the vault's own, live or fresh, and ends above
      its rent. */
  predicate ConfigFits(host: Host, w: World, p: Patch)
    requires Payable(w, p.payment)
  {
    p.config.Some? ==>
      var c := p.config.value;
      && ConfigAddress(host, p.vault).Some? && c.key == ConfigAddress(host, p.vault).value.0
      && c.config.version == CONFIG_VERSION
      && c.key != p.vault
      && (IsConfigData(host, Get(w, c.key)) || Unused(Get(w, c.key)))
      && LamportsAfter(w, p.payment, c.key) >= host.configRent
  }

  /** Lamports leave this program's accounts only from the vault itself. */
  predicate PaymentOrigin(host: Host, w: World, p: Patch) {
    p.payment.amount > 0 ==>
      && p.payment.from != p.payment.to
      && (Get(w, p.payment.from).owner == host.programId ==> p.payment.from == p.vault && p.record.Some?)
  }

  function OwnerAfter(host: Host, w: World, p: Patch, k: Key): Key {
    if (p.record.Some? && k == p.vault) || (p.config.Some? && k == p.config.value.key) then host.programId
    else Get(w, k).owner
  }

  function DataAfter(w: World, p: Patch, k: Key): seq<byte> {
    if p.tokens.Some? && k == p.tokens.value.destination then p.tokens.value.destinationData
    else if p.tokens.Some? && k == p.tokens.value.source then p.tokens.value.sourceData
    else if p.config.Some? && k == p.config.value.key then ConfigBytes(p.config.value.config)
    else if p.record.Some? && k == p.vault then VaultBytes(p.record.value)
    else Get(w, k).data
  }

  /** The account at any address after a patch. */
  lemma ApplyAt(host: Host, w: World, p: Patch, k: Key)
    requires Payable(w, p.payment)
    ensures Get(Apply(host, w, p), k) ==
            Account(OwnerAfter(host, w, p, k), LamportsAfter(w, p.payment, k), DataAfter(w, p, k))
  {
    hide VaultBytes, ConfigBytes, Get, SetData, Move, LamportsAfter;
    MoveAt(w, p.payment, k);
    var paid := Move(w, p.payment);
    var recorded := if p.record.None? then paid else SetData(paid, p.vault, host.programId, VaultBytes(p.record.value));
    if p.record.Some? {
      SetDataAt(paid, p.vault, host.programId, VaultBytes(p.record.value), k);
    }
    var configured :=
      if p.config.None? then recorded
      else SetData(recorded, p.config.value.key, host.programId, ConfigBytes(p.config.value.config));
    if p.config.Some? {
      SetDataAt(recorded, p.config.value.key, host.programId, ConfigBytes(p.config.value.config), k);
    }
    if p.tokens.Some? {
      var t := p.tokens.value;
      var owner := Get(configured, t.source).owner;
      var sourced := SetData(configured, t.source, owner, t.sourceData);
      SetDataAt(configured, t.source, owner, t.sourceData, k);
      SetDataAt(configured, t.source, owner, t.sourceData, t.destination);
      SetDataAt(sourced, t.destination, Get(sourced, t.destination).owner, t.destinationData, k);
    }
  }

  lemma Distinct(host: Host)
    requires HostOk(host)
    ensures host.programId != SYSTEM && host.tokenProgram != SYSTEM && host.token2022Program != SYSTEM
    ensures host.programId != host.tokenProgram && host.programId != host.token2022Program
    ensures host.vaultRent > 0 && host.configRent > 0
  {
  }

  predicate Written(p: Patch, k: Key) {
    (p.record.Some? && k == p.vault) || (p.config.Some? && k == p.config.value.key)
  }

  lemma WrittenVault(host: Host, w: World, p: Patch)
    requires HostOk(host) && PatchFits(host, w, p) && p.record.Some?
    ensures var a := Get(Purge(Apply(host, w, p)), p.vault);
            IsVaultData(host, a) && a.data == VaultBytes(p.record.value) && a.lamports >= host.vaultRent
  {
    hide HostOk, Apply, Get, Purge, SYSTEM, VaultBytes, ConfigBytes, LamportsAfter, ConfigAddress, PaymentOrigin,
         SetData, Move;
    Distinct(host);
    ApplyAt(host, w, p, p.vault);
    GetPurged(Apply(host, w, p), p.vault);
    VaultRoundTrip(p.record.value);
  }

  lemma WrittenConfig(host: Host, w: World, p: Patch)
    requires HostOk(host) && PatchFits(host, w, p) && p.config.Some?
    ensures var a := Get(Purge(Apply(host, w, p)), p.config.value.key);
            IsConfigData(host, a) && a.data == ConfigBytes(p.config.value.config) && a.lamports >= host.configRent
  {
    hide HostOk, Apply, Get, Purge, SYSTEM, VaultBytes, ConfigBytes, LamportsAfter, ConfigAddress, PaymentOrigin,
         SetData, Move;
    Distinct(host);
    ApplyAt(host, w, p, p.config.value.key);
    GetPurged(Apply(host, w, p), p.config.value.key);
    ConfigRoundTrip(p.config.value.config);
  }

  lemma WrittenAccount(host: Host, w: World, p: Patch, k: Key)
    requires HostOk(host) && PatchFits(host, w, p) && Written(p, k)
    ensures var a := Get(Purge(Apply(host, w, p)), k);
            if p.record.Some? && k == p.vault
            then IsVaultData(host, a) && a.data == VaultBytes(p.record.value) && a.lamports >= host.vaultRent
            else IsConfigData(host, a) && a.data == ConfigBytes(p.config.value.config) && a.lamports >= host.configRent
  {
    hide HostOk, Apply, Get, Purge, SYSTEM, PatchFits, IsVaultData, IsConfigData;
    if p.record.Some? && k == p.vault {
      WrittenVault(host, w, p);
    } else {
      WrittenConfig(host, w, p);
    }
  }

  lemma UnwrittenAccount(host: Host, w: World, p: Patch, k: Key)
    requires HostOk(host) && PatchFits(host, w, p) && !Written(p, k)
    requires AccountOk(host, k, Get(w, k))
    ensures var a, b := Get(w, k), Get(Purge(Apply(host, w, p)), k);
            && AccountOk(host, k, b)
            && (b.owner == host.programId ==> a.owner == host.programId)
            && (a.owner == host.programId ==>
                  (b.owner == host.programId && b.data == a.data && b.lamports >= a.lamports)
                  || (a.lamports == 0 && b == Account(SYSTEM, 0, [])))
  {
    hide HostOk, Apply, Get, Purge, SYSTEM, AllZero;
    Distinct(host);
    ApplyAt(host, w, p, k);
    GetPurged(Apply(host, w, p), k);
  }

  lemma FitsInUse(host: Host, w: World, p: Patch)
    requires PatchFits(host, w, p)
    ensures p.vault in host.vaults
  {
    hide RecordFits, ConfigFits, PaymentOrigin;
  }

  /** A fitting patch keeps every account in order. */
  lemma PatchKeepsAccount(host: Host, w: World, p: Patch, k: Key)
    requires HostOk(host) && AccountOk(host, k, Get(w, k)) && PatchFits(host, w, p)
    ensures AccountOk(host, k, Get(Purge(Apply(host, w, p)), k))
  {
    hide HostOk, Apply, Get, Purge, SYSTEM, AllZero, PatchFits;
    FitsInUse(host, w, p);
    if Written(p, k) {
      WrittenAccount(host, w, p, k);
    } else {
      UnwrittenAccount(host, w, p, k);
    }
  }

  /** The vault record at any address after a fitting patch. */
  lemma VaultAfterPatch(host: Host, w: World, p: Patch, k: Key)
    requires HostOk(host) && Inv(host, w) && PatchFits(host, w, p)
    ensures VaultAt(host, Purge(Apply(host, w, p)), k) ==
            if p.record.Some? && k == p.vault then p.record else VaultAt(host, w, k)
  {
    hide HostOk, Apply, Purge, SYSTEM, VaultOf, VaultBytes, ConfigBytes, AllZero;
    Distinct(host);
    AccountInv(host, w, k);
    if Written(p, k) {
      WrittenAccount(host, w, p, k);
      if p.record.Some? && k == p.vault {
        VaultRoundTrip(p.record.value);
      }
    } else {
      UnwrittenAccount(host, w, p, k);
    }
  }

  /** The configuration of any vault after a fitting patch: only its own vault's
      instructions reach it. */
  lemma ConfigAfterPatch(host: Host, w: World, p: Patch, vault: Key)
    requires HostOk(host) && Inv(host, w) && PatchFits(host, w, p) && vault in host.vaults
    ensures ConfigAt(host, Purge(Apply(host, w, p)), vault) ==
            if p.config.Some? && vault == p.vault then Some(p.config.value.config) else ConfigAt(host, w, vault)
  {
    hide Apply, Purge, SYSTEM, ConfigOf, VaultBytes, ConfigBytes, AllZero;
    Distinct(host);
    var derived := ConfigAddress(host, vault);
    if derived.Some? {
      var k := derived.value.0;
      AccountInv(host, w, k);
      if Written(p, k) {
        WrittenAccount(host, w, p, k);
        if p.config.Some? && k == p.config.value.key {
          NoSharedConfig(host, p.vault, vault);
          ConfigRoundTrip(p.config.value.config);
        }
      } else {
        UnwrittenAccount(host, w, p, k);
      }
    }
  }
}
