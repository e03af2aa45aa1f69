/** The protocol of one vault, apart from bytes and addresses: the stored pair of
    records, the events that reach it, and what every event keeps. */
module Machine {
  import opened Prelude
  import opened Bytes
  import opened Intent
  import opened State
  import opened Recovery
  import opened Host
  import opened Authorize
  import opened Outcome

  /** A vault and its recovery configuration, where they exist. */
  datatype Pair = Pair(vault: Option<Vault>, config: Option<Config>)

  function PairAt(host: Host, w: World, vault: Key): Pair {
    Pair(VaultAt(host, w, vault), ConfigAt(host, w, vault))
  }

  /** What one step of the world does to one vault. */
  datatype Event =
    | Quiet
    | Created(vault: Vault)
    | Signed(action: Action, prepared: Prepared)
    | Proposed(newOwner: Key)
    | Finalized

  ghost predicate HasOrigin(host: Host, vault: Key, v: Vault) {
    exists creator: Key :: VaultAddress(host, creator, v.index) == Some((vault, v.bump))
  }

  ghost predicate FromOneWireKey(host: Host, hash: Key, prepared: Prepared) {
    exists wireKey: seq<byte> ::
      |wireKey| == FALCON_WIRE_KEY_LEN && hash == host.sha(wireKey) && host.prepare(wireKey) == Some(prepared)
  }

  /** The invariant of a stored vault. */
  ghost predicate VaultOk(host: Host, vault: Key, v: Vault) {
    && v.version == ACCOUNT_VERSION
    && v.flags / 4 == 0
    && Policy.FromByte(v.policy).Some?
    && (v.ThresholdSet() ==> v.policy == FalconAboveThreshold.AsByte())
    && (!v.ThresholdSet() ==> v.above == 0)
    && v.reserved == Zeros(8)
    && HasOrigin(host, vault, v)
    && FromOneWireKey(host, v.falconHash, v.prepared)
  }

  /** The joint invariant of a configuration and the vault it belongs to. */
  ghost predicate ConfigOk(host: Host, vault: Key, v: Vault, c: Config) {
    && c.version == CONFIG_VERSION
    && c.flags == 0 && c.reserved0 == 0 && c.reserved1 == Zeros(44)
    && ConfigAddress(host, vault).Some? && c.bump == ConfigAddress(host, vault).value.1
    && c.guardian != ZERO_KEY
    && c.delay >= 1
    && (c.pending == ZERO_KEY <==> c.ready == 0)
    && (c.HasPending() ==> c.pending != v.owner && c.ready >= c.delay)
  }

  ghost predicate PairOk(host: Host, vault: Key, s: Pair) {
    && (s.vault.Some? ==> VaultOk(host, vault, s.vault.value))
    && (s.config.Some? ==> s.vault.Some? && ConfigOk(host, vault, s.vault.value, s.config.value))
  }

  /** The transition relation of one vault. `slot` is the clock at the step. */
  ghost predicate Next(host: Host, vault: Key, slot: u64, s: Pair, e: Event, t: Pair) {
    match e
    case Quiet => t == s
    case Created(v) =>
      && s.vault.None?
      && v.nonce == 0 && v.flags == 0
      && VaultOk(host, vault, v)
      && t == Pair(Some(v), s.config)
    case Signed(action, prepared) =>
      && s.vault.Some? && s.vault.value.nonce < U64_MAX
      && Permits(s.vault.value, s.config, action)
      && (action.RotateFalconKey? ==> FromOneWireKey(host, action.newHash, prepared))
      && (TouchesConfig(action) ==> ConfigAddress(host, vault).Some?)
      && var bump := if ConfigAddress(host, vault).Some? then ConfigAddress(host, vault).value.1 else 0;
         t == Pair(Some(VaultAfter(s.vault.value, action, prepared)), ConfigAfter(s.config, action, bump))
    case Proposed(newOwner) =>
      && s.vault.Some? && s.config.Some?
      && s.vault.value.RecoveryEnabled()
      && newOwner != ZERO_KEY && newOwner != s.vault.value.owner
      && !s.config.value.HasPending()
      && slot + s.config.value.delay <= U64_MAX
      && t == s.(config := Some(s.config.value.(pending := newOwner, ready := slot + s.config.value.delay)))
    case Finalized =>
      && s.vault.Some? && s.config.Some?
      && s.vault.value.RecoveryEnabled() && s.vault.value.nonce < U64_MAX
      && s.config.value.HasPending() && slot >= s.config.value.ready
      && t == Pair(Some(s.vault.value.(owner := s.config.value.pending, nonce := s.vault.value.nonce + 1)),
                   Some(s.config.value.Cleared()))
  }

  /** Events that consume a nonce. */
  predicate Consumes(e: Event) {
    e.Signed? || e.Finalized?
  }

  // ---------------------------------------------------- what events keep

  lemma VaultAfterKeeps(v: Vault, action: Action, prepared: Prepared)
    requires v.nonce < U64_MAX
    ensures var t := VaultAfter(v, action, prepared);
            && t.nonce == v.nonce + 1
            && t.version == v.version && t.bump == v.bump && t.index == v.index && t.reserved == v.reserved
            && t.flags / 4 == v.flags / 4
            && (t.owner != v.owner ==> ReplacesOwner(action))
            && (t.policy != v.policy || t.Threshold() != v.Threshold() ==> action.ChangePolicy?)
            && (t.RecoveryEnabled() != v.RecoveryEnabled() ==> action.RecoverAccount? && !action.op.RotateOwner?)
            && (t.falconHash != v.falconHash || t.prepared != v.prepared ==> action.RotateFalconKey?)
  {
  }

  lemma VaultAfterOk(host: Host, vault: Key, v: Vault, action: Action, prepared: Prepared)
    requires VaultOk(host, vault, v) && v.nonce < U64_MAX
    requires action.RotateFalconKey? ==> FromOneWireKey(host, action.newHash, prepared)
    requires action.ChangePolicy? ==> Policy.FromByte(action.newPolicy).Some?
    ensures VaultOk(host, vault, VaultAfter(v, action, prepared))
  {
    hide FromOneWireKey;
    VaultAfterKeeps(v, action, prepared);
    var t := VaultAfter(v, action, prepared);
    var creator: Key :| VaultAddress(host, creator, v.index) == Some((vault, v.bump));
    assert VaultAddress(host, creator, t.index) == Some((vault, t.bump));
  }

  /** Every event keeps the vault invariant and the joint recovery invariant. */
  lemma NextKeepsPairOk(host: Host, vault: Key, slot: u64, s: Pair, e: Event, t: Pair)
    requires PairOk(host, vault, s) && Next(host, vault, slot, s, e, t)
    ensures PairOk(host, vault, t)
  {
    match e
    case Quiet =>
    case Created(v) =>
    case Signed(action, prepared) =>
      VaultAfterOk(host, vault, s.vault.value, action, prepared);
      SignedKeepsConfigOk(host, vault, s, action, prepared, t);
    case Proposed(newOwner) =>
    case Finalized =>
      var v, u := s.vault.value, t.vault.value;
      var creator: Key :| VaultAddress(host, creator, v.index) == Some((vault, v.bump));
      assert VaultAddress(host, creator, u.index) == Some((vault, u.bump));
  }

  lemma SignedKeepsConfigOk(host: Host, vault: Key, s: Pair, action: Action, prepared: Prepared, t: Pair)
    requires PairOk(host, vault, s) && Next(host, vault, 0, s, Signed(action, prepared), t)
    ensures t.config.Some? ==> ConfigOk(host, vault, t.vault.value, t.config.value)
  {
    hide VaultOk, VaultAfter, FromOneWireKey, Policy.FromByte;
    VaultAfterKeeps(s.vault.value, action, prepared);
  }

  // ------------------------------------------------------- owner and nonce

  /** The nonce never falls, a vault never disappears, and exactly the consuming
      events advance the nonce, by one, which is impossible at the maximum. */
  lemma NonceStep(host: Host, vault: Key, slot: u64, s: Pair, e: Event, t: Pair)
    requires s.vault.Some? && Next(host, vault, slot, s, e, t)
    ensures t.vault.Some?
    ensures t.vault.value.nonce == s.vault.value.nonce + (if Consumes(e) then 1 else 0)
    ensures s.vault.value.nonce == U64_MAX ==> !Consumes(e)
    ensures t.vault.value.bump == s.vault.value.bump && t.vault.value.index == s.vault.value.index
  {
    if e.Signed? {
      VaultAfterKeeps(s.vault.value, e.action, e.prepared);
    }
  }

  /** The three ways an owner can change, each of which leaves nothing pending. */
  lemma OwnerStep(host: Host, vault: Key, slot: u64, s: Pair, e: Event, t: Pair)
    requires s.vault.Some? && Next(host, vault, slot, s, e, t)
    requires t.vault.value.owner != s.vault.value.owner
    ensures || (e.Signed? && e.action.RotateEd25519Key? && t.vault.value.owner == e.action.newOwner)
            || (e.Signed? && e.action.RecoverAccount? && e.action.op.RotateOwner? && s.vault.value.RecoveryEnabled()
                && t.vault.value.owner == e.action.newEd25519)
            || (e.Finalized? && s.config.Some? && s.config.value.HasPending() && slot >= s.config.value.ready
                && s.vault.value.RecoveryEnabled() && t.vault.value.owner == s.config.value.pending)
    ensures t.vault.value.nonce == s.vault.value.nonce + 1
    ensures t.config.Some? ==> !t.config.value.HasPending()
  {
    NonceStep(host, vault, slot, s, e, t);
    if e.Signed? {
      VaultAfterKeeps(s.vault.value, e.action, e.prepared);
    }
  }

  /** While a proposal is pending, an event either leaves the proposal, its guardian,
      its delay, its ready slot and the owner alone, or consumes a nonce; every
      owner-changing event also removes the proposal. */
  lemma PendingStep(host: Host, vault: Key, slot: u64, s: Pair, e: Event, t: Pair)
    requires s.vault.Some? && s.config.Some? && s.config.value.HasPending()
    requires Next(host, vault, slot, s, e, t)
    ensures t.config.Some?
    ensures !e.Proposed?
    ensures t.config.value.HasPending() ==>
              t.config == s.config && t.vault.value.owner == s.vault.value.owner && !e.Finalized?
    ensures !t.config.value.HasPending() ==> Consumes(e)
  {
    if e.Signed? {
      VaultAfterKeeps(s.vault.value, e.action, e.prepared);
    }
  }
}
