/** Patches as the ordered writes that produce them. */
module Writes {
  import opened Prelude
  import opened Bytes
  import opened State
  import opened Recovery
  import opened Host
  import opened Protocol

  /** New data under an unchanged owner and balance. */
  function Write(w: World, k: Key, data: seq<byte>): World {
    w.(accounts := w.accounts[k := Get(w, k).(data := data)])
  }

  function WriteVault(w: World, k: Key, v: Vault): World {
    Write(w, k, VaultBytes(v))
  }

  function WriteConfig(w: World, k: Key, c: Config): World {
    Write(w, k, ConfigBytes(c))
  }

  /** What a token call leaves behind. */
  function TokenMoved(w: World, pay: Payment, t: TokenWrite): World
    requires Payable(w, pay)
  {
    Write(Write(Move(w, pay), t.source, t.sourceData), t.destination, t.destinationData)
  }

  /** What a token transfer that was decided leaves behind. */
  function TokensApplied(w: World, decided: (Payment, Option<TokenWrite>)): World
    requires Payable(w, decided.0)
  {
    if decided.1.None? then w else TokenMoved(w, decided.0, decided.1.value)
  }

  lemma WriteAt(w: World, k: Key, data: seq<byte>, j: Key)
    ensures Get(Write(w, k, data), j) == if j == k then Get(w, k).(data := data) else Get(w, j)
  {
  }

  lemma MoveSlot(w: World, p: Payment)
    requires Payable(w, p)
    ensures Move(w, p).slot == w.slot
  {
  }

  lemma MovedSlot(w: World, pay: Payment, t: TokenWrite)
    requires Payable(w, pay)
    ensures TokenMoved(w, pay, t).slot == w.slot
  {
    MoveSlot(w, pay);
  }

  lemma WriteIsSetData(w: World, k: Key, owner: Key, data: seq<byte>)
    requires Get(w, k).owner == owner
    ensures SetData(w, k, owner, data) == Write(w, k, data)
  {
  }

  lemma WriteSlot(w: World, k: Key, data: seq<byte>)
    ensures Write(w, k, data).slot == w.slot
  {
  }

  lemma WritesCommute(w: World, j: Key, a: seq<byte>, k: Key, b: seq<byte>)
    requires j != k
    ensures Write(Write(w, j, a), k, b) == Write(Write(w, k, b), j, a)
  {
    var x, y := Write(Write(w, j, a), k, b), Write(Write(w, k, b), j, a);
    assert x.accounts == y.accounts;
  }

  lemma SetsCommute(w: World, j: Key, a: seq<byte>, k: Key, owner: Key, b: seq<byte>)
    requires j != k
    ensures SetData(Write(w, j, a), k, owner, b) == Write(SetData(w, k, owner, b), j, a)
  {
    var x, y := SetData(Write(w, j, a), k, owner, b), Write(SetData(w, k, owner, b), j, a);
    assert x.accounts == y.accounts;
  }

  lemma WriteAfterSet(w: World, k: Key, owner: Key, a: seq<byte>, b: seq<byte>)
    ensures Write(SetData(w, k, owner, a), k, b) == SetData(w, k, owner, b)
  {
    assert Write(SetData(w, k, owner, a), k, b).accounts == SetData(w, k, owner, b).accounts;
  }

  lemma LamportsThenWrite(w: World, j: Key, n: nat, k: Key, data: seq<byte>)
    ensures SetLamports(Write(w, k, data), j, n) == Write(SetLamports(w, j, n), k, data)
    ensures forall i :: Get(Write(w, k, data), i).lamports == Get(w, i).lamports
  {
    var x, y := SetLamports(Write(w, k, data), j, n), Write(SetLamports(w, j, n), k, data);
    assert x.accounts == y.accounts;
  }

  lemma MoveThenWrite(w: World, p: Payment, k: Key, data: seq<byte>)
    requires Payable(w, p)
    ensures Payable(Write(w, k, data), p)
    ensures Move(Write(w, k, data), p) == Write(Move(w, p), k, data)
  {
    hide Get, Write, SetLamports;
    LamportsThenWrite(w, p.from, 0, k, data);
    if p.amount > 0 {
      var left := Get(w, p.from).lamports - p.amount;
      var debited := SetLamports(w, p.from, left);
      LamportsThenWrite(w, p.from, left, k, data);
      LamportsThenWrite(debited, p.to, Get(debited, p.to).lamports + p.amount, k, data);
    }
  }

  lemma MoveNothing(w: World)
    ensures Payable(w, NO_PAYMENT) && Move(w, NO_PAYMENT) == w
  {
  }

  lemma MoveKeepsClaim(w: World, p: Payment, m: Meta)
    requires Payable(w, p)
    ensures CanClaim(Move(w, p), m) == CanClaim(w, m)
  {
    hide Move, Get, LamportsAfter;
    MoveAt(w, p, m.key);
  }

  // ------------------------------------------------------ patches

  lemma ApplyRecord(host: Host, w: World, p: Patch)
    requires p.record.Some? && p.config.None? && p.payment == NO_PAYMENT && p.tokens.None?
    requires Get(w, p.vault).owner == host.programId
    ensures Apply(host, w, p) == WriteVault(w, p.vault, p.record.value)
  {
    hide VaultBytes, Get, SetData, Write;
    WriteIsSetData(w, p.vault, host.programId, VaultBytes(p.record.value));
  }

  lemma ApplyConfig(host: Host, w: World, p: Patch)
    requires p.record.None? && p.config.Some? && p.payment == NO_PAYMENT && p.tokens.None?
    requires Get(w, p.config.value.key).owner == host.programId
    ensures Apply(host, w, p) == WriteConfig(w, p.config.value.key, p.config.value.config)
  {
    hide ConfigBytes, Get, SetData, Write;
    WriteIsSetData(w, p.config.value.key, host.programId, ConfigBytes(p.config.value.config));
  }

  /** Vault first, configuration second. */
  lemma ApplyBoth(host: Host, w: World, p: Patch)
    requires p.record.Some? && p.config.Some? && p.payment.amount == 0 && p.tokens.None?
    requires Get(w, p.vault).owner == host.programId && Get(w, p.config.value.key).owner == host.programId
    ensures Apply(host, w, p) ==
            WriteConfig(WriteVault(w, p.vault, p.record.value), p.config.value.key, p.config.value.config)
  {
    hide VaultBytes, ConfigBytes, Get, SetData, Write;
    var written := WriteVault(w, p.vault, p.record.value);
    WriteIsSetData(w, p.vault, host.programId, VaultBytes(p.record.value));
    WriteAt(w, p.vault, VaultBytes(p.record.value), p.config.value.key);
    WriteIsSetData(written, p.config.value.key, host.programId, ConfigBytes(p.config.value.config));
  }

  /** The handlers that write the configuration first end in the same world. */
  lemma ApplyBothReversed(host: Host, w: World, p: Patch)
    requires p.record.Some? && p.config.Some? && p.payment.amount == 0 && p.tokens.None?
    requires Get(w, p.vault).owner == host.programId && Get(w, p.config.value.key).owner == host.programId
    requires p.vault != p.config.value.key
    ensures Apply(host, w, p) ==
            WriteVault(WriteConfig(w, p.config.value.key, p.config.value.config), p.vault, p.record.value)
  {
    hide VaultBytes, ConfigBytes, Get, SetData, Write;
    ApplyBoth(host, w, p);
    WritesCommute(w, p.vault, VaultBytes(p.record.value), p.config.value.key, ConfigBytes(p.config.value.config));
  }

  /** The lamports move after the record is written. */
  lemma ApplyPaid(host: Host, w: World, p: Patch)
    requires p.record.Some? && p.config.None? && p.tokens.None? && Payable(w, p.payment)
    requires Get(w, p.vault).owner == host.programId
    ensures Payable(WriteVault(w, p.vault, p.record.value), p.payment)
    ensures Apply(host, w, p) == Move(WriteVault(w, p.vault, p.record.value), p.payment)
  {
    hide VaultBytes, Get, SetData, Write, Move;
    MoveThenWrite(w, p.payment, p.vault, VaultBytes(p.record.value));
    MoveAt(w, p.payment, p.vault);
    WriteIsSetData(Move(w, p.payment), p.vault, host.programId, VaultBytes(p.record.value));
  }

  lemma ApplyThenTokens(host: Host, w: World, p: Patch)
    requires Payable(w, p.payment) && p.tokens.Some?
    ensures var t := p.tokens.value;
            Apply(host, w, p) ==
            Write(Write(Apply(host, w, p.(tokens := None)), t.source, t.sourceData), t.destination, t.destinationData)
  {
    hide VaultBytes, ConfigBytes, Get, SetData, Write, Move;
    var t, z := p.tokens.value, Apply(host, w, p.(tokens := None));
    WriteIsSetData(z, t.source, Get(z, t.source).owner, t.sourceData);
    var s := Write(z, t.source, t.sourceData);
    WriteIsSetData(s, t.destination, Get(s, t.destination).owner, t.destinationData);
  }

  lemma ApplyTokens(host: Host, w: World, p: Patch)
    requires p.record.Some? && p.config.None? && Payable(w, p.payment)
    requires p.tokens.None? ==> p.payment == NO_PAYMENT
    requires Get(w, p.vault).owner == host.programId
    ensures Payable(WriteVault(w, p.vault, p.record.value), p.payment)
    ensures Apply(host, w, p) == TokensApplied(WriteVault(w, p.vault, p.record.value), (p.payment, p.tokens))
  {
    hide VaultBytes, Get, SetData, Write, Move, Apply;
    var untokened := p.(tokens := None);
    ApplyPaid(host, w, untokened);
    if p.tokens.Some? {
      ApplyThenTokens(host, w, p);
    } else {
      MoveNothing(WriteVault(w, p.vault, p.record.value));
    }
  }

  /** The configuration was created before the vault's nonce was written. */
  lemma ApplyCreated(host: Host, w: World, p: Patch)
    requires p.record.Some? && p.config.Some? && p.tokens.None? && Payable(w, p.payment)
    requires Get(w, p.vault).owner == host.programId && p.vault != p.config.value.key
    ensures Apply(host, w, p) ==
            WriteVault(SetData(Move(w, p.payment), p.config.value.key, host.programId,
                               ConfigBytes(p.config.value.config)),
                       p.vault, p.record.value)
  {
    hide VaultBytes, ConfigBytes, Move, Get, Write, SetData;
    var u := Move(w, p.payment);
    MoveAt(w, p.payment, p.vault);
    WriteIsSetData(u, p.vault, host.programId, VaultBytes(p.record.value));
    SetsCommute(u, p.vault, VaultBytes(p.record.value), p.config.value.key, host.programId,
                ConfigBytes(p.config.value.config));
  }

  /** The world once a configuration is created or updated. */
  function Configured(host: Host, w: World, payer: Key, config: Key, decided: (Config, nat)): World
    requires Payable(w, Payment(payer, config, decided.1))
  {
    SetData(Move(w, Payment(payer, config, decided.1)), config, host.programId, ConfigBytes(decided.0))
  }

  lemma UpdatedConfig(host: Host, w: World, payer: Key, config: Key, c: Config)
    requires Get(w, config).owner == host.programId
    ensures WriteConfig(w, config, c) == Configured(host, w, payer, config, (c, 0))
    ensures WriteConfig(w, config, c).slot == w.slot
  {
    hide ConfigBytes;
    WriteIsSetData(w, config, host.programId, ConfigBytes(c));
  }

  lemma ConfiguredPatch(host: Host, w: World, p: Patch)
    requires p.record.Some? && p.config.Some? && p.tokens.None? && p.payment.to == p.config.value.key
    requires Payable(w, p.payment) && Get(w, p.vault).owner == host.programId && p.vault != p.config.value.key
    ensures Apply(host, w, p) ==
            WriteVault(Configured(host, w, p.payment.from, p.config.value.key,
                                  (p.config.value.config, p.payment.amount)),
                       p.vault, p.record.value)
    ensures Apply(host, w, p).slot == w.slot
  {
    hide VaultBytes, ConfigBytes, Move, Get, Apply;
    ApplyCreated(host, w, p);
    MoveAt(w, p.payment, p.vault);
  }

  lemma InitializedWorld(host: Host, w: World, pay: Payment, v: Vault)
    requires Payable(w, pay)
    ensures WriteVault(SetData(Move(w, pay), pay.to, host.programId, Zeros(ACCOUNT_LEN)), pay.to, v)
            == Apply(host, w, Patch(pay.to, Some(v), None, pay, None))
    ensures Apply(host, w, Patch(pay.to, Some(v), None, pay, None)).slot == w.slot
  {
    hide VaultBytes, Zeros, Move, Get;
    MoveAt(w, pay, pay.to);
    WriteAfterSet(Move(w, pay), pay.to, host.programId, Zeros(ACCOUNT_LEN), VaultBytes(v));
  }

  /** Writing a vault does not change what clearing a configuration decides. */
  lemma ClearAfterWrite(host: Host, w: World, vault: Key, v: Vault, config: Meta)
    requires |Get(w, vault).data| == ACCOUNT_LEN
    ensures ClearPending(host, WriteVault(w, vault, v), vault, config) == ClearPending(host, w, vault, config)
  {
    hide VaultBytes, ConfigOf, ConfigAddress;
  }

  lemma ClearedPatch(host: Host, w: World, vault: Key, v: Vault, config: Meta)
    requires Get(w, vault).owner == host.programId
    requires ClearPending(host, w, vault, config).Ok?
    ensures var p := Patch(vault, Some(v), ClearPending(host, w, vault, config).value, NO_PAYMENT, None);
            Apply(host, w, p) ==
            if p.config.None? then WriteVault(w, vault, v)
            else WriteConfig(WriteVault(w, vault, v), p.config.value.key, p.config.value.config)
  {
    hide VaultBytes, ConfigBytes, Apply, Write, LoadConfig, ConfigAddress;
    var p := Patch(vault, Some(v), ClearPending(host, w, vault, config).value, NO_PAYMENT, None);
    if p.config.None? {
      ApplyRecord(host, w, p);
    } else {
      ApplyBoth(host, w, p);
    }
  }
}
