/** The world the program runs in: accounts, the slot clock, and everything the
    program calls but does not contain (hashing, signature checks, address
    derivation, the Token program), taken as arbitrary functions. */
module Host {
  import opened Prelude
  import opened Bytes
  import opened State

  datatype Verdict = Valid | Invalid | Malformed

  /** The arguments of a `TransferChecked` call into a token program. */
  datatype TokenCall = TokenCall(
    program: Key, source: Key, mint: Key, destination: Key, authority: Key, amount: u64, decimals: byte,
    sourceData: seq<byte>, mintData: seq<byte>, destinationData: seq<byte>)

  /** What a successful call leaves in the two token accounts, and the lamports it
      moves from one to the other (native accounts carry lamports). */
  datatype TokenResult = TokenResult(sourceData: seq<byte>, destinationData: seq<byte>, moved: nat)

  /** `vaults` are the addresses in use as vaults, finitely many in any history; no
      instruction reads them, and only assumptions mention them. */
  datatype Host = Host(
    programId: Key,
    chainDomain: Key,
    ed25519Program: Key,
    instructionsSysvar: Key,
    tokenProgram: Key,
    token2022Program: Key,
    vaultRent: nat,
    configRent: nat,
    sha: seq<byte> -> Key,
    create: seq<seq<byte>> -> Option<Key>,
    find: seq<seq<byte>> -> Option<(Key, byte)>,
    ed25519: (Key, seq<byte>, seq<byte>) -> bool,
    falcon: (Prepared, seq<byte>, seq<byte>) -> Verdict,
    falconRaw: (seq<byte>, seq<byte>, seq<byte>) -> Verdict,
    prepare: seq<byte> -> Option<Prepared>,
    token: TokenCall -> Option<TokenResult>,
    vaults: set<Key>)

  /** The System program's address is all zeros. */
  const SYSTEM: Key := Zeros(32)

  // -------------------------------------------------------------- addresses

  /** ASCII "dualkey". */
  const VAULT_SEED: seq<byte> := [0x64, 0x75, 0x61, 0x6C, 0x6B, 0x65, 0x79]
  /** ASCII "dualkey-rec". */
  const CONFIG_SEED: seq<byte> := [0x64, 0x75, 0x61, 0x6C, 0x6B, 0x65, 0x79, 0x2D, 0x72, 0x65, 0x63]

  function VaultSeeds(creator: Key, index: u32): seq<seq<byte>> {
    [VAULT_SEED, creator, Le32(index)]
  }

  function ConfigSeeds(vault: Key): seq<seq<byte>> {
    [CONFIG_SEED, vault]
  }

  /** The seeds of the two address families, spelled out, and that different creators,
      indices or vaults have different seeds. */
  lemma SeedBytes(creator: Key, index: u32, vault: Key)
    ensures VaultSeeds(creator, index) == [[0x64, 0x75, 0x61, 0x6C, 0x6B, 0x65, 0x79], creator, Le32(index)]
    ensures ConfigSeeds(vault) == [[0x64, 0x75, 0x61, 0x6C, 0x6B, 0x65, 0x79, 0x2D, 0x72, 0x65, 0x63], vault]
    ensures forall c: Key, i: u32 :: VaultSeeds(c, i) == VaultSeeds(creator, index) ==> c == creator && i == index
    ensures forall v: Key :: ConfigSeeds(v) == ConfigSeeds(vault) ==> v == vault
  {
    forall c: Key, i: u32 | VaultSeeds(c, i) == VaultSeeds(creator, index) ensures c == creator && i == index {
      assert VaultSeeds(c, i)[1] == VaultSeeds(creator, index)[1];
      assert VaultSeeds(c, i)[2] == VaultSeeds(creator, index)[2];
      WordRoundTrip(0, i);
      WordRoundTrip(0, index);
    }
    forall v: Key | ConfigSeeds(v) == ConfigSeeds(vault) ensures v == vault {
      assert ConfigSeeds(v)[1] == ConfigSeeds(vault)[1];
    }
  }

  /** `pda::derive` and `derive_recovery_config`: canonical address and bump. */
  function VaultAddress(host: Host, creator: Key, index: u32): Option<(Key, byte)> {
    host.find(VaultSeeds(creator, index))
  }

  function ConfigAddress(host: Host, vault: Key): Option<(Key, byte)> {
    host.find(ConfigSeeds(vault))
  }

  /** The derivation succeeds and names exactly this address. */
  function VerifyAddress(derived: Option<(Key, byte)>, expected: Key): Result<byte> {
    if derived.None? || derived.value.0 != expected then Err(InvalidPda) else Ok(derived.value.1)
  }

  /** An address the program derives from an account it is given. */
  ghost predicate DerivedFrom(host: Host, k: Key, given: Key) {
    || (ConfigAddress(host, given).Some? && k == ConfigAddress(host, given).value.0)
    || exists index: u32 :: VaultAddress(host, given, index).Some? && k == VaultAddress(host, given, index).value.0
  }

  /** What the deployment guarantees: the search and the check of program addresses
      agree, no two of the addresses in use as vaults share a configuration address
      (that would be a SHA-256 collision), rent is not free, and this program is none of
      the programs it calls. */
  ghost predicate HostOk(host: Host) {
    && (forall seeds {:trigger host.find(seeds)} ::
          host.find(seeds).Some? ==>
            host.create(seeds + [[host.find(seeds).value.1]]) == Some(host.find(seeds).value.0))
    && (forall a, b {:trigger ConfigAddress(host, a), ConfigAddress(host, b)} ::
          a in host.vaults && b in host.vaults && SharedConfig(host, a, b) ==> a == b)
    && host.vaultRent > 0 && host.configRent > 0
    && host.programId != SYSTEM
    && host.programId != host.tokenProgram && host.programId != host.token2022Program
    && host.tokenProgram != SYSTEM && host.token2022Program != SYSTEM
  }

  predicate SharedConfig(host: Host, a: Key, b: Key) {
    && ConfigAddress(host, a).Some? && ConfigAddress(host, b).Some?
    && ConfigAddress(host, a).value.0 == ConfigAddress(host, b).value.0
  }

  lemma NoSharedConfig(host: Host, a: Key, b: Key)
    requires HostOk(host) && a in host.vaults && b in host.vaults && SharedConfig(host, a, b)
    ensures a == b
  {
  }

  // --------------------------------------------------------------- accounts

  datatype Account = Account(owner: Key, lamports: nat, data: seq<byte>)

  datatype World = World(accounts: map<Key, Account>, slot: u64)

  /** An address nobody has used is an empty System account. */
  function Get(w: World, k: Key): Account {
    if k in w.accounts then w.accounts[k] else Account(SYSTEM, 0, [])
  }

  function SetLamports(w: World, k: Key, n: nat): World {
    w.(accounts := w.accounts[k := Get(w, k).(lamports := n)])
  }

  function SetData(w: World, k: Key, owner: Key, data: seq<byte>): World {
    w.(accounts := w.accounts[k := Get(w, k).(owner := owner, data := data)])
  }

  /** Lamports moved by an instruction; an amount of zero moves nothing. */
  datatype Payment = Payment(from: Key, to: Key, amount: nat)

  const NO_PAYMENT := Payment(SYSTEM, SYSTEM, 0)

  predicate Payable(w: World, p: Payment) {
    p.amount == 0 || p.amount <= Get(w, p.from).lamports
  }

  function Move(w: World, p: Payment): World
    requires Payable(w, p)
  {
    if p.amount == 0 then w
    else
      var debited := SetLamports(w, p.from, Get(w, p.from).lamports - p.amount);
      SetLamports(debited, p.to, Get(debited, p.to).lamports + p.amount)
  }

  function LamportsAfter(w: World, pay: Payment, k: Key): nat
    requires Payable(w, pay)
  {
    if pay.amount == 0 then Get(w, k).lamports
    else
      var left := if k == pay.from then Get(w, k).lamports - pay.amount else Get(w, k).lamports;
      if k == pay.to then left + pay.amount else left
  }

  /** A payment touches two balances and nothing else. */
  lemma MoveAt(w: World, p: Payment, k: Key)
    requires Payable(w, p)
    ensures Get(Move(w, p), k) == Get(w, k).(lamports := LamportsAfter(w, p, k))
    ensures Move(w, p).slot == w.slot
  {
  }

  lemma SetDataAt(w: World, k: Key, owner: Key, data: seq<byte>, j: Key)
    ensures Get(SetData(w, k, owner, data), j) == if j == k then Get(w, k).(owner := owner, data := data) else Get(w, j)
  {
  }

  /** The runtime drops every account left without lamports. */
  function Purge(w: World): World {
    w.(accounts := map k | k in w.accounts && w.accounts[k].lamports > 0 :: w.accounts[k])
  }

  lemma GetPurged(w: World, k: Key)
    ensures Get(Purge(w), k) == if Get(w, k).lamports > 0 then Get(w, k) else Account(SYSTEM, 0, [])
  {
  }
}
