/** The key-value storage: one flat string-keyed store that behaves as independent maps. */
module Storage {
  import opened Encoding
  import opened Types
  import HashChain

  datatype Option<+T> = None | Some(value: T)

  /** A stored value: the JSON image of an entity (decoding inverts encoding), or raw bytes. */
  datatype Value =
    | BlockValue(block: Block) | TxValue(tx: Transaction) | AccountValue(account: Account)
    | GenesisValue(genesis: Genesis) | Raw(bytes: Bytes)

  /** The independent maps the flat store is meant to be. */
  datatype Store = Store(
    blocks: map<U64, Block>, heights: map<Hash, U64>, latest: Option<U64>,
    txs: map<Hash, Transaction>, accounts: map<Address, Account>, genesis: Option<Genesis>)

  const EMPTY_STORE := Store(map[], map[], None, map[], map[], None)

  /** GetLatestBlockHeight answers 0 when no height was ever written. */
  function LatestHeight(s: Store): U64 { if s.latest.Some? then s.latest.value else 0 }

  function WithBlock(sha: Sha, s: Store, b: Block): Store {
    s.(blocks := s.blocks[b.header.number := b],
       heights := s.heights[HeaderHash(sha, b.header) := b.header.number],
       latest := Some(b.header.number))
  }

  // ---------- keys ----------

  datatype Family = Heights | Blocks | Txs | Accounts | GenesisConfig | Latest | Other

  /** The family a key belongs to, read off its text. */
  function FamilyOf(key: string): Family {
    if |key| < 7 then (if |key| > 0 && key[0] == 't' then Txs else Other)
    else if key[0] == 'b' then (if key[6] == 'h' then Heights else Blocks)
    else if key[0] == 't' then Txs
    else if key[0] == 'a' then Accounts
    else if key[0] == 'g' then GenesisConfig
    else if key[0] == 'm' then Latest
    else Other
  }

  function BlockKey(height: U64): (k: string)
    ensures FamilyOf(k) == Blocks
  {
    "block:" + Decimal(height)
  }

  function HashKey(hash: Hash): (k: string)
    ensures FamilyOf(k) == Heights
  {
    "block:hash:" + Hex(hash)
  }

  function TxKey(hash: Hash): (k: string)
    ensures FamilyOf(k) == Txs
  {
    "tx:" + Hex(hash)
  }

  function AccountKey(address: Address): (k: string)
    ensures FamilyOf(k) == Accounts
  {
    "account:" + Hex(address)
  }

  function GenesisKey(): (k: string)
    ensures FamilyOf(k) == GenesisConfig
  {
    "genesis:config"
  }

  function LatestKey(): (k: string)
    ensures FamilyOf(k) == Latest
  {
    "meta:latest_height"
  }

  lemma SuffixEqual(p: string, s: string, t: string)
    requires p + s == p + t
    ensures s == t
  {
    assert (p + s)[|p|..] == s && (p + t)[|p|..] == t;
  }

  /** No two heights share a block key. */
  lemma BlockKeyInjective(m: U64, n: U64)
    requires BlockKey(m) == BlockKey(n)
    ensures m == n
  {
    SuffixEqual("block:", Decimal(m), Decimal(n));
    DecimalInjective(m, n);
  }

  lemma HashKeyInjective(a: Hash, b: Hash)
    requires HashKey(a) == HashKey(b)
    ensures a == b
  {
    SuffixEqual("block:hash:", Hex(a), Hex(b));
    HexInjective(a, b);
  }

  lemma TxKeyInjective(a: Hash, b: Hash)
    requires TxKey(a) == TxKey(b)
    ensures a == b
  {
    SuffixEqual("tx:", Hex(a), Hex(b));
    HexInjective(a, b);
  }

  lemma AccountKeyInjective(a: Address, b: Address)
    requires AccountKey(a) == AccountKey(b)
    ensures a == b
  {
    SuffixEqual("account:", Hex(a), Hex(b));
    HexInjective(a, b);
  }

  /** The keys as text. */
  lemma KeysSpelled(height: U64, hash: Hash, address: Address)
    ensures BlockKey(height) == "block:" + Decimal(height) && HashKey(hash) == "block:hash:" + Hex(hash)
    ensures TxKey(hash) == "tx:" + Hex(hash) && AccountKey(address) == "account:" + Hex(address)
    ensures GenesisKey() == "genesis:config" && LatestKey() == "meta:latest_height"
  {}

  // ---------- representation ----------

  type Db = map<string, Value>

  ghost predicate RepBlocks(db: Db, s: Store) {
    forall h: U64 :: (BlockKey(h) in db <==> h in s.blocks)
                     && (h in s.blocks ==> db[BlockKey(h)] == BlockValue(s.blocks[h]))
  }

  ghost predicate RepHeights(db: Db, s: Store) {
    forall x: Hash :: (HashKey(x) in db <==> x in s.heights)
                      && (x in s.heights ==> db[HashKey(x)] == Raw(BE64(s.heights[x])))
  }

  ghost predicate RepTxs(db: Db, s: Store) {
    forall x: Hash :: (TxKey(x) in db <==> x in s.txs)
                      && (x in s.txs ==> db[TxKey(x)] == TxValue(s.txs[x]))
  }

  ghost predicate RepAccounts(db: Db, s: Store) {
    forall a: Address :: (AccountKey(a) in db <==> a in s.accounts)
                         && (a in s.accounts ==> db[AccountKey(a)] == AccountValue(s.accounts[a]))
  }

  ghost predicate RepMeta(db: Db, s: Store) {
    && (LatestKey() in db <==> s.latest.Some?)
    && (s.latest.Some? ==> db[LatestKey()] == Raw(BE64(s.latest.value)))
    && (GenesisKey() in db <==> s.genesis.Some?)
    && (s.genesis.Some? ==> db[GenesisKey()] == GenesisValue(s.genesis.value))
  }

  /** The flat store holds exactly the six maps. */
  ghost predicate Represents(db: Db, s: Store) {
    RepBlocks(db, s) && RepHeights(db, s) && RepTxs(db, s) && RepAccounts(db, s) && RepMeta(db, s)
  }

  /** A put under one family's key leaves every other family as it was. */
  lemma PutBlock(db: Db, s: Store, h: U64, b: Block)
    requires Represents(db, s)
    ensures Represents(db[BlockKey(h) := BlockValue(b)], s.(blocks := s.blocks[h := b]))
  {
    forall g: U64 | BlockKey(g) == BlockKey(h) ensures g == h { BlockKeyInjective(g, h); }
  }

  lemma PutHeight(db: Db, s: Store, x: Hash, h: U64)
    requires Represents(db, s)
    ensures Represents(db[HashKey(x) := Raw(BE64(h))], s.(heights := s.heights[x := h]))
  {
    forall y: Hash | HashKey(y) == HashKey(x) ensures y == x { HashKeyInjective(y, x); }
  }

  lemma PutTx(db: Db, s: Store, x: Hash, tx: Transaction)
    requires Represents(db, s)
    ensures Represents(db[TxKey(x) := TxValue(tx)], s.(txs := s.txs[x := tx]))
  {
    forall y: Hash | TxKey(y) == TxKey(x) ensures y == x { TxKeyInjective(y, x); }
  }

  lemma PutAccount(db: Db, s: Store, a: Address, v: Account)
    requires Represents(db, s)
    ensures Represents(db[AccountKey(a) := AccountValue(v)], s.(accounts := s.accounts[a := v]))
  {
    forall c: Address | AccountKey(c) == AccountKey(a) ensures c == a { AccountKeyInjective(c, a); }
  }

  lemma PutLatest(db: Db, s: Store, h: U64)
    requires Represents(db, s)
    ensures Represents(db[LatestKey() := Raw(BE64(h))], s.(latest := Some(h)))
  {}

  lemma PutGenesis(db: Db, s: Store, g: Genesis)
    requires Represents(db, s)
    ensures Represents(db[GenesisKey() := GenesisValue(g)], s.(genesis := Some(g)))
  {}

  class LevelDBStorage {
    const sha: Sha
    var db: Db
    var writesTotal: nat
    ghost var store: Store

    ghost predicate Valid()
      reads this
    {
      Represents(db, store)
    }

    constructor (sha: Sha)
      ensures Valid() && store == EMPTY_STORE && this.sha == sha
    {
      this.sha := sha;
      db := map[];
      writesTotal := 0;
      store := EMPTY_STORE;
    }

    /** Three successive puts: the block, its digest's height, the latest height. */
    method SaveBlock(block: Block)
      requires Valid()
      modifies this
      ensures Valid() && store == WithBlock(sha, old(store), block)
      ensures writesTotal == old(writesTotal) + 1
    {
      PutBlock(db, store, block.header.number, block);
      db := db[BlockKey(block.header.number) := BlockValue(block)];
      store := store.(blocks := store.blocks[block.header.number := block]);
      writesTotal := writesTotal + 1;
      var digest := HeaderHash(sha, block.header);
      PutHeight(db, store, digest, block.header.number);
      db := db[HashKey(digest) := Raw(BE64(block.header.number))];
      store := store.(heights := store.heights[digest := block.header.number]);
      UpdateLatestBlockHeight(block.header.number);
    }

    method UpdateLatestBlockHeight(height: U64)
      requires Valid()
      modifies this
      ensures Valid() && store == old(store).(latest := Some(height)) && writesTotal == old(writesTotal)
    {
      PutLatest(db, store, height);
      db := db[LatestKey() := Raw(BE64(height))];
      store := store.(latest := Some(height));
    }

    method GetBlock(height: U64) returns (r: Option<Block>)
      requires Valid()
      ensures r == if height in store.blocks then Some(store.blocks[height]) else None
    {
      var key := BlockKey(height);
      if key in db && db[key].BlockValue? {
        r := Some(db[key].block);
      } else {
        r := None;
      }
    }

    /** Reads the height under the digest, then the block under the height. */
    method GetBlockByHash(hash: Hash) returns (r: Option<Block>)
      requires Valid()
      ensures r == if hash in store.heights && store.heights[hash] in store.blocks
                   then Some(store.blocks[store.heights[hash]]) else None
    {
      var key := HashKey(hash);
      if key !in db {
        return None;
      }
      assert hash in store.heights;
      BE64RoundTrip(store.heights[hash]);
      r := GetBlock(FromBE64(db[key].bytes));
    }

    method GetLatestBlockHeight() returns (height: U64)
      requires Valid()
      ensures height == LatestHeight(store)
    {
      if LatestKey() !in db {
        return 0;
      }
      BE64RoundTrip(store.latest.value);
      height := FromBE64(db[LatestKey()].bytes);
    }

    method SaveTransaction(tx: Transaction)
      requires Valid()
      modifies this
      ensures Valid() && store == old(store).(txs := old(store).txs[TransactionHash(sha, tx) := tx])
    {
      var digest := TransactionHash(sha, tx);
      PutTx(db, store, digest, tx);
      db := db[TxKey(digest) := TxValue(tx)];
      store := store.(txs := store.txs[digest := tx]);
    }

    method GetTransaction(hash: Hash) returns (r: Option<Transaction>)
      requires Valid()
      ensures r == if hash in store.txs then Some(store.txs[hash]) else None
    {
      var key := TxKey(hash);
      if key in db && db[key].TxValue? {
        r := Some(db[key].tx);
      } else {
        r := None;
      }
    }

    method SaveAccount(account: Account)
      requires Valid()
      modifies this
      ensures Valid() && store == old(store).(accounts := old(store).accounts[account.address := account])
    {
      PutAccount(db, store, account.address, account);
      db := db[AccountKey(account.address) := AccountValue(account)];
      store := store.(accounts := store.accounts[account.address := account]);
    }

    method GetAccount(address: Address) returns (r: Option<Account>)
      requires Valid()
      ensures r == if address in store.accounts then Some(store.accounts[address]) else None
    {
      var key := AccountKey(address);
      if key in db && db[key].AccountValue? {
        r := Some(db[key].account);
      } else {
        r := None;
      }
    }

    method SaveGenesisBlock(genesis: Genesis)
      requires Valid()
      modifies this
      ensures Valid() && store == old(store).(genesis := Some(genesis))
    {
      PutGenesis(db, store, genesis);
      db := db[GenesisKey() := GenesisValue(genesis)];
      store := store.(genesis := Some(genesis));
    }

    method GetGenesisBlock() returns (r: Option<Genesis>)
      requires Valid()
      ensures r == store.genesis
    {
      if GenesisKey() in db && db[GenesisKey()].GenesisValue? {
        r := Some(db[GenesisKey()].genesis);
      } else {
        r := None;
      }
    }
  }
}
