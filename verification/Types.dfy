/** Blocks, transactions, accounts and their digests. SHA-256 is a parameter `sha`:
    nothing is assumed about it beyond producing 32 bytes. */
module Types {
  import opened Encoding

  function Zeros(n: nat): (b: Bytes)
    ensures |b| == n
  {
    seq(n, i => 0)
  }

  type Hash = b: Bytes | |b| == 32 witness Zeros(32)
  type Address = b: Bytes | |b| == 20 witness Zeros(20)
  type Signature = b: Bytes | |b| == 64 witness Zeros(64)
  type Sha = Bytes -> Hash

  const BLOCK_SECONDS: int := 2
  const MAX_BLOCK_SIZE: int := 2097152
  const VALIDATOR_COUNT: nat := 21
  const MIN_STAKE_AMOUNT: nat := 10000
  const SHARD_ID: U64 := 1

  datatype BlockHeader = BlockHeader(
    number: U64, timestamp: I64, prevHash: Hash, txRoot: Hash, stateRoot: Hash,
    validator: Address, signature: Signature, shardID: U64, adjacentHashes: seq<Hash>)

  datatype Block = Block(header: BlockHeader, transactions: seq<Hash>)

  datatype Transaction = Transaction(
    shardID: U64, from: Address, to: Address, amount: U64, gasPrice: U64, gasLimit: U64,
    nonce: U64, data: Bytes, signature: Signature)

  datatype Account = Account(address: Address, balance: U64, nonce: U64, staked: U64)

  datatype Genesis = Genesis(timestamp: I64, initAccounts: seq<Account>)

  function Sum256(sha: Sha, data: Bytes): Hash { sha(data) }

  // ---------- header ----------

  function HeaderBytes(h: BlockHeader): (b: Bytes)
    ensures |b| == 132
  {
    LE64(h.number) + LE64(TwosComplement(h.timestamp)) + h.prevHash + h.txRoot + h.stateRoot + h.validator
  }

  function HeaderHash(sha: Sha, h: BlockHeader): Hash { Sum256(sha, HeaderBytes(h)) }

  /** The fields the header digest commits to. */
  ghost predicate SameHashedFields(g: BlockHeader, h: BlockHeader) {
    && g.number == h.number && g.timestamp == h.timestamp && g.prevHash == h.prevHash
    && g.txRoot == h.txRoot && g.stateRoot == h.stateRoot && g.validator == h.validator
  }

  lemma SixParts(b: Bytes, p0: Bytes, p1: Bytes, p2: Bytes, p3: Bytes, p4: Bytes, p5: Bytes)
    requires |p0| == 8 && |p1| == 8 && |p2| == 32 && |p3| == 32 && |p4| == 32 && |p5| == 20
    requires b == p0 + p1 + p2 + p3 + p4 + p5
    ensures |b| == 132
    ensures b[..8] == p0 && b[8..16] == p1 && b[16..48] == p2
    ensures b[48..80] == p3 && b[80..112] == p4 && b[112..] == p5
  {}

  /** The header layout loses nothing of the six hashed fields, and nothing else enters it. */
  lemma HeaderBytesInjective(g: BlockHeader, h: BlockHeader)
    ensures HeaderBytes(g) == HeaderBytes(h) <==> SameHashedFields(g, h)
  {
    if HeaderBytes(g) == HeaderBytes(h) {
      var b := HeaderBytes(g);
      SixParts(b, LE64(g.number), LE64(TwosComplement(g.timestamp)), g.prevHash, g.txRoot, g.stateRoot, g.validator);
      SixParts(b, LE64(h.number), LE64(TwosComplement(h.timestamp)), h.prevHash, h.txRoot, h.stateRoot, h.validator);
      LE64Injective(g.number, h.number);
      LE64Injective(TwosComplement(g.timestamp), TwosComplement(h.timestamp));
    }
  }

  /** Where each hashed field lies: two little-endian words, three digests, an address. */
  lemma HeaderLayout(sha: Sha, h: BlockHeader)
    ensures var b := HeaderBytes(h);
            && HeaderHash(sha, h) == sha(b) && |b| == 132
            && LittleEndianValue(b[..8]) == h.number
            && LittleEndianValue(b[8..16]) == (h.timestamp as int) % 0x1_0000_0000_0000_0000
            && b[16..48] == h.prevHash && b[48..80] == h.txRoot && b[80..112] == h.stateRoot && b[112..] == h.validator
  {
    LE64RoundTrip(h.number);
    LE64RoundTrip(TwosComplement(h.timestamp));
    SixParts(HeaderBytes(h), LE64(h.number), LE64(TwosComplement(h.timestamp)), h.prevHash, h.txRoot, h.stateRoot,
      h.validator);
  }

  // ---------- transaction root ----------

  function Concat(hashes: seq<Hash>): (b: Bytes)
    ensures |b| == 32 * |hashes|
  {
    if hashes == [] then [] else Concat(hashes[..|hashes| - 1]) + hashes[|hashes| - 1]
  }

  lemma {:induction false} ConcatInjective(a: seq<Hash>, b: seq<Hash>)
    requires Concat(a) == Concat(b)
    ensures a == b
  {
    assert 32 * |a| == |Concat(a)| == |Concat(b)| == 32 * |b|;
    if a != [] {
      var n := |a| - 1;
      assert Concat(a)[..32 * n] == Concat(a[..n]) && Concat(b)[..32 * n] == Concat(b[..n]);
      assert Concat(a)[32 * n..] == a[n] && Concat(b)[32 * n..] == b[n];
      ConcatInjective(a[..n], b[..n]);
      assert a == a[..n] + [a[n]] && b == b[..n] + [b[n]];
    }
  }

  /** The list lies in order, 32 bytes a hash. */
  lemma {:induction false} ConcatAt(hashes: seq<Hash>, i: nat)
    requires i < |hashes|
    ensures Concat(hashes)[32 * i..32 * i + 32] == hashes[i]
    decreases |hashes|
  {
    var n := |hashes| - 1;
    if i < n {
      ConcatAt(hashes[..n], i);
      assert Concat(hashes)[..32 * n] == Concat(hashes[..n]);
      assert Concat(hashes)[32 * i..32 * i + 32] == Concat(hashes[..n])[32 * i..32 * i + 32];
    }
  }

  function EmptyTxRoot(sha: Sha): Hash { Sum256(sha, []) }

  /** The root of a block's transaction list. */
  function TxRoot(sha: Sha, hashes: seq<Hash>): Hash { Sum256(sha, Concat(hashes)) }

  /** CalculateTxRoot as the source writes it: a special case for the empty list, then
      one append a hash into a local buffer. */
  method CalculateTxRoot(sha: Sha, hashes: seq<Hash>) returns (root: Hash)
    ensures root == TxRoot(sha, hashes)
  {
    if |hashes| == 0 {
      return EmptyTxRoot(sha);
    }
    var data: Bytes := [];
    for i := 0 to |hashes|
      invariant data == Concat(hashes[..i])
    {
      data := data + hashes[i];
      assert hashes[..i + 1][..i] == hashes[..i];
    }
    assert hashes[..|hashes|] == hashes;
    root := Sum256(sha, data);
  }

  function BlockSize(b: Block): int { 200 + |b.transactions| * 32 }

  // ---------- transaction ----------

  function TransactionBytes(tx: Transaction): Bytes {
    LE64(tx.shardID) + tx.from + tx.to + LE64(tx.amount) + LE64(tx.gasPrice) + LE64(tx.gasLimit)
    + LE64(tx.nonce) + tx.data
  }

  function TransactionHash(sha: Sha, tx: Transaction): Hash { Sum256(sha, TransactionBytes(tx)) }

  lemma EightParts(b: Bytes, p0: Bytes, p1: Bytes, p2: Bytes, p3: Bytes, p4: Bytes, p5: Bytes, p6: Bytes, p7: Bytes)
    requires |p0| == 8 && |p1| == 20 && |p2| == 20 && |p3| == 8 && |p4| == 8 && |p5| == 8 && |p6| == 8
    requires b == p0 + p1 + p2 + p3 + p4 + p5 + p6 + p7
    ensures |b| >= 80
    ensures b[..8] == p0 && b[8..28] == p1 && b[28..48] == p2 && b[48..56] == p3
    ensures b[56..64] == p4 && b[64..72] == p5 && b[72..80] == p6 && b[80..] == p7
  {}

  /** A transaction's digest input determines everything but its signature. */
  lemma TransactionBytesInjective(s: Transaction, t: Transaction)
    ensures TransactionBytes(s) == TransactionBytes(t) <==> s.(signature := t.signature) == t
  {
    if TransactionBytes(s) == TransactionBytes(t) {
      var b := TransactionBytes(s);
      EightParts(b, LE64(s.shardID), s.from, s.to, LE64(s.amount), LE64(s.gasPrice), LE64(s.gasLimit),
        LE64(s.nonce), s.data);
      EightParts(b, LE64(t.shardID), t.from, t.to, LE64(t.amount), LE64(t.gasPrice), LE64(t.gasLimit),
        LE64(t.nonce), t.data);
      LE64Injective(s.shardID, t.shardID);
      LE64Injective(s.amount, t.amount);
      LE64Injective(s.gasPrice, t.gasPrice);
      LE64Injective(s.gasLimit, t.gasLimit);
      LE64Injective(s.nonce, t.nonce);
    }
  }

  /** Where each hashed field of a transaction lies; its data ends the string. */
  lemma TransactionLayout(sha: Sha, tx: Transaction)
    ensures var b := TransactionBytes(tx);
            && TransactionHash(sha, tx) == sha(b) && |b| == 80 + |tx.data|
            && LittleEndianValue(b[..8]) == tx.shardID && b[8..28] == tx.from && b[28..48] == tx.to
            && LittleEndianValue(b[48..56]) == tx.amount && LittleEndianValue(b[56..64]) == tx.gasPrice
            && LittleEndianValue(b[64..72]) == tx.gasLimit && LittleEndianValue(b[72..80]) == tx.nonce
            && b[80..] == tx.data
  {
    LE64RoundTrip(tx.shardID);
    LE64RoundTrip(tx.amount);
    LE64RoundTrip(tx.gasPrice);
    LE64RoundTrip(tx.gasLimit);
    LE64RoundTrip(tx.nonce);
    EightParts(TransactionBytes(tx), LE64(tx.shardID), tx.from, tx.to, LE64(tx.amount), LE64(tx.gasPrice),
      LE64(tx.gasLimit), LE64(tx.nonce), tx.data);
    hide LittleEndianValue;
  }
}
