/** Hash-linked chains accepted by Manager.validateBlock, and what the tip digest commits to. */
module HashChain {
  import opened Encoding
  import opened Types

  datatype Verdict = Valid | InvalidHeight | InvalidPrevHash | InvalidTxRoot | InvalidShard

  /** validateBlock: the four checks in their order. */
  function ValidateBlock(sha: Sha, tip: Block, b: Block): Verdict {
    if b.header.number != Wrap(tip.header.number + 1) then InvalidHeight
    else if b.header.prevHash != HeaderHash(sha, tip.header) then InvalidPrevHash
    else if b.header.txRoot != TxRoot(sha, b.transactions) then InvalidTxRoot
    else if b.header.shardID != SHARD_ID then InvalidShard
    else Valid
  }

  function Accepts(sha: Sha, tip: Block, b: Block): bool { ValidateBlock(sha, tip, b) == Valid }

  /** The verdict on the fields: the first of four checks that fails, in this order. */
  lemma VerdictOnFields(sha: Sha, tip: Block, b: Block)
    ensures var height := b.header.number == (tip.header.number + 1) % 0x1_0000_0000_0000_0000;
            var link := b.header.prevHash == sha(HeaderBytes(tip.header));
            var root := b.header.txRoot == sha(Concat(b.transactions));
            && (Accepts(sha, tip, b) <==> height && link && root && b.header.shardID == 1)
            && (ValidateBlock(sha, tip, b) == InvalidHeight <==> !height)
            && (ValidateBlock(sha, tip, b) == InvalidPrevHash <==> height && !link)
            && (ValidateBlock(sha, tip, b) == InvalidTxRoot <==> height && link && !root)
            && (ValidateBlock(sha, tip, b) == InvalidShard <==> height && link && root && b.header.shardID != 1)
  {}

  /** The block createNewChain builds. */
  function GenesisBlock(sha: Sha, timestamp: I64, stateRoot: Hash): Block {
    Block(BlockHeader(0, timestamp, Zeros(32), EmptyTxRoot(sha), stateRoot, Zeros(20), Zeros(64), SHARD_ID,
                      [Zeros(32), Zeros(32), Zeros(32)]), [])
  }

  ghost predicate IsGenesis(sha: Sha, b: Block) {
    exists timestamp, stateRoot :: b == GenesisBlock(sha, timestamp, stateRoot)
  }

  /** A genesis block followed by accepted blocks. */
  ghost predicate ValidChain(sha: Sha, c: seq<Block>) {
    && c != [] && IsGenesis(sha, c[0])
    && forall i :: 0 < i < |c| ==> Accepts(sha, c[i - 1], c[i])
  }

  function Tip(c: seq<Block>): Block
    requires c != []
  {
    c[|c| - 1]
  }

  lemma ValidExtension(sha: Sha, c: seq<Block>, b: Block)
    requires ValidChain(sha, c) && Accepts(sha, Tip(c), b)
    ensures ValidChain(sha, c + [b])
  {}

  /** Heights count the blocks (modulo the width of the height field), so there are no gaps. */
  lemma {:induction false} HeightIsPosition(sha: Sha, c: seq<Block>, i: nat)
    requires ValidChain(sha, c) && i < |c|
    ensures c[i].header.number == Wrap(i)
  {
    if i > 0 {
      HeightIsPosition(sha, c, i - 1);
      assert Accepts(sha, c[i - 1], c[i]);
      WrapAdd(i - 1, 1);
    }
  }

  /** Every byte string hashed while building the chain: headers and transaction lists. */
  ghost function HashedInputs(c: seq<Block>): set<Bytes> {
    (set i | 0 <= i < |c| :: HeaderBytes(c[i].header)) + (set i | 0 <= i < |c| :: Concat(c[i].transactions))
  }

  /** Two distinct strings, one hashed by each chain, with the same digest. */
  ghost predicate CollisionBetween(sha: Sha, c: seq<Block>, d: seq<Block>) {
    exists x, y :: x in HashedInputs(c) && y in HashedInputs(d) && x != y && Sum256(sha, x) == Sum256(sha, y)
  }

  ghost predicate SameHistory(c: seq<Block>, d: seq<Block>) {
    && |c| == |d|
    && forall i :: 0 <= i < |c| ==>
         SameHashedFields(c[i].header, d[i].header) && c[i].header.shardID == d[i].header.shardID
         && c[i].transactions == d[i].transactions
  }

  lemma CollisionOfPrefix(sha: Sha, c: seq<Block>, d: seq<Block>, m: nat, n: nat)
    requires m <= |c| && n <= |d| && CollisionBetween(sha, c[..m], d[..n])
    ensures CollisionBetween(sha, c, d)
  {
    assert HashedInputs(c[..m]) <= HashedInputs(c) by {
      forall x | x in HashedInputs(c[..m]) ensures x in HashedInputs(c) {
        var i :| 0 <= i < m && (x == HeaderBytes(c[..m][i].header) || x == Concat(c[..m][i].transactions));
        assert c[..m][i] == c[i];
      }
    }
    assert HashedInputs(d[..n]) <= HashedInputs(d) by {
      forall x | x in HashedInputs(d[..n]) ensures x in HashedInputs(d) {
        var i :| 0 <= i < n && (x == HeaderBytes(d[..n][i].header) || x == Concat(d[..n][i].transactions));
        assert d[..n][i] == d[i];
      }
    }
    var x, y :| x in HashedInputs(c[..m]) && y in HashedInputs(d[..n]) && x != y && Sum256(sha, x) == Sum256(sha, y);
  }

  lemma TipInputs(c: seq<Block>)
    requires c != []
    ensures HeaderBytes(Tip(c).header) in HashedInputs(c)
    ensures Concat(Tip(c).transactions) in HashedInputs(c)
  {
    assert c[|c| - 1] == Tip(c);
  }

  lemma RootOfBlock(sha: Sha, c: seq<Block>)
    requires ValidChain(sha, c)
    ensures Tip(c).header.txRoot == TxRoot(sha, Tip(c).transactions)
    ensures Tip(c).header.shardID == SHARD_ID
  {
    if |c| > 1 { assert Accepts(sha, c[|c| - 2], c[|c| - 1]); }
  }

  /** Equal tip digests: the tips agree, or a collision is in hand. */
  lemma TipsAgree(sha: Sha, c: seq<Block>, d: seq<Block>)
    requires ValidChain(sha, c) && ValidChain(sha, d)
    requires HeaderHash(sha, Tip(c).header) == HeaderHash(sha, Tip(d).header)
    ensures CollisionBetween(sha, c, d)
            || (SameHashedFields(Tip(c).header, Tip(d).header) && Tip(c).transactions == Tip(d).transactions
                && Tip(c).header.shardID == Tip(d).header.shardID)
  {
    TipInputs(c); TipInputs(d);
    RootOfBlock(sha, c); RootOfBlock(sha, d);
    var x, y := HeaderBytes(Tip(c).header), HeaderBytes(Tip(d).header);
    if x == y {
      HeaderBytesInjective(Tip(c).header, Tip(d).header);
      var s, t := Concat(Tip(c).transactions), Concat(Tip(d).transactions);
      if s == t {
        ConcatInjective(Tip(c).transactions, Tip(d).transactions);
      } else {
        assert Sum256(sha, s) == Sum256(sha, t);
      }
    }
  }

  /** The links below two agreeing tips carry equal digests. */
  lemma PredecessorDigests(sha: Sha, c: seq<Block>)
    requires ValidChain(sha, c) && |c| > 1
    ensures ValidChain(sha, c[..|c| - 1])
    ensures Tip(c).header.prevHash == HeaderHash(sha, Tip(c[..|c| - 1]).header)
  {
    assert Accepts(sha, c[|c| - 2], c[|c| - 1]);
    assert Tip(c[..|c| - 1]) == c[|c| - 2];
  }

  lemma ExtendHistory(c: seq<Block>, d: seq<Block>)
    requires |c| == |d| > 0
    requires |c| == 1 || SameHistory(c[..|c| - 1], d[..|d| - 1])
    requires SameHashedFields(Tip(c).header, Tip(d).header) && Tip(c).header.shardID == Tip(d).header.shardID
    requires Tip(c).transactions == Tip(d).transactions
    ensures SameHistory(c, d)
  {
    var n := |c| - 1;
    forall i | 0 <= i < |c|
      ensures SameHashedFields(c[i].header, d[i].header) && c[i].header.shardID == d[i].header.shardID
              && c[i].transactions == d[i].transactions
    {
      if i < n { assert c[..n][i] == c[i] && d[..n][i] == d[i]; }
    }
  }

  lemma SameHeightSameLength(sha: Sha, c: seq<Block>, d: seq<Block>)
    requires ValidChain(sha, c) && ValidChain(sha, d)
    requires |c| <= 0x1_0000_0000_0000_0000 && |d| <= 0x1_0000_0000_0000_0000
    requires Tip(c).header.number == Tip(d).header.number
    ensures |c| == |d| > 0
  {
    HeightIsPosition(sha, c, |c| - 1);
    HeightIsPosition(sha, d, |d| - 1);
  }

  lemma SharedPredecessor(sha: Sha, c: seq<Block>, d: seq<Block>)
    requires ValidChain(sha, c) && ValidChain(sha, d) && |c| > 1 && |d| > 1
    requires Tip(c).header.prevHash == Tip(d).header.prevHash
    ensures ValidChain(sha, c[..|c| - 1]) && ValidChain(sha, d[..|d| - 1])
    ensures HeaderHash(sha, Tip(c[..|c| - 1]).header) == HeaderHash(sha, Tip(d[..|d| - 1]).header)
  {
    PredecessorDigests(sha, c);
    PredecessorDigests(sha, d);
  }

  /** Hash-chain integrity: the tip digest determines the whole history. */
  lemma {:induction false} ChainIntegrity(sha: Sha, c: seq<Block>, d: seq<Block>)
    requires ValidChain(sha, c) && ValidChain(sha, d)
    requires |c| <= 0x1_0000_0000_0000_0000 && |d| <= 0x1_0000_0000_0000_0000
    requires HeaderHash(sha, Tip(c).header) == HeaderHash(sha, Tip(d).header)
    ensures SameHistory(c, d) || CollisionBetween(sha, c, d)
    decreases |c|
  {
    hide CollisionBetween, SameHistory, ValidChain, HeaderHash;
    TipsAgree(sha, c, d);
    if !CollisionBetween(sha, c, d) {
      SameHeightSameLength(sha, c, d);
      if |c| > 1 {
        var n := |c| - 1;
        SharedPredecessor(sha, c, d);
        ChainIntegrity(sha, c[..n], d[..n]);
        if CollisionBetween(sha, c[..n], d[..n]) {
          CollisionOfPrefix(sha, c, d, n, n);
        }
      }
      ExtendHistory(c, d);
    }
  }

  /** A block with its unhashed, unchecked fields replaced. */
  function Reseal(b: Block, signature: Signature, adjacent: seq<Hash>): Block {
    b.(header := b.header.(signature := signature, adjacentHashes := adjacent))
  }

  lemma ResealKeepsHash(sha: Sha, b: Block, signature: Signature, adjacent: seq<Hash>)
    ensures HeaderHash(sha, Reseal(b, signature, adjacent).header) == HeaderHash(sha, b.header)
  {
    assert HeaderBytes(Reseal(b, signature, adjacent).header) == HeaderBytes(b.header);
  }

  lemma ResealKeepsVerdict(sha: Sha, tip: Block, b: Block, signature: Signature, adjacent: seq<Hash>)
    ensures ValidateBlock(sha, tip, Reseal(b, signature, adjacent)) == ValidateBlock(sha, tip, b)
    ensures ValidateBlock(sha, Reseal(tip, signature, adjacent), b) == ValidateBlock(sha, tip, b)
  {
    ResealKeepsHash(sha, tip, signature, adjacent);
  }

  /** The commitment stops there: signature and adjacent hashes of any non-genesis block can be
      replaced without invalidating the chain or moving the tip digest. */
  lemma UnhashedFieldsAreFree(sha: Sha, c: seq<Block>, k: nat, signature: Signature, adjacent: seq<Hash>)
    requires ValidChain(sha, c) && 0 < k < |c|
    ensures ValidChain(sha, c[k := Reseal(c[k], signature, adjacent)])
    ensures HeaderHash(sha, Tip(c[k := Reseal(c[k], signature, adjacent)]).header) == HeaderHash(sha, Tip(c).header)
  {
    var b := Reseal(c[k], signature, adjacent);
    var d := c[k := b];
    ResealKeepsHash(sha, c[k], signature, adjacent);
    forall i | 0 < i < |d| ensures Accepts(sha, d[i - 1], d[i]) {
      assert Accepts(sha, c[i - 1], c[i]);
      ResealKeepsVerdict(sha, c[i - 1], c[i], signature, adjacent);
    }
  }
}
