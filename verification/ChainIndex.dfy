/** The chain a run builds, and the height and digest indexes the store keeps of it. */
module ChainIndex {
  import opened Encoding
  import opened Types
  import opened Storage
  import opened HashChain
  import opened Execution

  /** The genesis block followed by the blocks AddBlock accepted. */
  function ChainOf(sha: Sha, l: Ledger, events: seq<Event>): (c: seq<Block>)
    ensures 0 < |c| <= |events| + 1
  {
    if events == [] then [l.tip]
    else
      var n := |events| - 1;
      var c := ChainOf(sha, l, events[..n]);
      if events[n].Submit? && AddBlock(sha, Run(sha, l, events[..n]), events[n].block).1.Added?
      then c + [events[n].block] else c
  }

  function Digest(sha: Sha, b: Block): Hash { HeaderHash(sha, b.header) }

  /** Position j is the last block of the chain carrying digest x. */
  ghost predicate LastWith(sha: Sha, c: seq<Block>, x: Hash, j: nat) {
    j < |c| && Digest(sha, c[j]) == x && forall k :: j < k < |c| ==> Digest(sha, c[k]) != x
  }

  ghost predicate HoldsChain(blocks: map<U64, Block>, c: seq<Block>) {
    forall i: nat :: i < |c| ==> i in blocks && blocks[i] == c[i]
  }

  ghost predicate HoldsDigests(sha: Sha, heights: map<Hash, U64>, c: seq<Block>) {
    && (forall i: nat :: i < |c| ==> Digest(sha, c[i]) in heights)
    && (forall x: Hash :: x in heights ==> LastWith(sha, c, x, heights[x]))
  }

  /** The store holds the chain by height, each digest at its last height, and the tip's number. */
  ghost predicate Indexed(sha: Sha, c: seq<Block>, l: Ledger) {
    && ValidChain(sha, c) && l.tip == Tip(c)
    && l.store.latest == Some(l.tip.header.number)
    && HoldsChain(l.store.blocks, c)
    && HoldsDigests(sha, l.store.heights, c)
  }

  lemma CreateIndexes(sha: Sha, genesis: Genesis, stateRoot: Hash)
    ensures var l := CreateNewChain(sha, genesis, stateRoot); Indexed(sha, [l.tip], l)
  {
    var l := CreateNewChain(sha, genesis, stateRoot);
    assert l.tip == GenesisBlock(sha, genesis.timestamp, stateRoot);
    assert ValidChain(sha, [l.tip]);
    assert LastWith(sha, [l.tip], Digest(sha, l.tip), 0);
  }

  lemma DigestsAfter(sha: Sha, c: seq<Block>, heights: map<Hash, U64>, b: Block)
    requires b.header.number == |c| && HoldsDigests(sha, heights, c)
    ensures HoldsDigests(sha, heights[Digest(sha, b) := b.header.number], c + [b])
  {
    var h := heights[Digest(sha, b) := b.header.number];
    forall x: Hash | x in h ensures LastWith(sha, c + [b], x, h[x]) {
      if x != Digest(sha, b) { assert LastWith(sha, c, x, heights[x]); }
    }
  }

  lemma NextHeight(sha: Sha, c: seq<Block>, b: Block)
    requires ValidChain(sha, c) && |c| < 0x1_0000_0000_0000_0000 && Accepts(sha, Tip(c), b)
    ensures b.header.number == |c|
  {
    hide Wrap, HeaderHash, TxRoot, IsGenesis;
    assert c != [];
    HeightIsPosition(sha, c, |c| - 1);
    WrapSmall(|c| - 1);
    WrapSmall(|c|);
  }

  /** What an accepted block does to the indexes. */
  lemma AddedStore(sha: Sha, l: Ledger, b: Block)
    requires AddBlock(sha, l, b).1.Added?
    ensures var l' := AddBlock(sha, l, b).0;
            && Accepts(sha, l.tip, b) && l'.tip == b && l'.store.latest == Some(b.header.number)
            && l'.store.blocks == l.store.blocks[b.header.number := b]
            && l'.store.heights == l.store.heights[Digest(sha, b) := b.header.number]
            && l'.store.txs == l.store.txs && l'.store.genesis == l.store.genesis
  {}

  lemma AddKeepsIndexed(sha: Sha, c: seq<Block>, l: Ledger, b: Block)
    requires Indexed(sha, c, l) && |c| < 0x1_0000_0000_0000_0000
    requires AddBlock(sha, l, b).1.Added?
    ensures Indexed(sha, c + [b], AddBlock(sha, l, b).0)
  {
    hide HoldsDigests, ValidChain;
    AddedStore(sha, l, b);
    NextHeight(sha, c, b);
    ValidExtension(sha, c, b);
    DigestsAfter(sha, c, l.store.heights, b);
  }

  /** Stored transactions lie under their digests. */
  ghost predicate TxsKeyed(sha: Sha, txs: map<Hash, Transaction>) {
    forall x :: x in txs ==> TransactionHash(sha, txs[x]) == x
  }

  lemma {:induction false} RunKeyed(sha: Sha, genesis: Genesis, stateRoot: Hash, events: seq<Event>)
    ensures TxsKeyed(sha, Run(sha, CreateNewChain(sha, genesis, stateRoot), events).store.txs)
    decreases |events|
  {
    hide TransactionHash, AddBlock;
    if events != [] {
      var n := |events| - 1;
      RunKeyed(sha, genesis, stateRoot, events[..n]);
      if events[n].Submit? {
        AddBlockKeepsTxs(sha, Run(sha, CreateNewChain(sha, genesis, stateRoot), events[..n]), events[n].block);
      }
    }
  }

  lemma AddBlockKeepsTxs(sha: Sha, l: Ledger, b: Block)
    ensures AddBlock(sha, l, b).0.store.txs == l.store.txs
  {}

  /** Every run keeps the indexes in step with the chain. */
  lemma {:induction false} RunIndexed(sha: Sha, genesis: Genesis, stateRoot: Hash, events: seq<Event>)
    requires |events| < 0x1_0000_0000_0000_0000
    ensures var l0 := CreateNewChain(sha, genesis, stateRoot);
            Indexed(sha, ChainOf(sha, l0, events), Run(sha, l0, events))
    decreases |events|
  {
    var l0 := CreateNewChain(sha, genesis, stateRoot);
    if events == [] {
      CreateIndexes(sha, genesis, stateRoot);
    } else {
      var n := |events| - 1;
      RunIndexed(sha, genesis, stateRoot, events[..n]);
      var l, c := Run(sha, l0, events[..n]), ChainOf(sha, l0, events[..n]);
      if events[n].Submit? && AddBlock(sha, l, events[n].block).1.Added? {
        AddKeepsIndexed(sha, c, l, events[n].block);
      } else {
        OtherStepsKeepIndexed(sha, c, l, events[n]);
      }
    }
  }

  lemma OtherStepsKeepIndexed(sha: Sha, c: seq<Block>, l: Ledger, e: Event)
    requires Indexed(sha, c, l)
    requires e.Submit? ==> !AddBlock(sha, l, e.block).1.Added?
    ensures Indexed(sha, c, Step(sha, l, e))
  {
    hide HoldsDigests, HoldsChain, ValidChain;
    var l' := Step(sha, l, e);
    assert l'.tip == l.tip && l'.store.blocks == l.store.blocks && l'.store.heights == l.store.heights
           && l'.store.latest == l.store.latest;
  }

  /** GetBlockByHash on the store. */
  function BlockByHash(s: Store, x: Hash): Option<Block> {
    if x in s.heights && s.heights[x] in s.blocks then Some(s.blocks[s.heights[x]]) else None
  }

  /** Two blocks of the chain at different heights share a digest: their header bytes collide. */
  ghost predicate HeaderCollision(sha: Sha, c: seq<Block>, i: nat, j: nat) {
    && i < |c| && j < |c| && i != j
    && HeaderBytes(c[i].header) != HeaderBytes(c[j].header)
    && Digest(sha, c[i]) == Digest(sha, c[j])
  }

  lemma DistinctHeights(sha: Sha, c: seq<Block>, i: nat, j: nat)
    requires ValidChain(sha, c) && |c| <= 0x1_0000_0000_0000_0000 && i < |c| && j < |c| && i != j
    ensures c[i].header.number == i != j == c[j].header.number
  {
    HeightIsPosition(sha, c, i);
    HeightIsPosition(sha, c, j);
  }

  lemma DistinctHeaders(sha: Sha, c: seq<Block>, i: nat, j: nat)
    requires ValidChain(sha, c) && |c| <= 0x1_0000_0000_0000_0000 && i < |c| && j < |c| && i != j
    ensures HeaderBytes(c[i].header) != HeaderBytes(c[j].header)
  {
    DistinctHeights(sha, c, i, j);
    hide ValidChain, HeaderBytes;
    HeaderBytesInjective(c[i].header, c[j].header);
  }

  lemma LookupInIndex(sha: Sha, c: seq<Block>, l: Ledger, h: nat)
    requires Indexed(sha, c, l) && |c| <= 0x1_0000_0000_0000_0000 && h < |c|
    ensures BlockByHash(l.store, Digest(sha, c[h])) == Some(c[h])
            <==> !exists j :: h < j && HeaderCollision(sha, c, h, j)
  {
    var x := Digest(sha, c[h]);
    var j := l.store.heights[x];
    assert LastWith(sha, c, x, j) && j >= h;
    if j > h {
      DistinctHeaders(sha, c, h, j);
      assert HeaderCollision(sha, c, h, j);
    }
  }

  lemma TipHeight(sha: Sha, c: seq<Block>, l: Ledger)
    requires Indexed(sha, c, l) && |c| <= 0x1_0000_0000_0000_0000
    ensures LatestHeight(l.store) == l.tip.header.number == |c| - 1
  {
    hide HoldsDigests, HoldsChain;
    HeightIsPosition(sha, c, |c| - 1);
  }

  /** Looking a stored block up by its own digest returns it, unless a later block of the chain
      collides with it, and then it never does. The latest height is the tip's number. */
  lemma LookupByDigest(sha: Sha, genesis: Genesis, stateRoot: Hash, events: seq<Event>, h: nat)
    requires |events| < 0x1_0000_0000_0000_0000
    requires h < |ChainOf(sha, CreateNewChain(sha, genesis, stateRoot), events)|
    ensures var l0 := CreateNewChain(sha, genesis, stateRoot);
            var l, c := Run(sha, l0, events), ChainOf(sha, l0, events);
            && LatestHeight(l.store) == l.tip.header.number == |c| - 1
            && h in l.store.blocks && l.store.blocks[h] == c[h]
            && (BlockByHash(l.store, Digest(sha, l.store.blocks[h])) == Some(l.store.blocks[h])
                <==> !exists j :: h < j && HeaderCollision(sha, c, h, j))
  {
    hide HoldsDigests, ValidChain, BlockByHash, HeaderCollision, Run, ChainOf, CreateNewChain, LatestHeight;
    var l0 := CreateNewChain(sha, genesis, stateRoot);
    var l, c := Run(sha, l0, events), ChainOf(sha, l0, events);
    RunIndexed(sha, genesis, stateRoot, events);
    TipHeight(sha, c, l);
    LookupInIndex(sha, c, l, h);
  }
}
