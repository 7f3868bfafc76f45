/** Which block the producer builds: when it holds transactions, how many, and what its header says. */
module Packing {
  import opened Encoding
  import opened Types
  import opened Storage
  import opened HashChain
  import opened Execution
  import opened Conservation
  import opened Recovery
  import opened Producer

  // ---------- which transactions pass the filter ----------

  /** What the filter lets through, on the fields of a transaction and of its sender's account. */
  ghost predicate Passes(account: Account, tx: Transaction) {
    && tx.from != Zeros(20) && tx.to != Zeros(20) && tx.amount > 0 && tx.gasPrice > 0 && tx.gasLimit > 0
    && tx.signature != Zeros(64)
    && account.balance >= (tx.amount + tx.gasPrice * tx.gasLimit) % 0x1_0000_0000_0000_0000
    && tx.nonce == (account.nonce + 1) % 0x1_0000_0000_0000_0000
  }

  lemma CostInWords(tx: Transaction)
    ensures Cost(tx) == (tx.amount + tx.gasPrice * tx.gasLimit) % 0x1_0000_0000_0000_0000
  {
    WrapAdd(tx.gasPrice * tx.gasLimit, tx.amount);
  }

  lemma FilteredOne(state: Accounts, stored: Accounts, tx: Transaction)
    ensures WellFormed(tx) && Affordable(Lookup(state, stored, tx.from), tx) && tx.signature != Zeros(64)
            <==> Passes(Lookup(state, stored, tx.from), tx)
  {
    CostInWords(tx);
    hide Cost, Lookup;
  }

  /** The filter keeps exactly the transactions that pass, in their order, judging each alone. */
  lemma {:induction false} FilterExactly(state: Accounts, stored: Accounts, txs: seq<Transaction>,
          more: seq<Transaction>)
    ensures FilterValid(state, stored, txs + more) == FilterValid(state, stored, txs) + FilterValid(state, stored, more)
    ensures |more| == 1 ==>
              FilterValid(state, stored, more)
              == if Passes(Lookup(state, stored, more[0].from), more[0]) then more else []
    decreases |more|
  {
    hide WellFormed, Affordable, Lookup, Passes;
    if more == [] {
      assert txs + more == txs;
    } else {
      var n := |more| - 1;
      assert (txs + more)[..|txs| + n] == txs + more[..n];
      FilterExactly(state, stored, txs, more[..n]);
      FilteredOne(state, stored, more[n]);
      if n == 0 {
        assert more[..0] == [] && more == [more[0]];
      }
    }
  }

  /** The accounts the filter leaves cached: those of the senders it looked up, as they were. */
  lemma {:induction false} FilterCaches(state: Accounts, stored: Accounts, txs: seq<Transaction>, a: Address)
    ensures var cached := FilterState(state, stored, txs);
            && (a in cached <==> a in state || LookedUp(txs, a))
            && (a in cached ==> cached[a] == Lookup(state, stored, a))
    decreases |txs|
  {
    if txs != [] {
      var n := |txs| - 1;
      FilterCaches(state, stored, txs[..n], a);
      assert txs == txs[..n] + [txs[n]];
      assert LookedUp(txs, a) <==> LookedUp(txs[..n], a) || (WellFormed(txs[n]) && txs[n].from == a) by {
        if WellFormed(txs[n]) && txs[n].from == a { assert txs[n] in txs; }
      }
    }
  }

  /** A sender of a transaction whose addresses, amount, gas price and gas limit are all there. */
  ghost predicate LookedUp(txs: seq<Transaction>, a: Address) {
    exists tx :: tx in txs && tx.from == a && tx.from != Zeros(20) && tx.to != Zeros(20) && tx.amount > 0
      && tx.gasPrice > 0 && tx.gasLimit > 0
  }

  // ---------- trial execution ----------

  /** The trial moves value like an application, and refuses only what the sender cannot pay. */
  lemma TrialStep(state: Accounts, tx: Transaction, a: Address)
    ensures TryTx(state, tx).None? <==>
              Of(state, tx.from).balance < (tx.amount + tx.gasPrice * tx.gasLimit) % 0x1_0000_0000_0000_0000
    ensures TryTx(state, tx).Some? ==> Of(TryTx(state, tx).value, a) == Moved(tx, Of(state, a), a)
  {
    CostInWords(tx);
    var s := Load(Load(state, map[], tx.from), map[], tx.to);
    if TryTx(state, tx).Some? {
      if a in s { TransferPointwise(s, tx, a); }
    }
    hide Cost;
  }

  lemma {:induction false} TryPrefix(state: Accounts, txs: seq<Transaction>, n: nat)
    requires n <= |txs| && TryAll(state, txs).Some?
    ensures TryAll(state, txs[..n]).Some?
    decreases |txs|
  {
    if n == |txs| {
      assert txs[..n] == txs;
    } else {
      var m := |txs| - 1;
      assert txs[..m][..n] == txs[..n];
      TryPrefix(state, txs[..m], n);
    }
  }

  lemma TriedAsApplied(now: Accounts, tx: Transaction)
    requires ProcessTx(now, map[], tx).1 == Applied
    ensures TryTx(now, tx) == Some(ProcessTx(now, map[], tx).0)
  {}

  /** Filtered transactions of distinct senders always pass the trial. */
  lemma {:induction false} DistinctSendersTried(v: Accounts, txs: seq<Transaction>)
    requires Filtered(v, txs) && CostsFit(txs) && DistinctSenders(txs) && Total(v) < 0x1_0000_0000_0000_0000
    ensures TryAll(v, txs).Some? && Midway(v, TryAll(v, txs).value, txs)
    decreases |txs|
  {
    hide Midway, ProcessTx, TryTx, DistinctSenders, Senders, CostFits, Affordable, Total;
    if txs == [] {
      NothingDone(v);
    } else {
      var n := |txs| - 1;
      LastDistinct(txs);
      DistinctSendersTried(v, txs[..n]);
      var now := TryAll(v, txs[..n]).value;
      MidwayStep(v, now, txs[..n], txs[n]);
      TriedAsApplied(now, txs[n]);
      assert txs == txs[..n] + [txs[n]];
    }
  }

  /** The filter has read every sender it lets through. */
  lemma {:induction false} SendersCached(state: Accounts, stored: Accounts, txs: seq<Transaction>)
    ensures state.Keys <= FilterState(state, stored, txs).Keys
    ensures forall tx :: tx in FilterValid(state, stored, txs) ==> tx.from in FilterState(state, stored, txs)
    decreases |txs|
  {
    hide WellFormed, Affordable, Lookup;
    if txs != [] { SendersCached(state, stored, txs[..|txs| - 1]); }
  }

  lemma CachedAccount(l: Ledger, state: Accounts, a: Address)
    requires a in state
    ensures Of(l.store.accounts + state, a) == Of(state, a)
  {}

  lemma {:induction false} TotalOfPart(v: Accounts, w: Accounts)
    requires forall a :: a in v ==> a in w && w[a] == v[a]
    ensures Total(v) <= Total(w)
    decreases |v|
  {
    if v != map[] {
      var a :| a in v;
      TotalRemove(v, a);
      TotalRemove(w, a);
      assert (v - {a}).Keys == v.Keys - {a};
      assert |v.Keys| == |v| && |(v - {a}).Keys| == |v - {a}|;
      TotalOfPart(v - {a}, w - {a});
    }
    hide Total;
    NothingTotal();
  }

  lemma NothingTotal()
    ensures Total(map[]) == 0
  {}

  lemma TriedFromCache(l: Ledger, pending: seq<Transaction>)
    requires var valid := FilterValid(l.state, l.store.accounts, pending);
             DistinctSenders(valid) && CostsFit(valid) && Total(View(l)) < 0x1_0000_0000_0000_0000
    ensures TryAll(FilterState(l.state, l.store.accounts, pending),
                   FilterValid(l.state, l.store.accounts, pending)).Some?
  {
    hide FilterValid, FilterState, Total, DistinctSenders, CostsFit, Affordable, Of, TryAll;
    var state := FilterState(l.state, l.store.accounts, pending);
    var valid := FilterValid(l.state, l.store.accounts, pending);
    FilterIsFiltered(l, pending);
    FilterOnlyCaches(l, pending);
    SendersCached(l.state, l.store.accounts, pending);
    forall i | 0 <= i < |valid| ensures Affordable(Of(state, valid[i].from), valid[i]) {
      assert valid[i] in valid;
      CachedAccount(l, state, valid[i].from);
    }
    TotalOfPart(state, l.store.accounts + state);
    DistinctSendersTried(state, valid);
  }

  // ---------- how many are packed ----------

  /** n halved k times, rounding down. */
  function Halved(n: nat, k: nat): nat { if k == 0 then n else Halved(n / 2, k - 1) }

  /** A block of n digests is within two megabytes: 200 bytes and 32 for each. */
  predicate FitsBlock(n: nat) { 200 + 32 * n <= 2 * 1024 * 1024 }

  ghost predicate SignsAll(setup: Setup) { forall h :: setup.sign(h).Some? }

  /** The header of a block with transactions, before and after signing. */
  ghost predicate HeaderSays(sha: Sha, setup: Setup, slot: Slot, h: BlockHeader, hashes: seq<Hash>, stateRoot: Hash,
                             validator: Address) {
    && h.number == slot.number && h.timestamp == slot.time && h.prevHash == slot.prevHash
    && h.txRoot == sha(Concat(hashes)) && h.stateRoot == stateRoot && h.validator == validator && h.shardID == 1
    && h.adjacentHashes == [Zeros(32), Zeros(32), Zeros(32)]
  }

  ghost predicate SignedBy(setup: Setup, h: BlockHeader) {
    setup.sign(h.(signature := Zeros(64))) == Some(h.signature)
  }

  /** The list is halved until it first fits. */
  ghost predicate Packs(sha: Sha, setup: Setup, slot: Slot, txs: seq<Transaction>, b: Block, k: nat) {
    var n := Halved(|txs|, k);
    && 0 < n <= |txs| && FitsBlock(n) && (forall j: nat :: j < k ==> !FitsBlock(Halved(|txs|, j)))
    && b.transactions == Hashes(sha, txs[..n])
    && HeaderSays(sha, setup, slot, b.header, b.transactions, setup.rootOf(txs[..n]), setup.address)
    && SignedBy(setup, b.header)
  }

  lemma PackedWhole(sha: Sha, setup: Setup, slot: Slot, state: Accounts, txs: seq<Transaction>)
    requires SignsAll(setup) && TryAll(state, txs).Some? && txs != [] && FitsBlock(|txs|)
    ensures var b := CreateBlock(sha, setup, slot, state, txs); b.Some? && Packs(sha, setup, slot, txs, b.value, 0)
  {
    assert txs[..|txs|] == txs;
    hide TryAll, TransactionHash, Concat;
  }

  lemma PackedHalf(sha: Sha, setup: Setup, slot: Slot, state: Accounts, txs: seq<Transaction>)
    requires SignsAll(setup) && TryAll(state, txs).Some? && !FitsBlock(|txs|)
    ensures |txs| / 2 > 0
    ensures CreateBlock(sha, setup, slot, state, txs) == CreateBlock(sha, setup, slot, state, txs[..|txs| / 2])
  {
    hide TryAll, TransactionHash, TxRoot;
  }

  lemma PackedOnceMore(sha: Sha, setup: Setup, slot: Slot, txs: seq<Transaction>, b: Block, k: nat)
    requires !FitsBlock(|txs|) && Packs(sha, setup, slot, txs[..|txs| / 2], b, k)
    ensures Packs(sha, setup, slot, txs, b, k + 1)
  {
    var half := |txs| / 2;
    var n := Halved(half, k);
    assert txs[..half][..n] == txs[..n];
    forall j: nat | j < k + 1 ensures !FitsBlock(Halved(|txs|, j)) {
      if j > 0 { assert Halved(|txs|, j) == Halved(half, j - 1); }
    }
    hide HeaderSays, SignedBy, TransactionHash;
  }

  lemma {:induction false} PacksMost(sha: Sha, setup: Setup, slot: Slot, state: Accounts, txs: seq<Transaction>)
    returns (k: nat)
    requires SignsAll(setup) && TryAll(state, txs).Some? && txs != []
    ensures var b := CreateBlock(sha, setup, slot, state, txs); b.Some? && Packs(sha, setup, slot, txs, b.value, k)
    ensures FitsBlock(|txs|) ==> k == 0
    decreases |txs|
  {
    hide CreateBlock, TryAll, Packs, SignsAll;
    if FitsBlock(|txs|) {
      PackedWhole(sha, setup, slot, state, txs);
      k := 0;
    } else {
      PackedHalf(sha, setup, slot, state, txs);
      var half := txs[..|txs| / 2];
      TryPrefix(state, txs, |txs| / 2);
      k := PacksMost(sha, setup, slot, state, half);
      PackedOnceMore(sha, setup, slot, txs, CreateBlock(sha, setup, slot, state, half).value, k);
      k := k + 1;
    }
  }

  // ---------- which block is produced ----------

  /** The configuration calls for an empty block. */
  predicate CallsForEmpty(setup: Setup) {
    && setup.config.enabled && setup.checker.Some?
    && (setup.checker.value.inSafetyMode || Idle(setup.checker.value) || setup.config.networkPartitionMode)
  }

  /** Not this node's turn, and fewer than four in five validators active. */
  predicate Idle(c: Checker) { !c.isCurrentValidator && c.activeRatio < 0.8 }

  /** The empty block is the system's: unsigned, under its address. */
  predicate ForSystem(setup: Setup) {
    CallsForEmpty(setup) && (setup.checker.value.inSafetyMode || !Idle(setup.checker.value))
  }

  ghost predicate HasPrevious(l: Ledger, number: U64) { number == 0 || number - 1 in l.store.blocks }

  ghost predicate IsPrevious(sha: Sha, l: Ledger, number: U64, hash: Hash) {
    if number == 0 then hash == Zeros(32)
    else number - 1 in l.store.blocks && hash == sha(HeaderBytes(l.store.blocks[number - 1].header))
  }

  /** Something to pack: no empty block called for, and filtered transactions that pass the trial. */
  ghost predicate Packable(setup: Setup, l: Ledger, pending: Option<seq<Transaction>>) {
    && !CallsForEmpty(setup) && pending.Some? && ValidOf(l, pending) != []
    && TryAll(FilterState(l.state, l.store.accounts, pending.value), ValidOf(l, pending)).Some?
  }

  ghost predicate EmptySays(sha: Sha, setup: Setup, slot: Slot, b: Block) {
    && b.transactions == []
    && HeaderSays(sha, setup, slot, b.header, [], slot.stateRoot,
                  if ForSystem(setup) then setup.config.systemValidator else setup.address)
    && (if ForSystem(setup) then b.header.signature == Zeros(64) else SignedBy(setup, b.header))
  }

  lemma EmptyBlockSays(sha: Sha, setup: Setup, slot: Slot, trigger: Trigger)
    requires ForSystem(setup) || SignsAll(setup)
    requires ForSystem(setup) <==> trigger.SafetyMode? || trigger.NetworkPartition?
    ensures var b := CreateEmptyBlock(sha, setup, slot, trigger); b.Some? && EmptySays(sha, setup, slot, b.value)
  {
    assert Concat([]) == [];
    hide ForSystem;
  }

  lemma TriggerIs(setup: Setup)
    ensures ShouldCreateEmptyBlock(setup).Some? <==> CallsForEmpty(setup)
    ensures CallsForEmpty(setup) ==>
              var t := ShouldCreateEmptyBlock(setup).value;
              (ForSystem(setup) <==> t.SafetyMode? || t.NetworkPartition?)
  {}

  /** Why an empty block is built without being called for. */
  lemma FallsBack(sha: Sha, setup: Setup, slot: Slot, state: Accounts, txs: seq<Transaction>)
    requires SignsAll(setup) && !CallsForEmpty(setup) && TryAll(state, txs).None?
    ensures var b := CreateBlock(sha, setup, slot, state, txs); b.Some? && EmptySays(sha, setup, slot, b.value)
  {
    EmptyBlockSays(sha, setup, slot, NoTransactions);
    hide TryAll, CreateEmptyBlock, EmptySays;
  }

  /** What is produced, with signing at work: nothing exactly without a block below; a block with
      transactions exactly when there is something to pack, and then the filtered list, halved until it
      first fits; an empty block otherwise. */
  lemma ProducedExactly(sha: Sha, setup: Setup, l: Ledger, time: I64, number: U64, stateRoot: Hash,
          pending: Option<seq<Transaction>>) returns (prev: Hash, k: nat)
    requires SignsAll(setup)
    ensures var b := Produce(sha, setup, l, time, number, stateRoot, pending);
            && (b.Some? <==> HasPrevious(l, number))
            && (b.Some? ==>
                  && IsPrevious(sha, l, number, prev)
                  && var slot := Slot(time, number, prev, stateRoot);
                     if Packable(setup, l, pending) then Packs(sha, setup, slot, ValidOf(l, pending), b.value, k)
                     else EmptySays(sha, setup, slot, b.value))
    ensures Packable(setup, l, pending) && FitsBlock(|ValidOf(l, pending)|) ==> k == 0
  {
    prev, k := Zeros(32), 0;
    PreviousIs(sha, l, number);
    if PrevHash(sha, l, number).Some? {
      prev := PrevHash(sha, l, number).value;
      var slot := Slot(time, number, prev, stateRoot);
      TriggerIs(setup);
      hide CreateBlock, CreateEmptyBlock, EmptySays, Packs, TryAll, FilterValid, FilterState, PrevHash, SignsAll,
        ShouldCreateEmptyBlock, ForSystem, IsPrevious;
      var trigger := ShouldCreateEmptyBlock(setup);
      if trigger.Some? {
        EmptyBlockSays(sha, setup, slot, trigger.value);
      } else {
        NotForSystem(setup);
        EmptyBlockSays(sha, setup, slot, NoTransactions);
        EmptyBlockSays(sha, setup, slot, TransactionFailure);
        if Packable(setup, l, pending) {
          k := PacksMost(sha, setup, slot, FilterState(l.state, l.store.accounts, pending.value), ValidOf(l, pending));
        } else if pending.Some? && ValidOf(l, pending) != [] {
          FallsBack(sha, setup, slot, FilterState(l.state, l.store.accounts, pending.value), ValidOf(l, pending));
        }
        NothingValid(l);
      }
    }
  }

  /** Production caches accounts exactly where it filters. */
  lemma CachesWhereItFilters(sha: Sha, setup: Setup, l: Ledger, number: U64, pending: Option<seq<Transaction>>)
    ensures ProducedState(sha, setup, l, number, pending)
            == if HasPrevious(l, number) && !CallsForEmpty(setup) && pending.Some?
               then FilterState(l.state, l.store.accounts, pending.value) else l.state
  {
    PreviousIs(sha, l, number);
    TriggerIs(setup);
    hide FilterState;
  }

  lemma NothingValid(l: Ledger)
    ensures ValidOf(l, Some([])) == []
  {}

  lemma NotForSystem(setup: Setup)
    requires !CallsForEmpty(setup)
    ensures !ForSystem(setup)
  {}

  lemma PreviousIs(sha: Sha, l: Ledger, number: U64)
    ensures PrevHash(sha, l, number).Some? <==> HasPrevious(l, number)
    ensures PrevHash(sha, l, number).Some? ==> IsPrevious(sha, l, number, PrevHash(sha, l, number).value)
  {}

  /** Without any signature only the system's empty blocks are produced. */
  lemma UnsignedOnlyForSystem(sha: Sha, setup: Setup, l: Ledger, time: I64, number: U64, stateRoot: Hash,
          pending: Option<seq<Transaction>>)
    requires forall h :: setup.sign(h).None?
    ensures Produce(sha, setup, l, time, number, stateRoot, pending).Some? <==>
              HasPrevious(l, number) && ForSystem(setup)
  {
    PreviousIs(sha, l, number);
    TriggerIs(setup);
    if pending.Some? {
      UnsignedNoBlock(sha, setup, l, pending.value, time, number, stateRoot);
    }
    hide CreateBlock, FilterValid, FilterState, PrevHash, TxRoot, HeaderHash;
  }

  lemma UnsignedNoBlock(sha: Sha, setup: Setup, l: Ledger, pending: seq<Transaction>, time: I64, number: U64,
          stateRoot: Hash)
    requires forall h :: setup.sign(h).None?
    ensures forall slot, state, txs :: CreateBlock(sha, setup, slot, state, txs).None?
  {
    hide TryAll, TxRoot, TransactionHash;
  }

  /** Nothing valid is left out: with signing at work and no empty block called for, transactions of
      distinct senders that pass the filter are all packed whenever they fit one block. */
  lemma PacksEverything(sha: Sha, setup: Setup, l: Ledger, time: I64, number: U64, stateRoot: Hash,
          pending: seq<Transaction>)
    requires SignsAll(setup) && !CallsForEmpty(setup) && HasPrevious(l, number)
    requires var valid := ValidOf(l, Some(pending));
             && valid != [] && FitsBlock(|valid|) && DistinctSenders(valid) && CostsFit(valid)
             && Total(View(l)) < 0x1_0000_0000_0000_0000
    ensures var b := Produce(sha, setup, l, time, number, stateRoot, Some(pending));
            b.Some? && b.value.transactions == Hashes(sha, ValidOf(l, Some(pending)))
  {
    hide SignsAll, CallsForEmpty, HasPrevious, FilterValid, FilterState, DistinctSenders, CostsFit, Total, TryAll,
      HeaderSays, SignedBy, Produce, TransactionHash, IsPrevious, EmptySays;
    TriedFromCache(l, pending);
    var prev, k := ProducedExactly(sha, setup, l, time, number, stateRoot, Some(pending));
    var valid := ValidOf(l, Some(pending));
    assert valid[..|valid|] == valid;
  }
}
