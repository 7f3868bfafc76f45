/** Block production: which block is built for the next height, and whether the manager takes it. */
module Producer {
  import opened Encoding
  import opened Types
  import opened Storage
  import opened HashChain
  import opened Execution
  import opened Conservation
  import opened ChainIndex
  import opened Recovery
  import opened Manager

  datatype Trigger = NoTransactions | SafetyMode | NetworkPartition | ValidatorInactive | TransactionFailure

  datatype EmptyBlockConfig = EmptyBlockConfig(enabled: bool, networkPartitionMode: bool, systemValidator: Address)

  /** One set of answers of the network checker. */
  datatype Checker = Checker(inSafetyMode: bool, isCurrentValidator: bool, activeRatio: real)

  /** The producer's key and configuration. Signing may fail; the state root computed for a list
      of transactions is a value chosen outside. */
  datatype Setup = Setup(
    address: Address, config: EmptyBlockConfig, checker: Option<Checker>,
    sign: BlockHeader -> Option<Signature>, rootOf: seq<Transaction> -> Hash)

  /** The slot a block is built for. */
  datatype Slot = Slot(time: I64, number: U64, prevHash: Hash, stateRoot: Hash)

  function ShouldCreateEmptyBlock(setup: Setup): Option<Trigger> {
    if !setup.config.enabled || setup.checker.None? then None
    else
      var c := setup.checker.value;
      if c.inSafetyMode then Some(SafetyMode)
      else if !c.isCurrentValidator && c.activeRatio < 0.8 then Some(ValidatorInactive)
      else if setup.config.networkPartitionMode then Some(NetworkPartition)
      else None
  }

  function ValidatorForEmptyBlock(setup: Setup, trigger: Trigger): Address {
    if trigger.SafetyMode? || trigger.NetworkPartition? then setup.config.systemValidator else setup.address
  }

  function Header(slot: Slot, txRoot: Hash, stateRoot: Hash, validator: Address): BlockHeader {
    BlockHeader(slot.number, slot.time, slot.prevHash, txRoot, stateRoot, validator, Zeros(64), SHARD_ID,
                [Zeros(32), Zeros(32), Zeros(32)])
  }

  function CreateEmptyBlock(sha: Sha, setup: Setup, slot: Slot, trigger: Trigger): Option<Block> {
    var header := Header(slot, EmptyTxRoot(sha), slot.stateRoot, ValidatorForEmptyBlock(setup, trigger));
    if trigger.SafetyMode? || trigger.NetworkPartition? then Some(Block(header, []))
    else
      var signature := setup.sign(header);
      if signature.None? then None else Some(Block(header.(signature := signature.value), []))
  }

  // ---------- trial execution ----------

  /** processTransactionOnState: no nonce check, and no fallback to the store. */
  function TryTx(state: Accounts, tx: Transaction): Option<Accounts> {
    var s := Load(Load(state, map[], tx.from), map[], tx.to);
    if s[tx.from].balance < Cost(tx) then None else Some(Credit(Debit(s, tx), tx))
  }

  function TryAll(state: Accounts, txs: seq<Transaction>): Option<Accounts> {
    if txs == [] then Some(state)
    else
      var before := TryAll(state, txs[..|txs| - 1]);
      if before.None? then None else TryTx(before.value, txs[|txs| - 1])
  }

  function Hashes(sha: Sha, txs: seq<Transaction>): (hashes: seq<Hash>)
    ensures |hashes| == |txs|
    ensures forall i :: 0 <= i < |txs| ==> hashes[i] == TransactionHash(sha, txs[i])
  {
    seq(|txs|, i requires 0 <= i < |txs| => TransactionHash(sha, txs[i]))
  }

  /** createBlockWithTransactions: an oversized block is rebuilt from half its transactions. */
  function CreateBlock(sha: Sha, setup: Setup, slot: Slot, state: Accounts, txs: seq<Transaction>): Option<Block>
    decreases |txs|
  {
    var hashes := Hashes(sha, txs);
    if TryAll(state, txs).None? then CreateEmptyBlock(sha, setup, slot, NoTransactions)
    else
      var header := Header(slot, TxRoot(sha, hashes), setup.rootOf(txs), setup.address);
      var signature := setup.sign(header);
      if signature.None? then None
      else
        var block := Block(header.(signature := signature.value), hashes);
        if BlockSize(block) <= MAX_BLOCK_SIZE then Some(block)
        else if |txs| / 2 > 0 then CreateBlock(sha, setup, slot, state, txs[..|txs| / 2])
        else CreateEmptyBlock(sha, setup, slot, NoTransactions)
  }

  // ---------- filtering ----------

  predicate WellFormed(tx: Transaction) {
    tx.from != Zeros(20) && tx.to != Zeros(20) && tx.amount != 0 && tx.gasPrice != 0 && tx.gasLimit != 0
  }

  predicate Affordable(account: Account, tx: Transaction) {
    account.balance >= Cost(tx) && tx.nonce == Wrap(account.nonce + 1)
  }

  /** filterValidTransactions. Every check reads the sender's account through the manager. */
  function FilterValid(state: Accounts, stored: Accounts, txs: seq<Transaction>): (valid: seq<Transaction>) {
    if txs == [] then []
    else
      var n := |txs| - 1;
      var before := FilterValid(state, stored, txs[..n]);
      var tx := txs[n];
      if WellFormed(tx) && Affordable(Lookup(state, stored, tx.from), tx) && tx.signature != Zeros(64)
      then before + [tx] else before
  }

  /** The accounts the filter's reads leave cached. */
  function FilterState(state: Accounts, stored: Accounts, txs: seq<Transaction>): Accounts {
    if txs == [] then state
    else
      var n := |txs| - 1;
      var before := FilterState(state, stored, txs[..n]);
      if WellFormed(txs[n]) then Load(before, stored, txs[n].from) else before
  }

  /** The digest of the block below a height, the zero digest below height zero. */
  function PrevHash(sha: Sha, l: Ledger, number: U64): Option<Hash> {
    if number == 0 then Some(Zeros(32))
    else if number - 1 in l.store.blocks then Some(HeaderHash(sha, l.store.blocks[number - 1].header))
    else None
  }

  /** ProduceBlock on a running producer. `pending` is the pool's answer. */
  function Produce(sha: Sha, setup: Setup, l: Ledger, time: I64, number: U64, stateRoot: Hash,
          pending: Option<seq<Transaction>>): Option<Block>
  {
    var prev := PrevHash(sha, l, number);
    if prev.None? then None
    else
      var slot := Slot(time, number, prev.value, stateRoot);
      var trigger := ShouldCreateEmptyBlock(setup);
      if trigger.Some? then CreateEmptyBlock(sha, setup, slot, trigger.value)
      else if pending.None? then CreateEmptyBlock(sha, setup, slot, TransactionFailure)
      else if pending.value == [] then CreateEmptyBlock(sha, setup, slot, NoTransactions)
      else
        var valid := FilterValid(l.state, l.store.accounts, pending.value);
        if valid == [] then CreateEmptyBlock(sha, setup, slot, TransactionFailure)
        else CreateBlock(sha, setup, slot, FilterState(l.state, l.store.accounts, pending.value), valid)
  }

  /** The accounts ProduceBlock leaves cached: more of them on the branches that filter. */
  function ProducedState(sha: Sha, setup: Setup, l: Ledger, number: U64, pending: Option<seq<Transaction>>): Accounts {
    if PrevHash(sha, l, number).None? || ShouldCreateEmptyBlock(setup).Some? || pending.None? then l.state
    else FilterState(l.state, l.store.accounts, pending.value)
  }

  // ---------- producer and validator agree ----------

  /** A block for the slot whose transactions are the digests of a prefix of `txs`. */
  ghost predicate Fits(sha: Sha, slot: Slot, txs: seq<Transaction>, b: Block) {
    && b.header.number == slot.number && b.header.timestamp == slot.time && b.header.prevHash == slot.prevHash
    && b.header.txRoot == TxRoot(sha, b.transactions) && b.header.shardID == SHARD_ID
    && BlockSize(b) <= MAX_BLOCK_SIZE
    && |b.transactions| <= |txs| && b.transactions == Hashes(sha, txs[..|b.transactions|])
  }

  lemma EmptyBlockFits(sha: Sha, setup: Setup, slot: Slot, trigger: Trigger, txs: seq<Transaction>)
    ensures var b := CreateEmptyBlock(sha, setup, slot, trigger); b.Some? ==> Fits(sha, slot, txs, b.value)
  {}

  lemma FitsPrefix(sha: Sha, slot: Slot, txs: seq<Transaction>, n: nat, b: Block)
    requires n <= |txs| && Fits(sha, slot, txs[..n], b)
    ensures Fits(sha, slot, txs, b)
  {
    assert txs[..n][..|b.transactions|] == txs[..|b.transactions|];
  }

  lemma {:induction false} CreatedBlockFits(sha: Sha, setup: Setup, slot: Slot, state: Accounts, txs: seq<Transaction>)
    ensures var b := CreateBlock(sha, setup, slot, state, txs); b.Some? ==> Fits(sha, slot, txs, b.value)
    decreases |txs|
  {
    EmptyBlockFits(sha, setup, slot, NoTransactions, txs);
    assert txs[..|txs|] == txs;
    hide TxRoot, CreateEmptyBlock, TryAll, TransactionHash;
    var half := |txs| / 2;
    if half > 0 {
      CreatedBlockFits(sha, setup, slot, state, txs[..half]);
      var b := CreateBlock(sha, setup, slot, state, txs[..half]);
      if b.Some? { FitsPrefix(sha, slot, txs, half, b.value); }
    }
  }

  lemma FitsTip(sha: Sha, l: Ledger, slot: Slot, txs: seq<Transaction>, b: Block)
    requires Fits(sha, slot, txs, b) && l.tip.header.number < 0xFFFF_FFFF_FFFF_FFFF
    requires slot.number == l.tip.header.number + 1 && slot.prevHash == HeaderHash(sha, l.tip.header)
    ensures Accepts(sha, l.tip, b)
  {}

  /** Whatever branch is taken for the height above the tip, the block passes the manager's checks,
      fits the size limit, and lists the digests of a prefix of the filtered transactions. */
  lemma ProducedBlockAccepted(sha: Sha, setup: Setup, l: Ledger, time: I64, stateRoot: Hash,
          pending: Option<seq<Transaction>>)
    requires l.tip.header.number < 0xFFFF_FFFF_FFFF_FFFF
    requires l.tip.header.number in l.store.blocks && l.store.blocks[l.tip.header.number] == l.tip
    ensures var b := Produce(sha, setup, l, time, l.tip.header.number + 1, stateRoot, pending);
            b.Some? ==>
              && Accepts(sha, l.tip, b.value) && b.value.header.timestamp == time
              && BlockSize(b.value) <= MAX_BLOCK_SIZE
              && var n := |b.value.transactions|;
                 var valid := if pending.Some? then FilterValid(l.state, l.store.accounts, pending.value) else [];
                 n <= |valid| && b.value.transactions == Hashes(sha, valid[..n])
  {
    hide CreateBlock, CreateEmptyBlock, FilterValid, FilterState, ShouldCreateEmptyBlock, TxRoot, HeaderHash,
      ValidateBlock;
    var slot := Slot(time, l.tip.header.number + 1, HeaderHash(sha, l.tip.header), stateRoot);
    var valid := if pending.Some? then FilterValid(l.state, l.store.accounts, pending.value) else [];
    forall trigger: Trigger
      ensures var b := CreateEmptyBlock(sha, setup, slot, trigger); b.Some? ==> Fits(sha, slot, valid, b.value)
    {
      EmptyBlockFits(sha, setup, slot, trigger, valid);
    }
    if pending.Some? {
      CreatedBlockFits(sha, setup, slot, FilterState(l.state, l.store.accounts, pending.value), valid);
    }
    var b := Produce(sha, setup, l, time, l.tip.header.number + 1, stateRoot, pending);
    if b.Some? {
      assert Fits(sha, slot, valid, b.value);
      FitsTip(sha, l, slot, valid, b.value);
    }
  }

  // ---------- does the manager execute what the producer built? ----------

  ghost predicate DistinctSenders(txs: seq<Transaction>) {
    forall i, j :: 0 <= i < j < |txs| ==> txs[i].from != txs[j].from
  }

  /** Every transaction is affordable and next in its sender's order, against one state. */
  ghost predicate Filtered(v: Accounts, txs: seq<Transaction>) {
    forall i :: 0 <= i < |txs| ==> Affordable(Of(v, txs[i].from), txs[i])
  }

  ghost predicate CostsFit(txs: seq<Transaction>) {
    forall i :: 0 <= i < |txs| ==> CostFits(txs[i])
  }

  /** What is stored under these digests, if anything, are these transactions, signatures aside. */
  ghost predicate Genuine(sha: Sha, store: map<Hash, Transaction>, txs: seq<Transaction>) {
    forall i :: 0 <= i < |txs| && TransactionHash(sha, txs[i]) in store ==>
      SameUnsigned(store[TransactionHash(sha, txs[i])], txs[i])
  }

  ghost predicate AllStored(sha: Sha, store: map<Hash, Transaction>, txs: seq<Transaction>) {
    Genuine(sha, store, txs) && forall i :: 0 <= i < |txs| ==> TransactionHash(sha, txs[i]) in store
  }

  /** The transactions of a list that are stored. */
  function Known(sha: Sha, store: map<Hash, Transaction>, txs: seq<Transaction>): seq<Transaction> {
    if txs == [] then []
    else
      var n := |txs| - 1;
      var before := Known(sha, store, txs[..n]);
      if TransactionHash(sha, txs[n]) in store then before + [txs[n]] else before
  }

  function Senders(txs: seq<Transaction>): set<Address> { set i | 0 <= i < |txs| :: txs[i].from }

  /** An account part-way through a list of transactions with distinct senders: still to send, it
      is no poorer and has the same nonce. */
  ghost predicate Waiting(v: Accounts, now: Accounts, done: seq<Transaction>, a: Address) {
    a !in Senders(done) ==> Of(now, a).balance >= Of(v, a).balance && Of(now, a).nonce == Of(v, a).nonce
  }

  ghost predicate Midway(v: Accounts, now: Accounts, done: seq<Transaction>) {
    && Total(now) <= Total(v)
    && (forall a: Address :: Waiting(v, now, done, a))
    && (forall i :: 0 <= i < |done| ==> Of(now, done[i].from).nonce == done[i].nonce)
  }

  lemma SendersAppend(done: seq<Transaction>, tx: Transaction)
    ensures Senders(done + [tx]) == Senders(done) + {tx.from}
  {
    var all := done + [tx];
    forall a | a in Senders(done) + {tx.from} ensures a in Senders(all) {
      if a == tx.from {
        assert all[|done|].from == a;
      } else {
        var i :| 0 <= i < |done| && done[i].from == a;
        assert all[i].from == a;
      }
    }
  }

  lemma CreditNeverWraps(v: Accounts, tx: Transaction, a: Address)
    requires ProcessTx(v, map[], tx).1 == Applied && CostFits(tx) && Total(v) < 0x1_0000_0000_0000_0000
    ensures Total(ProcessTx(v, map[], tx).0) <= Total(v)
    ensures a != tx.from ==> Of(ProcessTx(v, map[], tx).0, a).balance >= Of(v, a).balance
    ensures Of(ProcessTx(v, map[], tx).0, a).nonce == if a == tx.from then tx.nonce else Of(v, a).nonce
  {
    CostExact(tx);
    TransferTotals(v, tx);
    NoncesAfter(v, tx, a);
    ProcessTxOn(v, tx, a);
    if a == tx.to && a != tx.from {
      LookupAlone(v, a);
      assert EntryFor(v, map[], tx).before == Of(v, a).balance;
    }
  }

  lemma WaitingStep(v: Accounts, now: Accounts, done: seq<Transaction>, tx: Transaction, a: Address)
    requires Waiting(v, now, done, a) && ProcessTx(now, map[], tx).1 == Applied
    requires CostFits(tx) && Total(now) < 0x1_0000_0000_0000_0000
    ensures Waiting(v, ProcessTx(now, map[], tx).0, done + [tx], a)
  {
    hide ProcessTx, Cost, Senders;
    SendersAppend(done, tx);
    CreditNeverWraps(now, tx, a);
  }

  lemma MidwayApplies(v: Accounts, now: Accounts, done: seq<Transaction>, tx: Transaction)
    requires Waiting(v, now, done, tx.from) && tx.from !in Senders(done)
    requires Affordable(Of(v, tx.from), tx)
    ensures ProcessTx(now, map[], tx).1 == Applied
  {
    ProcessTxOn(now, tx, tx.from);
    hide ProcessTx, Cost;
  }

  lemma MidwayStep(v: Accounts, now: Accounts, done: seq<Transaction>, tx: Transaction)
    requires Midway(v, now, done) && Total(v) < 0x1_0000_0000_0000_0000
    requires tx.from !in Senders(done)
    requires Affordable(Of(v, tx.from), tx) && CostFits(tx)
    ensures ProcessTx(now, map[], tx).1 == Applied
    ensures Midway(v, ProcessTx(now, map[], tx).0, done + [tx])
  {
    hide ProcessTx, Cost, Senders, Waiting, CostFits, Affordable, Of, Total;
    MidwayApplies(v, now, done, tx);
    CreditNeverWraps(now, tx, tx.from);
    var now', done' := ProcessTx(now, map[], tx).0, done + [tx];
    forall a: Address ensures Waiting(v, now', done', a) {
      WaitingStep(v, now, done, tx, a);
    }
    forall i | 0 <= i < |done'| ensures Of(now', done'[i].from).nonce == done'[i].nonce {
      if i < |done| {
        MemberSender(done, i);
        CreditNeverWraps(now, tx, done[i].from);
      }
    }
  }

  lemma MemberSender(txs: seq<Transaction>, i: nat)
    requires i < |txs|
    ensures txs[i].from in Senders(txs)
  {}

  lemma LastDistinct(txs: seq<Transaction>)
    requires txs != []
    ensures DistinctSenders(txs)
            <==> DistinctSenders(txs[..|txs| - 1]) && txs[|txs| - 1].from !in Senders(txs[..|txs| - 1])
  {
    var n := |txs| - 1;
    var init := txs[..n];
    if DistinctSenders(init) && txs[n].from !in Senders(init) {
      forall i, j | 0 <= i < j < |txs| ensures txs[i].from != txs[j].from {
        assert txs[i] == init[i];
        if j < n { assert txs[j] == init[j]; }
      }
    }
  }

  /** Distinct senders: everything is applied. */
  lemma {:induction false} DistinctSendersApply(sha: Sha, v: Accounts, store: map<Hash, Transaction>,
          txs: seq<Transaction>)
    requires Filtered(v, txs) && CostsFit(txs) && AllStored(sha, store, txs)
    requires Total(v) < 0x1_0000_0000_0000_0000 && DistinctSenders(txs)
    ensures ProcessTxs(v, map[], store, Hashes(sha, txs)).ok
    ensures Midway(v, ProcessTxs(v, map[], store, Hashes(sha, txs)).state, txs)
    decreases |txs|
  {
    hide Midway, ProcessTx, TransactionHash, DistinctSenders, Senders, CostFits, Affordable, Total, SameUnsigned;
    if txs == [] {
      NothingDone(v);
    } else {
      var n := |txs| - 1;
      assert Hashes(sha, txs)[..n] == Hashes(sha, txs[..n]);
      LastDistinct(txs);
      DistinctSendersApply(sha, v, store, txs[..n]);
      var now := ProcessTxs(v, map[], store, Hashes(sha, txs[..n])).state;
      MidwayStep(v, now, txs[..n], txs[n]);
      SignatureIgnored(now, map[], store[TransactionHash(sha, txs[n])], txs[n]);
      assert txs == txs[..n] + [txs[n]];
    }
  }

  lemma NothingDone(v: Accounts)
    ensures Midway(v, v, [])
  {
    forall a: Address ensures Waiting(v, v, [], a) {}
  }

  lemma SecondSendRejected(v: Accounts, now: Accounts, done: seq<Transaction>, i: nat, tx: Transaction)
    requires Midway(v, now, done) && i < |done| && done[i].from == tx.from
    requires Affordable(Of(v, tx.from), tx) && Affordable(Of(v, tx.from), done[i])
    ensures ProcessTx(now, map[], tx).1 != Applied
  {
    ProcessTxOn(now, tx, tx.from);
    assert Of(now, tx.from).nonce == tx.nonce;
  }

  lemma {:induction false} FailedPrefix(v: Accounts, store: map<Hash, Transaction>, hashes: seq<Hash>, n: nat)
    requires n <= |hashes| && !ProcessTxs(v, map[], store, hashes[..n]).ok
    ensures !ProcessTxs(v, map[], store, hashes).ok
    decreases |hashes|
  {
    if n == |hashes| {
      assert hashes[..n] == hashes;
    } else {
      var m := |hashes| - 1;
      assert hashes[..m][..n] == hashes[..n];
      FailedPrefix(v, store, hashes[..m], n);
    }
  }

  /** A repeated sender: the second transaction fails, and with it the block. */
  lemma {:induction false} RepeatedSenderFails(sha: Sha, v: Accounts, store: map<Hash, Transaction>,
          txs: seq<Transaction>)
    requires Filtered(v, txs) && CostsFit(txs) && AllStored(sha, store, txs)
    requires Total(v) < 0x1_0000_0000_0000_0000 && !DistinctSenders(txs)
    ensures !ProcessTxs(v, map[], store, Hashes(sha, txs)).ok
    decreases |txs|
  {
    hide Midway, ProcessTx, TransactionHash, DistinctSenders, CostFits, Affordable, Total, SameUnsigned;
    assert txs != [] by { NoneIsDistinct(); }
    var n := |txs| - 1;
    var hashes := Hashes(sha, txs);
    assert hashes[..n] == Hashes(sha, txs[..n]);
    LastDistinct(txs);
    if DistinctSenders(txs[..n]) {
      DistinctSendersApply(sha, v, store, txs[..n]);
      var i :| 0 <= i < n && txs[..n][i].from == txs[n].from;
      var now := ProcessTxs(v, map[], store, hashes[..n]).state;
      SecondSendRejected(v, now, txs[..n], i, txs[n]);
      SignatureIgnored(now, map[], store[TransactionHash(sha, txs[n])], txs[n]);
    } else {
      RepeatedSenderFails(sha, v, store, txs[..n]);
      FailedPrefix(v, store, hashes, n);
    }
  }

  lemma NoneIsDistinct()
    ensures DistinctSenders([])
  {}

  /** The manager skips what is not stored: it executes the known transactions of a list. */
  lemma {:induction false} KnownExecuted(sha: Sha, v: Accounts, store: map<Hash, Transaction>, txs: seq<Transaction>)
    ensures ProcessTxs(v, map[], store, Hashes(sha, txs))
            == ProcessTxs(v, map[], store, Hashes(sha, Known(sha, store, txs)))
    decreases |txs|
  {
    hide ProcessOne, TransactionHash;
    if txs != [] {
      var n := |txs| - 1;
      assert Hashes(sha, txs)[..n] == Hashes(sha, txs[..n]);
      var before := Known(sha, store, txs[..n]);
      KnownExecuted(sha, v, store, txs[..n]);
      assert Hashes(sha, before + [txs[n]])[..|before|] == Hashes(sha, before);
    }
  }

  lemma {:induction false} KnownMembers(sha: Sha, store: map<Hash, Transaction>, txs: seq<Transaction>)
    ensures forall tx :: tx in Known(sha, store, txs) <==> tx in txs && TransactionHash(sha, tx) in store
    decreases |txs|
  {
    hide TransactionHash;
    if txs != [] {
      KnownMembers(sha, store, txs[..|txs| - 1]);
      assert txs == txs[..|txs| - 1] + [txs[|txs| - 1]];
    }
  }

  /** The known ones are as good as the list and the store. */
  lemma KnownReady(sha: Sha, v: Accounts, store: map<Hash, Transaction>, txs: seq<Transaction>)
    requires Filtered(v, txs) && Genuine(sha, store, txs) && AllCostsFit(store)
    ensures var known := Known(sha, store, txs);
            Filtered(v, known) && CostsFit(known) && AllStored(sha, store, known)
  {
    hide TransactionHash, Affordable, Known;
    KnownMembers(sha, store, txs);
    var known := Known(sha, store, txs);
    forall i | 0 <= i < |known|
      ensures Affordable(Of(v, known[i].from), known[i]) && CostFits(known[i])
      ensures TransactionHash(sha, known[i]) in store
      ensures SameUnsigned(store[TransactionHash(sha, known[i])], known[i])
    {
      assert known[i] in known;
      var k :| 0 <= k < |txs| && txs[k] == known[i];
    }
  }

  /** A block of filtered transactions is executed by the manager exactly when no sender appears twice
      among those of them that are stored: the filter judges every transaction against one and the same
      state, and the manager skips the others. */
  lemma ProducedBlockExecutes(sha: Sha, l: Ledger, b: Block, txs: seq<Transaction>)
    requires Accepts(sha, l.tip, b) && b.transactions == Hashes(sha, txs)
    requires Filtered(View(l), txs) && Genuine(sha, l.store.txs, txs) && AllCostsFit(l.store.txs)
    requires Total(View(l)) < 0x1_0000_0000_0000_0000
    ensures AddBlock(sha, l, b).1 == if DistinctSenders(Known(sha, l.store.txs, txs)) then Added else Failed
  {
    hide ProcessTxs, DistinctSenders, Filtered, Genuine, AllStored, CostsFit, AllCostsFit, Known, Total;
    var known := Known(sha, l.store.txs, txs);
    AddBlockView(sha, l, b);
    KnownReady(sha, View(l), l.store.txs, txs);
    KnownExecuted(sha, View(l), l.store.txs, txs);
    if DistinctSenders(known) {
      DistinctSendersApply(sha, View(l), l.store.txs, known);
    } else {
      RepeatedSenderFails(sha, View(l), l.store.txs, known);
    }
  }

  /** The filter's output is `Filtered`. */
  lemma {:induction false} FilterIsFiltered(l: Ledger, txs: seq<Transaction>)
    ensures Filtered(View(l), FilterValid(l.state, l.store.accounts, txs))
    decreases |txs|
  {
    if txs != [] {
      var n := |txs| - 1;
      FilterIsFiltered(l, txs[..n]);
      LookupIsView(l, txs[n].from);
    }
  }

  lemma {:induction false} FilterOnlyCaches(l: Ledger, txs: seq<Transaction>)
    ensures var l' := l.(state := FilterState(l.state, l.store.accounts, txs));
            && Total(View(l')) == Total(View(l))
            && forall a: Address :: Of(View(l'), a) == Of(View(l), a)
    decreases |txs|
  {
    if txs != [] {
      var n := |txs| - 1;
      FilterOnlyCaches(l, txs[..n]);
      var before := FilterState(l.state, l.store.accounts, txs[..n]);
      LoadView(before, l.store.accounts, txs[n].from);
      LoadTotal(l.store.accounts + before, txs[n].from);
      hide Load, Total;
    }
  }

  lemma FilteredPrefix(v: Accounts, w: Accounts, txs: seq<Transaction>, n: nat)
    requires Filtered(v, txs) && n <= |txs| && forall a: Address :: Of(v, a) == Of(w, a)
    ensures Filtered(w, txs[..n])
  {
    hide Affordable, Of;
    forall i | 0 <= i < n ensures Affordable(Of(w, txs[..n][i].from), txs[..n][i]) {
      assert txs[..n][i] == txs[i];
    }
  }

  lemma {:induction false} FilterKeepsMembers(state: Accounts, stored: Accounts, txs: seq<Transaction>)
    ensures forall tx :: tx in FilterValid(state, stored, txs) ==> tx in txs
    decreases |txs|
  {
    hide Affordable, Lookup;
    if txs != [] {
      FilterKeepsMembers(state, stored, txs[..|txs| - 1]);
      assert txs == txs[..|txs| - 1] + [txs[|txs| - 1]];
    }
  }

  lemma GenuinePrefix(sha: Sha, store: map<Hash, Transaction>, txs: seq<Transaction>, valid: seq<Transaction>, n: nat)
    requires Genuine(sha, store, txs) && n <= |valid| && forall tx :: tx in valid ==> tx in txs
    ensures Genuine(sha, store, valid[..n])
  {
    hide TransactionHash, SameUnsigned;
    forall i | 0 <= i < n && TransactionHash(sha, valid[..n][i]) in store
      ensures SameUnsigned(store[TransactionHash(sha, valid[..n][i])], valid[..n][i])
    {
      assert valid[..n][i] == valid[i] && valid[i] in txs;
    }
  }

  /** The filtered transactions of a pool's answer. */
  function ValidOf(l: Ledger, pending: Option<seq<Transaction>>): seq<Transaction> {
    if pending.Some? then FilterValid(l.state, l.store.accounts, pending.value) else []
  }

  /** The stored transactions of a block made of these. */
  function KnownOf(sha: Sha, l: Ledger, b: Block, pending: Option<seq<Transaction>>): seq<Transaction>
    requires |b.transactions| <= |ValidOf(l, pending)|
  {
    Known(sha, l.store.txs, ValidOf(l, pending)[..|b.transactions|])
  }

  /** What the manager makes of the block the producer returns, in the state the producer leaves: it is
      added exactly when no sender appears twice among its stored transactions, and fails otherwise. */
  lemma ProducedBlockRuns(sha: Sha, setup: Setup, l: Ledger, time: I64, stateRoot: Hash,
          pending: Option<seq<Transaction>>)
    requires l.tip.header.number < 0xFFFF_FFFF_FFFF_FFFF && Total(View(l)) < 0x1_0000_0000_0000_0000
    requires l.tip.header.number in l.store.blocks && l.store.blocks[l.tip.header.number] == l.tip
    requires AllCostsFit(l.store.txs) && (pending.Some? ==> Genuine(sha, l.store.txs, pending.value))
    ensures var number := l.tip.header.number + 1;
            var b := Produce(sha, setup, l, time, number, stateRoot, pending);
            b.Some? ==>
              && |b.value.transactions| <= |ValidOf(l, pending)|
              && AddBlock(sha, l.(state := ProducedState(sha, setup, l, number, pending)), b.value).1
                 == if DistinctSenders(KnownOf(sha, l, b.value, pending)) then Added else Failed
  {
    hide Produce, ProducedState, FilterValid, FilterState, Filtered, Genuine, AllCostsFit, Accepts, AddBlock,
      DistinctSenders, Total, PrevHash, Known;
    var number := l.tip.header.number + 1;
    var produced := Produce(sha, setup, l, time, number, stateRoot, pending);
    if produced.Some? {
      ProducedBlockAccepted(sha, setup, l, time, stateRoot, pending);
      var l' := l.(state := ProducedState(sha, setup, l, number, pending));
      var valid, n := ValidOf(l, pending), |produced.value.transactions|;
      ProducedLedger(sha, setup, l, number, pending);
      ValidRuns(sha, l, pending);
      FilteredPrefix(View(l), View(l'), valid, n);
      if pending.Some? {
        FilterKeepsMembers(l.state, l.store.accounts, pending.value);
        GenuinePrefix(sha, l.store.txs, pending.value, valid, n);
      } else {
        NoneGenuine(sha, l.store.txs);
      }
      ProducedBlockExecutes(sha, l', produced.value, valid[..n]);
    }
  }

  /** One of these transactions and the one stored under its digest have different digest inputs. */
  ghost predicate Collides(sha: Sha, store: map<Hash, Transaction>, txs: seq<Transaction>) {
    exists i :: 0 <= i < |txs| && TransactionHash(sha, txs[i]) in store
      && TransactionBytes(store[TransactionHash(sha, txs[i])]) != TransactionBytes(txs[i])
      && TransactionHash(sha, store[TransactionHash(sha, txs[i])]) == TransactionHash(sha, txs[i])
  }

  lemma GenuineOrCollides(sha: Sha, store: map<Hash, Transaction>, txs: seq<Transaction>)
    requires TxsKeyed(sha, store)
    ensures Genuine(sha, store, txs) || Collides(sha, store, txs)
  {
    if i :| 0 <= i < |txs| && TransactionHash(sha, txs[i]) in store
            && !SameUnsigned(store[TransactionHash(sha, txs[i])], txs[i]) {
      TransactionBytesInjective(store[TransactionHash(sha, txs[i])], txs[i]);
      hide TransactionBytes;
    }
  }

  /** Over every run from a new chain with a 64-bit supply and costs that fit, whatever the pool answers:
      the block the producer returns is added exactly when no sender appears twice among its stored
      transactions, and fails otherwise; or a pending transaction collides with a stored one. */
  lemma ProducedInRun(sha: Sha, genesis: Genesis, genesisRoot: Hash, events: seq<Event>, setup: Setup, time: I64,
          stateRoot: Hash, pending: Option<seq<Transaction>>)
    requires |events| < 0xFFFF_FFFF_FFFF_FFFF
    requires Total(InitState(genesis.initAccounts)) < 0x1_0000_0000_0000_0000 && FittingEvents(events)
    ensures var l := Run(sha, CreateNewChain(sha, genesis, genesisRoot), events);
            l.tip.header.number < 0xFFFF_FFFF_FFFF_FFFF
            && var number := l.tip.header.number + 1;
               var b := Produce(sha, setup, l, time, number, stateRoot, pending);
               b.Some? ==>
                 && |b.value.transactions| <= |ValidOf(l, pending)|
                 && (AddBlock(sha, l.(state := ProducedState(sha, setup, l, number, pending)), b.value).1
                     == (if DistinctSenders(KnownOf(sha, l, b.value, pending)) then Added else Failed)
                     || (pending.Some? && Collides(sha, l.store.txs, pending.value)))
  {
    hide *;
    var l0 := CreateNewChain(sha, genesis, genesisRoot);
    var l := Run(sha, l0, events);
    RunTip(sha, genesis, genesisRoot, events);
    RunSupply(sha, genesis, genesisRoot, events);
    RunKeyed(sha, genesis, genesisRoot, events);
    ProducedBlockAccepted(sha, setup, l, time, stateRoot, pending);
    ProducedSize(sha, setup, l, time, stateRoot, pending);
    if pending.Some? { GenuineOrCollides(sha, l.store.txs, pending.value); }
    if pending.Some? ==> Genuine(sha, l.store.txs, pending.value) {
      ProducedBlockRuns(sha, setup, l, time, stateRoot, pending);
    }
  }

  lemma ProducedSize(sha: Sha, setup: Setup, l: Ledger, time: I64, stateRoot: Hash, pending: Option<seq<Transaction>>)
    requires l.tip.header.number < 0xFFFF_FFFF_FFFF_FFFF
    requires l.tip.header.number in l.store.blocks && l.store.blocks[l.tip.header.number] == l.tip
    ensures var b := Produce(sha, setup, l, time, l.tip.header.number + 1, stateRoot, pending);
            b.Some? ==> |b.value.transactions| <= |ValidOf(l, pending)|
  {
    hide Produce, FilterValid;
    ProducedBlockAccepted(sha, setup, l, time, stateRoot, pending);
  }

  lemma RunTip(sha: Sha, genesis: Genesis, stateRoot: Hash, events: seq<Event>)
    requires |events| < 0xFFFF_FFFF_FFFF_FFFF
    ensures var l := Run(sha, CreateNewChain(sha, genesis, stateRoot), events);
            && l.tip.header.number < 0xFFFF_FFFF_FFFF_FFFF
            && l.tip.header.number in l.store.blocks && l.store.blocks[l.tip.header.number] == l.tip
  {
    hide CreateNewChain, Run, HoldsDigests, ValidChain, ChainOf;
    var l0 := CreateNewChain(sha, genesis, stateRoot);
    var c := ChainOf(sha, l0, events);
    RunIndexed(sha, genesis, stateRoot, events);
    TipHeight(sha, c, Run(sha, l0, events));
  }

  lemma RunSupply(sha: Sha, genesis: Genesis, stateRoot: Hash, events: seq<Event>)
    requires Total(InitState(genesis.initAccounts)) < 0x1_0000_0000_0000_0000 && FittingEvents(events)
    ensures var l := Run(sha, CreateNewChain(sha, genesis, stateRoot), events);
            Total(View(l)) < 0x1_0000_0000_0000_0000 && AllCostsFit(l.store.txs)
  {
    hide CreateNewChain, Run, RunLog, Total, FittingEvents, AllCostsFit, Numbered, NoCreditWraps, InitState, Fees;
    RunKeeps(sha, genesis, stateRoot, events, true);
  }

  lemma NoneGenuine(sha: Sha, store: map<Hash, Transaction>)
    ensures Genuine(sha, store, [])
  {}

  lemma ValidRuns(sha: Sha, l: Ledger, pending: Option<seq<Transaction>>)
    ensures Filtered(View(l), ValidOf(l, pending))
  {
    if pending.Some? { FilterIsFiltered(l, pending.value); }
  }

  lemma ProducedLedger(sha: Sha, setup: Setup, l: Ledger, number: U64, pending: Option<seq<Transaction>>)
    ensures var l' := l.(state := ProducedState(sha, setup, l, number, pending));
            && Total(View(l')) == Total(View(l))
            && forall a: Address :: Of(View(l'), a) == Of(View(l), a)
  {
    hide View, Of, Total, FilterState, PrevHash, ShouldCreateEmptyBlock;
    if pending.Some? { FilterOnlyCaches(l, pending.value); }
  }

  function Signed(tx: Transaction): (r: Transaction)
    ensures r.signature != Zeros(64) && r == tx.(signature := r.signature)
  {
    var one: Bytes := [1];
    assert (one + Zeros(63))[0] == 1 && Zeros(64)[0] == 0;
    tx.(signature := one + Zeros(63))
  }

  /** A producer that asks no checker and whose signing works. */
  function PlainSetup(address: Address): Setup {
    Setup(address, EmptyBlockConfig(false, false, address), None, h => Some(Zeros(64)), txs => Zeros(32))
  }

  lemma FilterNext(state: Accounts, stored: Accounts, txs: seq<Transaction>, tx: Transaction)
    requires WellFormed(tx) && Affordable(Lookup(state, stored, tx.from), tx) && tx.signature != Zeros(64)
    ensures FilterValid(state, stored, txs + [tx]) == FilterValid(state, stored, txs) + [tx]
    ensures FilterState(state, stored, txs + [tx]) == Load(FilterState(state, stored, txs), stored, tx.from)
  {
    hide Affordable, WellFormed, Lookup, Load;
    assert (txs + [tx])[..|txs|] == txs;
  }

  lemma FilterPair(state: Accounts, stored: Accounts, p: Transaction, q: Transaction)
    requires WellFormed(p) && Affordable(Lookup(state, stored, p.from), p) && p.signature != Zeros(64)
    requires WellFormed(q) && Affordable(Lookup(state, stored, q.from), q) && q.signature != Zeros(64)
    ensures FilterValid(state, stored, [p, q]) == [p, q]
    ensures FilterState(state, stored, [p, q]) == Load(Load(state, stored, p.from), stored, q.from)
  {
    FilterNext(state, stored, [], p);
    FilterNext(state, stored, [p], q);
    assert [] + [p] == [p] && [p] + [q] == [p, q];
  }

  lemma TryPair(state: Accounts, a: Address, p: Transaction, q: Transaction)
    requires a in state && state[a].balance == 100 && p.from == a == q.from && p.to != a && Cost(p) == 11 == Cost(q)
    ensures TryAll(state, [p, q]).Some?
  {
    hide Cost;
    assert [p, q][..1] == [p] && [p][..0] == [];
    assert TryAll(state, []) == Some(state);
    var one := TryAll(state, [p]);
    assert one == TryTx(state, p);
    assert one.Some? && one.value[a].balance == 89;
  }

  lemma PairBlock(sha: Sha, l: Ledger, a: Address, p: Transaction, q: Transaction, time: I64, stateRoot: Hash)
    requires 0 in l.store.blocks && a in l.state && l.state[a] == Account(a, 100, 0, 0)
    requires p.from == a == q.from && p.to != a && Cost(p) == 11 == Cost(q) && p.nonce == 1 == q.nonce
    requires WellFormed(p) && p.signature != Zeros(64) && WellFormed(q) && q.signature != Zeros(64)
    ensures ValidOf(l, Some([p, q])) == [p, q]
    ensures var b := Produce(sha, PlainSetup(a), l, time, 1, stateRoot, Some([p, q]));
            b.Some? && b.value.transactions == Hashes(sha, [p, q])
  {
    hide Cost, WellFormed, TryAll, FilterValid, FilterState, HeaderHash, TxRoot, TransactionHash;
    FilterPair(l.state, l.store.accounts, p, q);
    TryPair(l.state, a, p, q);
  }

  /** Two payments of one sender with one nonce, both stored and pending: trial execution passes, the
      producer builds a block of both, and the manager fails it; or the two payments collide. */
  lemma RepeatedSenderProduced(sha: Sha, stateRoot: Hash, a: Address, b: Address, c: Address, time: I64)
    requires a != b && a != c && b != c && a != Zeros(20) && b != Zeros(20) && c != Zeros(20)
    ensures var p, q := Signed(Payment(a, b)), Signed(Payment(a, c));
            var l := Run(sha, CreateNewChain(sha, Funded(a), stateRoot), [StoreTx(p), StoreTx(q)]);
            var produced := Produce(sha, PlainSetup(a), l, time, 1, stateRoot, Some([p, q]));
            var filtered := l.(state := ProducedState(sha, PlainSetup(a), l, 1, Some([p, q])));
            && produced.Some? && produced.value.transactions == Hashes(sha, [p, q])
            && (AddBlock(sha, filtered, produced.value).1 == Failed
                || (TransactionBytes(p) != TransactionBytes(q) && TransactionHash(sha, p) == TransactionHash(sha, q)))
  {
    var p, q := Signed(Payment(a, b)), Signed(Payment(a, c));
    hide TransactionBytes, TransactionHash, Produce, ProducedState, AddBlock, Run, Cost, HeaderHash, CreateNewChain,
      AllStored, AllCostsFit, CostFits, Genuine, WellFormed, FilterValid, Total, View, Known;
    var l := Run(sha, CreateNewChain(sha, Funded(a), stateRoot), [StoreTx(p), StoreTx(q)]);
    PairDiffers(a, b, c);
    PairLedger(sha, stateRoot, a, p, q);
    PairBlock(sha, l, a, p, q, time, stateRoot);
    if TransactionHash(sha, p) != TransactionHash(sha, q) {
      FundedTotal(l, a);
      AllKnown(sha, l.store.txs, [p, q]);
      ProducedBlockRuns(sha, PlainSetup(a), l, time, stateRoot, Some([p, q]));
      var txs := [p, q];
      assert txs[..2] == txs && txs[0].from == txs[1].from;
    }
  }

  lemma {:induction false} AllKnown(sha: Sha, store: map<Hash, Transaction>, txs: seq<Transaction>)
    requires AllStored(sha, store, txs)
    ensures Known(sha, store, txs) == txs && Genuine(sha, store, txs)
  {
    hide TransactionHash, SameUnsigned;
    if txs != [] {
      assert txs == txs[..|txs| - 1] + [txs[|txs| - 1]];
      AllKnown(sha, store, txs[..|txs| - 1]);
    }
  }

  /** The same two payments, pending but not stored: the block is produced all the same, the manager adds it,
      and no account changes. */
  lemma UnstoredPairAdded(sha: Sha, stateRoot: Hash, a: Address, b: Address, c: Address, time: I64)
    requires a != b && a != c && b != c && a != Zeros(20) && b != Zeros(20) && c != Zeros(20)
    ensures var p, q := Signed(Payment(a, b)), Signed(Payment(a, c));
            var l := CreateNewChain(sha, Funded(a), stateRoot);
            var produced := Produce(sha, PlainSetup(a), l, time, 1, stateRoot, Some([p, q]));
            var filtered := l.(state := ProducedState(sha, PlainSetup(a), l, 1, Some([p, q])));
            && produced.Some? && produced.value.transactions == Hashes(sha, [p, q])
            && AddBlock(sha, filtered, produced.value).1 == Added
            && forall x: Address :: Answer(AddBlock(sha, filtered, produced.value).0, x) == Answer(l, x)
  {
    var p, q := Signed(Payment(a, b)), Signed(Payment(a, c));
    hide TransactionBytes, TransactionHash, Produce, ProducedState, AddBlock, Cost, HeaderHash, WellFormed,
      FilterValid, Total, View, Of, Lookup, DistinctSenders;
    var l := CreateNewChain(sha, Funded(a), stateRoot);
    FundedState(a);
    assert l.state == l.store.accounts == map[a := Account(a, 100, 0, 0)];
    PairDiffers(a, b, c);
    PairBlock(sha, l, a, p, q, time, stateRoot);
    FundedTotal(l, a);
    ProducedBlockRuns(sha, PlainSetup(a), l, time, stateRoot, Some([p, q]));
    var txs := [p, q];
    assert txs[..2] == txs;
    NothingKnown(sha, txs);
    NoneIsDistinct();
    var produced := Produce(sha, PlainSetup(a), l, time, 1, stateRoot, Some(txs));
    var filtered := l.(state := ProducedState(sha, PlainSetup(a), l, 1, Some(txs)));
    ProducedLedger(sha, PlainSetup(a), l, 1, Some(txs));
    SkippedAll(sha, filtered, produced.value);
    forall x: Address ensures Answer(AddBlock(sha, filtered, produced.value).0, x) == Answer(l, x) {
      LookupIsView(AddBlock(sha, filtered, produced.value).0, x);
      LookupIsView(l, x);
    }
  }

  lemma {:induction false} NothingKnown(sha: Sha, txs: seq<Transaction>)
    ensures Known(sha, map[], txs) == []
  {
    if txs != [] { NothingKnown(sha, txs[..|txs| - 1]); }
  }

  lemma PairDiffers(a: Address, b: Address, c: Address)
    requires b != c && a != Zeros(20) && b != Zeros(20) && c != Zeros(20)
    ensures var p, q := Signed(Payment(a, b)), Signed(Payment(a, c));
            && TransactionBytes(p) != TransactionBytes(q) && Cost(p) == 11 == Cost(q)
            && WellFormed(p) && WellFormed(q) && CostFits(p) && CostFits(q)
  {
    hide TransactionBytes;
    TransactionBytesInjective(Signed(Payment(a, b)), Signed(Payment(a, c)));
  }

  /** A new chain with both stored. */
  lemma PairLedger(sha: Sha, stateRoot: Hash, a: Address, p: Transaction, q: Transaction)
    requires CostFits(p) && CostFits(q)
    ensures var l := Run(sha, CreateNewChain(sha, Funded(a), stateRoot), [StoreTx(p), StoreTx(q)]);
            && l.state == l.store.accounts == map[a := Account(a, 100, 0, 0)]
            && l.tip.header.number == 0 && 0 in l.store.blocks && l.store.blocks[0] == l.tip
            && AllCostsFit(l.store.txs)
            && (TransactionHash(sha, p) != TransactionHash(sha, q) ==> AllStored(sha, l.store.txs, [p, q]))
  {
    var l0 := CreateNewChain(sha, Funded(a), stateRoot);
    FundedState(a);
    TwoEvents(sha, l0, StoreTx(p), StoreTx(q));
    hide TransactionHash, AllStored, HeaderHash, Run, CostFits;
    if TransactionHash(sha, p) != TransactionHash(sha, q) { PairStored(sha, l0.store.txs, p, q); }
  }

  lemma PairStored(sha: Sha, store: map<Hash, Transaction>, p: Transaction, q: Transaction)
    requires TransactionHash(sha, p) != TransactionHash(sha, q)
    ensures AllStored(sha, store[TransactionHash(sha, p) := p][TransactionHash(sha, q) := q], [p, q])
  {}

  lemma FundedTotal(l: Ledger, a: Address)
    requires l.state == l.store.accounts == map[a := Account(a, 100, 0, 0)]
    ensures Total(View(l)) == 100
  {
    assert View(l) == map[][a := Account(a, 100, 0, 0)];
    TotalPut(map[], a, Account(a, 100, 0, 0));
  }

  // ---------- the producer object ----------

  class BlockProducer {
    const setup: Setup
    const manager: Manager
    var isRunning: bool

    constructor (setup: Setup, manager: Manager)
      ensures this.setup == setup && this.manager == manager && !isRunning
    {
      this.setup, this.manager, isRunning := setup, manager, false;
    }

    /** The append loop of filterValidTransactions; its account reads go through the manager. */
    method FilterValidTransactions(txs: seq<Transaction>) returns (valid: seq<Transaction>)
      requires manager.Valid()
      modifies manager`currentState
      ensures manager.Valid()
      ensures valid == FilterValid(old(manager.State()), manager.storage.store.accounts, txs)
      ensures manager.State() == FilterState(old(manager.State()), manager.storage.store.accounts, txs)
    {
      hide Represents, Separate, Keyed, Values, Affordable;
      ghost var state, stored := manager.State(), manager.storage.store.accounts;
      valid := [];
      for i := 0 to |txs|
        invariant manager.Valid()
        invariant valid == FilterValid(state, stored, txs[..i])
        invariant manager.State() == FilterState(state, stored, txs[..i])
      {
        assert txs[..i + 1][..i] == txs[..i];
        FilterReads(state, stored, txs[..i], txs[i].from);
        if WellFormed(txs[i]) {
          var account := manager.GetAccount(txs[i].from);
          assert account.Value() == manager.State()[txs[i].from] by { CellValue(manager.currentState, txs[i].from); }
          if Affordable(account.Value(), txs[i]) && txs[i].signature != Zeros(64) {
            valid := valid + [txs[i]];
          }
        }
      }
      assert txs[..|txs|] == txs;
    }

    /** ProduceBlock; `pending` is the pool's answer, or none on its error. */
    method ProduceBlock(blockTime: I64, blockNumber: U64, stateRoot: Hash, pending: Option<seq<Transaction>>)
      returns (r: Option<Block>)
      requires manager.Valid() && manager.isInitialized
      modifies manager`currentState
      ensures manager.Valid()
      ensures r == if isRunning
                   then Produce(manager.sha, setup, old(manager.Abs()), blockTime, blockNumber, stateRoot, pending)
                   else None
      ensures manager.State() == if isRunning
                                 then ProducedState(manager.sha, setup, old(manager.Abs()), blockNumber, pending)
                                 else old(manager.State())
      ensures manager.currentBlock == old(manager.currentBlock)
    {
      hide Represents, Separate, Keyed, Values, FilterValid, FilterState, CreateBlock, CreateEmptyBlock,
        ShouldCreateEmptyBlock;
      if !isRunning {
        return None;
      }
      NothingFiltered(manager.State(), manager.storage.store.accounts);
      var prevHash: Hash := Zeros(32);
      if blockNumber > 0 {
        var previous := manager.storage.GetBlock(blockNumber - 1);
        if previous.None? {
          return None;
        }
        prevHash := HeaderHash(manager.sha, previous.value.header);
      }
      var slot := Slot(blockTime, blockNumber, prevHash, stateRoot);
      var trigger := ShouldCreateEmptyBlock(setup);
      if trigger.Some? {
        return CreateEmptyBlock(manager.sha, setup, slot, trigger.value);
      }
      if pending.None? {
        return CreateEmptyBlock(manager.sha, setup, slot, TransactionFailure);
      }
      if |pending.value| == 0 {
        return CreateEmptyBlock(manager.sha, setup, slot, NoTransactions);
      }
      var valid := FilterValidTransactions(pending.value);
      if |valid| == 0 {
        return CreateEmptyBlock(manager.sha, setup, slot, TransactionFailure);
      }
      var state := manager.Snapshot();
      r := CreateBlock(manager.sha, setup, slot, state, valid);
    }
  }

  lemma NothingFiltered(state: Accounts, stored: Accounts)
    ensures FilterState(state, stored, []) == state
  {}

  lemma CellValue(cells: Cells, a: Address)
    requires a in cells
    ensures Values(cells)[a] == cells[a].Value()
  {}

  lemma {:induction false} FilterReads(state: Accounts, stored: Accounts, txs: seq<Transaction>, a: Address)
    ensures Lookup(FilterState(state, stored, txs), stored, a) == Lookup(state, stored, a)
    decreases |txs|
  {
    if txs != [] {
      var n := |txs| - 1;
      FilterReads(state, stored, txs[..n], a);
      LoadLookup(FilterState(state, stored, txs[..n]), stored, txs[n].from, a);
    }
  }
}
