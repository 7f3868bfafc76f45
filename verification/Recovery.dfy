/** Restart: replaying the stored chain against live execution. */
module Recovery {
  import opened Encoding
  import opened Types
  import opened Storage
  import opened HashChain
  import opened Execution
  import opened ChainIndex
  import Conservation

  // ---------- loadExistingChain ----------

  /** rebuildState up to a height: genesis accounts, then every block's transactions again.
      Accounts outside the rebuilt state are read from the store as it stands. */
  function Replay(s: Store, genesis: Genesis, height: nat): Option<Accounts> {
    if height == 0 then Some(InitState(genesis.initAccounts))
    else
      var before := Replay(s, genesis, height - 1);
      if before.None? || height !in s.blocks then None
      else
        var e := ProcessTxs(before.value, s.accounts, s.txs, s.blocks[height].transactions);
        if e.ok then Some(e.state) else None
  }

  function Recover(s: Store): Option<Ledger> {
    if s.genesis.None? || 0 !in s.blocks || (LatestHeight(s) > 0 && LatestHeight(s) !in s.blocks) then None
    else
      var tip := if LatestHeight(s) > 0 then s.blocks[LatestHeight(s)] else s.blocks[0];
      var state := Replay(s, s.genesis.value, LatestHeight(s));
      if state.None? then None else Some(Ledger(tip, state.value, s))
  }

  /** A replay gets to a height only over every block up to it. */
  lemma {:induction false} ReplayNeedsBlocks(s: Store, genesis: Genesis, height: nat, k: nat)
    requires Replay(s, genesis, height).Some? && 0 < k <= height
    ensures k in s.blocks
    decreases height
  {
    hide ProcessTxs;
    if k < height { ReplayNeedsBlocks(s, genesis, height - 1, k); }
  }

  /** A restart needs the configuration, block 0, every block up to the latest height, and a replay of them
      all; then its tip is the block at that height. */
  lemma RecoverNeeds(s: Store)
    ensures Recover(s).Some? <==>
              && s.genesis.Some? && (forall k :: 0 <= k <= LatestHeight(s) ==> k in s.blocks)
              && Replay(s, s.genesis.value, LatestHeight(s)).Some?
    ensures Recover(s).Some? ==>
              Recover(s).value.tip == s.blocks[LatestHeight(s)] && Recover(s).value.store == s
  {
    hide Replay;
    if Recover(s).Some? {
      forall k | 0 < k <= LatestHeight(s) ensures k in s.blocks {
        ReplayNeedsBlocks(s, s.genesis.value, LatestHeight(s), k);
      }
    }
  }

  /** The accounts rebuildState leaves, failing included, and whether it got to the end. */
  function Rebuilt(s: Store, genesis: Genesis, height: nat): (Accounts, bool) {
    if height == 0 then (InitState(genesis.initAccounts), true)
    else
      var (before, ok) := Rebuilt(s, genesis, height - 1);
      if !ok || height !in s.blocks then (before, false)
      else
        var e := ProcessTxs(before, s.accounts, s.txs, s.blocks[height].transactions);
        (e.state, e.ok)
  }

  lemma {:induction false} ReplayIsRebuilt(s: Store, genesis: Genesis, height: nat)
    ensures Replay(s, genesis, height)
            == if Rebuilt(s, genesis, height).1 then Some(Rebuilt(s, genesis, height).0) else None
  {
    hide ProcessTxs;
    if height > 0 { ReplayIsRebuilt(s, genesis, height - 1); }
  }

  /** A replay that stops leaves the accounts as they were before a missing block, and a failing block's
      first transactions applied. */
  lemma RebuiltPartly(s: Store, genesis: Genesis, height: nat)
    requires height > 0 && Replay(s, genesis, height - 1).Some? && Replay(s, genesis, height).None?
    ensures var before := Replay(s, genesis, height - 1).value;
            Rebuilt(s, genesis, height).0
            == if height !in s.blocks then before
               else ProcessTxs(before, s.accounts, s.txs, s.blocks[height].transactions).state
  {
    hide ProcessTxs;
    ReplayIsRebuilt(s, genesis, height - 1);
    ReplayIsRebuilt(s, genesis, height);
  }

  /** A replay that stops stays as it is. */
  lemma {:induction false} RebuiltStops(s: Store, genesis: Genesis, m: nat, n: nat)
    requires m <= n && !Rebuilt(s, genesis, m).1
    ensures Rebuilt(s, genesis, n) == Rebuilt(s, genesis, m)
    decreases n
  {
    if m < n { RebuiltStops(s, genesis, m, n - 1); }
  }

  lemma ReplayStops(s: Store, genesis: Genesis, m: nat, n: nat)
    requires m <= n && Replay(s, genesis, m).None?
    ensures Replay(s, genesis, n).None?
  {
    hide Replay, Rebuilt;
    ReplayIsRebuilt(s, genesis, m);
    ReplayIsRebuilt(s, genesis, n);
    RebuiltStops(s, genesis, m, n);
  }

  // ---------- execution up to equality of accounts ----------

  ghost predicate SameAccounts(v: Accounts, w: Accounts) {
    forall a: Address :: Of(v, a) == Of(w, a)
  }

  /** The effect of an application on the account of `a`. */
  function Moved(tx: Transaction, account: Account, a: Address): Account {
    var debited := if a == tx.from
                   then account.(balance := Wrap(account.balance - Cost(tx)), nonce := Wrap(account.nonce + 1))
                   else account;
    if a == tx.to then debited.(balance := Wrap(debited.balance + tx.amount)) else debited
  }

  /** The verdict depends on the sender's account alone. */
  function VerdictOn(from: Account, tx: Transaction): TxVerdict {
    if from.balance < Cost(tx) then InsufficientBalance
    else if tx.nonce != Wrap(from.nonce + 1) then InvalidNonce
    else Applied
  }

  lemma TransferPointwise(s: Accounts, tx: Transaction, a: Address)
    requires tx.from in s && tx.to in s && a in s && s[tx.from].balance >= Cost(tx)
    ensures Credit(Debit(s, tx), tx)[a] == Moved(tx, s[a], a)
  {
    NoBorrow(s[tx.from].balance, Cost(tx));
    hide Cost, Wrap;
  }

  lemma NoBorrow(balance: U64, cost: U64)
    requires cost <= balance
    ensures Wrap(balance - cost) == balance - cost
  {}

  lemma LoadLookup(state: Accounts, stored: Accounts, b: Address, a: Address)
    ensures Lookup(Load(state, stored, b), stored, a) == Lookup(state, stored, a)
  {}

  lemma ProcessTxPointwise(state: Accounts, stored: Accounts, tx: Transaction, a: Address)
    ensures ProcessTx(state, stored, tx).1 == VerdictOn(Lookup(state, stored, tx.from), tx)
    ensures var r := ProcessTx(state, stored, tx);
            var account := Lookup(state, stored, a);
            Lookup(r.0, stored, a) == if r.1 == Applied then Moved(tx, account, a) else account
  {
    var s1 := Load(state, stored, tx.from);
    var s0 := Load(s1, stored, tx.to);
    LoadLookup(state, stored, tx.from, a); LoadLookup(s1, stored, tx.to, a);
    LoadLookup(state, stored, tx.from, tx.from); LoadLookup(s1, stored, tx.to, tx.from);
    if VerdictOn(s0[tx.from], tx) == Applied && a in s0 {
      TransferPointwise(s0, tx, a);
    }
  }

  lemma LookupAlone(v: Accounts, a: Address)
    ensures Lookup(v, map[], a) == Of(v, a)
  {}

  lemma ProcessTxOn(v: Accounts, tx: Transaction, a: Address)
    ensures ProcessTx(v, map[], tx).1 == VerdictOn(Of(v, tx.from), tx)
    ensures Of(ProcessTx(v, map[], tx).0, a)
            == if VerdictOn(Of(v, tx.from), tx) == Applied then Moved(tx, Of(v, a), a) else Of(v, a)
  {
    ProcessTxPointwise(v, map[], tx, a);
    LookupAlone(v, a); LookupAlone(v, tx.from); LookupAlone(ProcessTx(v, map[], tx).0, a);
  }

  /** The verdict on the numbers: the balance first, then the nonce. */
  lemma VerdictOnNumbers(v: Accounts, tx: Transaction)
    ensures var from := Of(v, tx.from);
            var covered := from.balance >= (tx.amount + tx.gasPrice * tx.gasLimit) % 0x1_0000_0000_0000_0000;
            var next := tx.nonce == (from.nonce + 1) % 0x1_0000_0000_0000_0000;
            && (ProcessTx(v, map[], tx).1 == Applied <==> covered && next)
            && (ProcessTx(v, map[], tx).1 == InsufficientBalance <==> !covered)
            && (ProcessTx(v, map[], tx).1 == InvalidNonce <==> covered && !next)
  {
    ProcessTxOn(v, tx, tx.from);
    WrapAdd(tx.gasPrice * tx.gasLimit, tx.amount);
    hide ProcessTx;
  }

  lemma ProcessTxSame(v: Accounts, w: Accounts, tx: Transaction)
    requires SameAccounts(v, w)
    ensures ProcessTx(v, map[], tx).1 == ProcessTx(w, map[], tx).1
    ensures SameAccounts(ProcessTx(v, map[], tx).0, ProcessTx(w, map[], tx).0)
  {
    ProcessTxOn(v, tx, tx.from);
    ProcessTxOn(w, tx, tx.from);
    forall a: Address ensures Of(ProcessTx(v, map[], tx).0, a) == Of(ProcessTx(w, map[], tx).0, a) {
      ProcessTxOn(v, tx, a);
      ProcessTxOn(w, tx, a);
    }
  }

  lemma {:induction false} ProcessTxsSame(v: Accounts, w: Accounts, txs: map<Hash, Transaction>, hashes: seq<Hash>)
    requires SameAccounts(v, w)
    ensures ProcessTxs(v, map[], txs, hashes).ok == ProcessTxs(w, map[], txs, hashes).ok
    ensures SameAccounts(ProcessTxs(v, map[], txs, hashes).state, ProcessTxs(w, map[], txs, hashes).state)
    decreases |hashes|
  {
    hide SameAccounts;
    if hashes != [] {
      var n := |hashes| - 1;
      ProcessTxsSame(v, w, txs, hashes[..n]);
      if ProcessTxs(v, map[], txs, hashes[..n]).ok && hashes[n] in txs {
        ProcessTxSame(ProcessTxs(v, map[], txs, hashes[..n]).state, ProcessTxs(w, map[], txs, hashes[..n]).state,
                      txs[hashes[n]]);
      }
    }
  }

  // ---------- failed blocks ----------

  lemma {:induction false} LogBound(v: Accounts, txs: map<Hash, Transaction>, hashes: seq<Hash>)
    ensures |ProcessTxs(v, map[], txs, hashes).log| <= |hashes|
    decreases |hashes|
  {
    hide ProcessTx, EntryFor;
    if hashes != [] { LogBound(v, txs, hashes[..|hashes| - 1]); }
  }

  lemma {:induction false} NothingApplied(v: Accounts, txs: map<Hash, Transaction>, hashes: seq<Hash>)
    requires ProcessTxs(v, map[], txs, hashes).log == []
    ensures SameAccounts(ProcessTxs(v, map[], txs, hashes).state, v)
    decreases |hashes|
  {
    hide ProcessTx, EntryFor, VerdictOn;
    if hashes != [] {
      var n := |hashes| - 1;
      NothingApplied(v, txs, hashes[..n]);
      var e := ProcessTxs(v, map[], txs, hashes[..n]);
      if e.ok && hashes[n] in txs {
        ProcessTxOn(e.state, txs[hashes[n]], txs[hashes[n]].from);
        forall a: Address ensures Of(ProcessTx(e.state, map[], txs[hashes[n]]).0, a) == Of(v, a) {
          ProcessTxOn(e.state, txs[hashes[n]], a);
        }
      }
    }
  }

  lemma BlockNonce(v: Accounts, txs: map<Hash, Transaction>, hashes: seq<Hash>, a: Address)
    ensures var e := ProcessTxs(v, map[], txs, hashes);
            Of(e.state, a).nonce == Wrap(Of(v, a).nonce + Conservation.Sends(e.log, a))
  {
    hide ProcessTxs, Wrap, Of, Conservation.Kept, Conservation.Sends;
    Conservation.InitiallyKept(v, false);
    Conservation.BlockKeeps(v, v, [], txs, hashes, false);
    var e := ProcessTxs(v, map[], txs, hashes);
    assert [] + e.log == e.log;
    KeptNonce(e.state, v, e.log, a);
  }

  lemma KeptNonce(v: Accounts, genesis: Accounts, log: seq<Entry>, a: Address)
    requires Conservation.Kept(v, genesis, log, false)
    ensures Of(v, a).nonce == Wrap(Of(genesis, a).nonce + Conservation.Sends(log, a))
  {
    hide Wrap, Of, Conservation.Sends, Conservation.NoncesInOrder, Conservation.Balanced;
  }

  lemma FirstSends(log: seq<Entry>)
    requires log != []
    ensures 0 < Conservation.Sends(log, log[0].tx.from) <= |log|
  {
    Conservation.SendsGrow(log, 0, |log|, log[0].tx.from);
    assert log[..0] == [] && log[..|log|] == log;
  }

  /** Anything applied shows: its sender's nonce has moved on. */
  lemma SomethingApplied(v: Accounts, txs: map<Hash, Transaction>, hashes: seq<Hash>)
    requires ProcessTxs(v, map[], txs, hashes).log != [] && |hashes| < 0x1_0000_0000_0000_0000
    ensures !SameAccounts(ProcessTxs(v, map[], txs, hashes).state, v)
  {
    hide ProcessTxs, Wrap, Conservation.Sends;
    var e := ProcessTxs(v, map[], txs, hashes);
    var a := e.log[0].tx.from;
    BlockNonce(v, txs, hashes, a);
    LogBound(v, txs, hashes);
    FirstSends(e.log);
    NonceMoved(Of(v, a).nonce, Conservation.Sends(e.log, a));
  }

  lemma NonceMoved(nonce: U64, sends: nat)
    requires 0 < sends < 0x1_0000_0000_0000_0000
    ensures Wrap(nonce + sends) != nonce
  {}

  /** The first transaction of a list that is stored. */
  function FirstStored(txs: map<Hash, Transaction>, hashes: seq<Hash>): Option<Transaction> {
    if hashes == [] then None
    else
      var before := FirstStored(txs, hashes[..|hashes| - 1]);
      if before.Some? then before
      else if hashes[|hashes| - 1] in txs then Some(txs[hashes[|hashes| - 1]]) else None
  }

  lemma {:induction false} FirstDecides(v: Accounts, txs: map<Hash, Transaction>, hashes: seq<Hash>)
    ensures var e, first := ProcessTxs(v, map[], txs, hashes), FirstStored(txs, hashes);
            && (first.None? ==> e == Exec(v, true, []))
            && (first.Some? ==> (e.log == [] <==> VerdictOn(Of(v, first.value.from), first.value) != Applied))
            && (first.Some? && e.log == [] ==> !e.ok)
    decreases |hashes|
  {
    hide ProcessTx, EntryFor, VerdictOn;
    if hashes != [] {
      var n := |hashes| - 1;
      FirstDecides(v, txs, hashes[..n]);
      var e := ProcessTxs(v, map[], txs, hashes[..n]);
      if e.ok && hashes[n] in txs { ProcessTxOn(e.state, txs[hashes[n]], txs[hashes[n]].from); }
    }
  }

  /** A block that fails leaves every account as it was exactly when its first stored transaction is one
      its sender cannot afford or whose nonce is out of turn. */
  lemma FailedLeavesNoTrace(sha: Sha, l: Ledger, b: Block)
    requires AddBlock(sha, l, b).1.Failed? && |b.transactions| < 0x1_0000_0000_0000_0000
    ensures SameAccounts(View(AddBlock(sha, l, b).0), View(l)) <==> AddBlockLog(sha, l, b) == []
    ensures var first := FirstStored(l.store.txs, b.transactions);
            && first.Some?
            && (SameAccounts(View(AddBlock(sha, l, b).0), View(l))
                <==> VerdictOn(Lookup(l.state, l.store.accounts, first.value.from), first.value) != Applied)
  {
    hide SameAccounts, ProcessTxs, ValidateBlock, VerdictOn, FirstStored;
    AddBlockView(sha, l, b);
    if AddBlockLog(sha, l, b) == [] {
      NothingApplied(View(l), l.store.txs, b.transactions);
    } else {
      SomethingApplied(View(l), l.store.txs, b.transactions);
    }
    FirstDecides(View(l), l.store.txs, b.transactions);
    var first := FirstStored(l.store.txs, b.transactions);
    if first.Some? { LookupIsView(l, first.value.from); }
  }

  // ---------- live execution as a function of the chain ----------

  /** The accounts obtained by executing blocks 1, 2, … of a chain from the genesis accounts. */
  function ChainView(g: Accounts, txs: map<Hash, Transaction>, c: seq<Block>): Option<Accounts>
    decreases |c|
  {
    if |c| <= 1 then Some(g)
    else
      var n := |c| - 1;
      var before := ChainView(g, txs, c[..n]);
      if before.None? then None
      else
        var e := ProcessTxs(before.value, map[], txs, c[n].transactions);
        if e.ok then Some(e.state) else None
  }

  /** The same transaction, signed alike or not. */
  predicate SameUnsigned(s: Transaction, t: Transaction) { s.(signature := t.signature) == t }

  /** Two transaction stores that agree on the transactions of a list, signatures aside. */
  ghost predicate AgreeOn(t: map<Hash, Transaction>, u: map<Hash, Transaction>, hashes: seq<Hash>) {
    forall x :: x in hashes ==> (x in t <==> x in u) && (x in t ==> SameUnsigned(t[x], u[x]))
  }

  ghost predicate AgreeOnChain(t: map<Hash, Transaction>, u: map<Hash, Transaction>, c: seq<Block>) {
    forall i :: 0 <= i < |c| ==> AgreeOn(t, u, c[i].transactions)
  }

  /** Execution never looks at a signature. */
  lemma SignatureIgnored(v: Accounts, stored: Accounts, s: Transaction, t: Transaction)
    requires SameUnsigned(s, t)
    ensures ProcessTx(v, stored, s) == ProcessTx(v, stored, t)
  {
    assert Cost(s) == Cost(t);
    hide Cost;
  }

  lemma {:induction false} ProcessTxsFrame(v: Accounts, s: Accounts, t: map<Hash, Transaction>,
          u: map<Hash, Transaction>, hashes: seq<Hash>)
    requires AgreeOn(t, u, hashes)
    ensures ProcessTxs(v, s, t, hashes).ok == ProcessTxs(v, s, u, hashes).ok
    ensures ProcessTxs(v, s, t, hashes).state == ProcessTxs(v, s, u, hashes).state
    decreases |hashes|
  {
    hide ProcessTx, EntryFor, SameUnsigned;
    if hashes != [] {
      var n := |hashes| - 1;
      assert forall x :: x in hashes[..n] ==> x in hashes;
      ProcessTxsFrame(v, s, t, u, hashes[..n]);
      assert hashes[n] in hashes;
      if hashes[n] in t { SignatureIgnored(ProcessTxs(v, s, t, hashes[..n]).state, s, t[hashes[n]], u[hashes[n]]); }
    }
  }

  lemma {:induction false} ChainViewFrame(g: Accounts, t: map<Hash, Transaction>, u: map<Hash, Transaction>,
          c: seq<Block>)
    requires AgreeOnChain(t, u, c)
    ensures ChainView(g, t, c) == ChainView(g, u, c)
    decreases |c|
  {
    if |c| > 1 {
      var n := |c| - 1;
      assert forall i :: 0 <= i < n ==> c[..n][i] == c[i];
      ChainViewFrame(g, t, u, c[..n]);
      var before := ChainView(g, t, c[..n]);
      if before.Some? {
        assert AgreeOn(t, u, c[n].transactions);
        ProcessTxsFrame(before.value, map[], t, u, c[n].transactions);
      }
    }
  }

  /** The live accounts are those of the chain, and the store records them. */
  ghost predicate LiveIsChain(g: Accounts, c: seq<Block>, l: Ledger) {
    && ChainView(g, l.store.txs, c).Some?
    && SameAccounts(View(l), ChainView(g, l.store.txs, c).value)
    && SameAccounts(l.store.accounts, View(l))
  }

  /** Senders of the stored transactions among these are genesis accounts. */
  ghost predicate GenesisSenders(g: Accounts, txs: map<Hash, Transaction>, hashes: seq<Hash>) {
    forall x :: x in hashes && x in txs ==> txs[x].from in g
  }

  /** What the store on disk must go on agreeing with: a block that fails has applied nothing, and a
      stored transaction does not change the transactions of the chain. Each is decidable before the event. */
  ghost predicate Stable(sha: Sha, c: seq<Block>, l: Ledger, e: Event) {
    match e
    case Submit(b) => AddBlock(sha, l, b).1.Failed? ==> AddBlockLog(sha, l, b) == []
    case StoreTx(tx) =>
      var x := TransactionHash(sha, tx);
      (x in l.store.txs && TransactionBytes(l.store.txs[x]) == TransactionBytes(tx))
      || forall i :: 0 <= i < |c| ==> x !in c[i].transactions
    case Query(a) => true
  }

  ghost predicate StableRun(sha: Sha, l0: Ledger, events: seq<Event>) {
    forall n :: 0 <= n < |events| ==> Stable(sha, ChainOf(sha, l0, events[..n]), Run(sha, l0, events[..n]), events[n])
  }

  lemma LoadSame(v: Accounts, stored: Accounts, a: Address)
    requires SameAccounts(stored, stored + v)
    ensures SameAccounts(stored + Load(v, stored, a), stored + v)
    ensures SameAccounts(stored, stored + Load(v, stored, a))
  {
    LoadView(v, stored, a);
  }

  lemma SubmitKeepsLive(sha: Sha, g: Accounts, c: seq<Block>, l: Ledger, b: Block)
    requires LiveIsChain(g, c, l) && c != [] && AddBlock(sha, l, b).1.Added?
    ensures LiveIsChain(g, c + [b], AddBlock(sha, l, b).0)
  {
    AddedStore(sha, l, b);
    AddBlockView(sha, l, b);
    assert (c + [b])[..|c|] == c;
    ProcessTxsSame(View(l), ChainView(g, l.store.txs, c).value, l.store.txs, b.transactions);
    var l' := AddBlock(sha, l, b).0;
    assert l'.store.accounts == View(l');
  }

  lemma StoreKeepsLive(sha: Sha, g: Accounts, c: seq<Block>, l: Ledger, tx: Transaction)
    requires LiveIsChain(g, c, l) && Stable(sha, c, l, StoreTx(tx))
    ensures AgreeOnChain(l.store.txs, Step(sha, l, StoreTx(tx)).store.txs, c)
    ensures LiveIsChain(g, c, Step(sha, l, StoreTx(tx)))
  {
    var l' := Step(sha, l, StoreTx(tx));
    var x := TransactionHash(sha, tx);
    if x in l.store.txs { TransactionBytesInjective(l.store.txs[x], tx); }
    hide TransactionBytes, TransactionHash;
    ChainViewFrame(g, l.store.txs, l'.store.txs, c);
    assert View(l') == View(l);
  }

  ghost predicate GenesisSendersOnly(g: Accounts, txs: map<Hash, Transaction>, c: seq<Block>) {
    forall i :: 0 <= i < |c| ==> GenesisSenders(g, txs, c[i].transactions)
  }

  /** Everything a restart relies on but the senders. */
  ghost predicate Ready(sha: Sha, genesis: Genesis, c: seq<Block>, l: Ledger) {
    Indexed(sha, c, l) && LiveIsChain(InitState(genesis.initAccounts), c, l) && l.store.genesis == Some(genesis)
  }

  lemma CreateReady(sha: Sha, genesis: Genesis, stateRoot: Hash)
    ensures var l := CreateNewChain(sha, genesis, stateRoot); Ready(sha, genesis, [l.tip], l)
  {
    CreateIndexes(sha, genesis, stateRoot);
  }

  lemma AddReady(sha: Sha, genesis: Genesis, c: seq<Block>, l: Ledger, b: Block)
    requires Ready(sha, genesis, c, l) && |c| < 0x1_0000_0000_0000_0000
    requires AddBlock(sha, l, b).1.Added?
    ensures Ready(sha, genesis, c + [b], AddBlock(sha, l, b).0)
  {
    AddKeepsIndexed(sha, c, l, b);
    SubmitKeepsLive(sha, InitState(genesis.initAccounts), c, l, b);
    AddedStore(sha, l, b);
    hide Indexed, LiveIsChain;
  }

  lemma StoreReady(sha: Sha, genesis: Genesis, c: seq<Block>, l: Ledger, tx: Transaction)
    requires Ready(sha, genesis, c, l) && Stable(sha, c, l, StoreTx(tx))
    ensures Ready(sha, genesis, c, Step(sha, l, StoreTx(tx)))
  {
    hide Indexed, LiveIsChain, AgreeOnChain;
    OtherStepsKeepIndexed(sha, c, l, StoreTx(tx));
    StoreKeepsLive(sha, InitState(genesis.initAccounts), c, l, tx);
  }

  lemma QueryReady(sha: Sha, genesis: Genesis, c: seq<Block>, l: Ledger, a: Address)
    requires Ready(sha, genesis, c, l)
    ensures Ready(sha, genesis, c, Step(sha, l, Query(a)))
  {
    OtherStepsKeepIndexed(sha, c, l, Query(a));
    LoadSame(l.state, l.store.accounts, a);
    hide Indexed;
  }

  lemma FailedReady(sha: Sha, genesis: Genesis, c: seq<Block>, l: Ledger, b: Block)
    requires Ready(sha, genesis, c, l) && AddBlock(sha, l, b).1.Failed? && AddBlockLog(sha, l, b) == []
    ensures Ready(sha, genesis, c, AddBlock(sha, l, b).0)
  {
    var l' := AddBlock(sha, l, b).0;
    AddBlockView(sha, l, b);
    NothingApplied(View(l), l.store.txs, b.transactions);
    assert l'.store == l.store && l'.tip == l.tip;
    hide HoldsChain, HoldsDigests, ValidChain, ChainView, AddBlock;
  }

  lemma StepReady(sha: Sha, genesis: Genesis, c: seq<Block>, l: Ledger, e: Event)
    requires Ready(sha, genesis, c, l) && Stable(sha, c, l, e)
    requires |c| < 0x1_0000_0000_0000_0000
    ensures var added := e.Submit? && AddBlock(sha, l, e.block).1.Added?;
            Ready(sha, genesis, if added then c + [e.block] else c, Step(sha, l, e))
  {
    hide Ready;
    match e
    case Submit(b) =>
      if AddBlock(sha, l, b).1.Added? { AddReady(sha, genesis, c, l, b); }
      if AddBlock(sha, l, b).1.Failed? { FailedReady(sha, genesis, c, l, b); }
    case StoreTx(tx) => StoreReady(sha, genesis, c, l, tx);
    case Query(a) => QueryReady(sha, genesis, c, l, a);
  }

  lemma {:induction false} RunReady(sha: Sha, genesis: Genesis, stateRoot: Hash, events: seq<Event>)
    requires |events| < 0x1_0000_0000_0000_0000
    requires StableRun(sha, CreateNewChain(sha, genesis, stateRoot), events)
    ensures var l0 := CreateNewChain(sha, genesis, stateRoot);
            Ready(sha, genesis, ChainOf(sha, l0, events), Run(sha, l0, events))
    decreases |events|
  {
    hide Ready, Stable, Step, CreateNewChain;
    var l0 := CreateNewChain(sha, genesis, stateRoot);
    if events == [] {
      CreateReady(sha, genesis, stateRoot);
    } else {
      var n := |events| - 1;
      var es := events[..n];
      StableInit(sha, l0, events);
      RunReady(sha, genesis, stateRoot, es);
      StepReady(sha, genesis, ChainOf(sha, l0, es), Run(sha, l0, es), events[n]);
      hide AddBlock;
    }
  }

  lemma StableInit(sha: Sha, l0: Ledger, events: seq<Event>)
    requires StableRun(sha, l0, events) && events != []
    ensures var es := events[..|events| - 1];
            StableRun(sha, l0, es) && Stable(sha, ChainOf(sha, l0, es), Run(sha, l0, es), events[|events| - 1])
  {
    hide Stable, Run, ChainOf;
    var n := |events| - 1;
    forall m | 0 <= m < n
      ensures Stable(sha, ChainOf(sha, l0, events[..n][..m]), Run(sha, l0, events[..n][..m]), events[..n][m])
    {
      assert events[..n][..m] == events[..m] && events[..n][m] == events[m];
    }
  }

  // ---------- replay against the final store ----------

  /** Replay agrees with the chain on genesis accounts; any other account stands at its final
      stored record, credited over again. */
  ghost predicate ShadowAt(r: Accounts, stored: Accounts, g: Accounts, v: Accounts, a: Address) {
    if a in g then a in r && r[a] == Of(v, a)
    else Lookup(r, stored, a) == Of(stored, a).(balance := Wrap(Of(stored, a).balance + Of(v, a).balance))
  }

  ghost predicate Shadows(r: Accounts, stored: Accounts, g: Accounts, v: Accounts) {
    forall a: Address :: ShadowAt(r, stored, g, v, a)
  }

  /** Crediting the doubled account doubles the credit. */
  lemma MovedShadow(tx: Transaction, stored: Account, live: Account, a: Address)
    requires a != tx.from
    ensures Moved(tx, stored.(balance := Wrap(stored.balance + live.balance)), a)
            == stored.(balance := Wrap(stored.balance + Moved(tx, live, a).balance))
  {
    WrapAdd(stored.balance + live.balance, tx.amount);
    WrapAdd(live.balance + tx.amount, stored.balance);
  }

  lemma ProcessTxKeepsKeys(state: Accounts, stored: Accounts, tx: Transaction, a: Address)
    requires a in state
    ensures a in ProcessTx(state, stored, tx).0
  {}

  lemma ShadowTxAt(r: Accounts, stored: Accounts, g: Accounts, v: Accounts, tx: Transaction, a: Address)
    requires ShadowAt(r, stored, g, v, a) && ShadowAt(r, stored, g, v, tx.from) && tx.from in g
    ensures ProcessTx(r, stored, tx).1 == ProcessTx(v, map[], tx).1
    ensures ShadowAt(ProcessTx(r, stored, tx).0, stored, g, ProcessTx(v, map[], tx).0, a)
  {
    hide ProcessTx, Moved, Wrap, VerdictOn;
    assert Lookup(r, stored, tx.from) == Of(v, tx.from);
    ProcessTxPointwise(r, stored, tx, a);
    ProcessTxOn(v, tx, a);
    if a in g {
      ProcessTxKeepsKeys(r, stored, tx, a);
    } else {
      MovedShadow(tx, Of(stored, a), Of(v, a), a);
    }
  }

  lemma ShadowTx(r: Accounts, stored: Accounts, g: Accounts, v: Accounts, tx: Transaction)
    requires Shadows(r, stored, g, v) && tx.from in g
    ensures ProcessTx(r, stored, tx).1 == ProcessTx(v, map[], tx).1
    ensures Shadows(ProcessTx(r, stored, tx).0, stored, g, ProcessTx(v, map[], tx).0)
  {
    hide ShadowAt, ProcessTx;
    forall a: Address ensures ShadowAt(ProcessTx(r, stored, tx).0, stored, g, ProcessTx(v, map[], tx).0, a) {
      ShadowTxAt(r, stored, g, v, tx, a);
    }
    ShadowTxAt(r, stored, g, v, tx, tx.from);
  }

  lemma {:induction false} ShadowTxs(r: Accounts, stored: Accounts, g: Accounts, v: Accounts, txs: map<Hash,
          Transaction>, hashes: seq<Hash>)
    requires Shadows(r, stored, g, v) && GenesisSenders(g, txs, hashes)
    ensures ProcessTxs(r, stored, txs, hashes).ok == ProcessTxs(v, map[], txs, hashes).ok
    ensures Shadows(ProcessTxs(r, stored, txs, hashes).state, stored, g, ProcessTxs(v, map[], txs, hashes).state)
    decreases |hashes|
  {
    hide Shadows;
    if hashes != [] {
      var n := |hashes| - 1;
      assert forall x :: x in hashes[..n] ==> x in hashes;
      ShadowTxs(r, stored, g, v, txs, hashes[..n]);
      var e, f := ProcessTxs(r, stored, txs, hashes[..n]), ProcessTxs(v, map[], txs, hashes[..n]);
      if e.ok && hashes[n] in txs {
        assert hashes[n] in hashes;
        ShadowTx(e.state, stored, g, f.state, txs[hashes[n]]);
      }
    }
  }

  lemma {:induction false} ShadowReplay(s: Store, genesis: Genesis, c: seq<Block>, n: nat)
    requires HoldsChain(s.blocks, c) && n < |c|
    requires GenesisSendersOnly(InitState(genesis.initAccounts), s.txs, c)
    requires ChainView(InitState(genesis.initAccounts), s.txs, c[..n + 1]).Some?
    ensures Replay(s, genesis, n).Some?
    ensures Shadows(Replay(s, genesis, n).value, s.accounts, InitState(genesis.initAccounts),
                    ChainView(InitState(genesis.initAccounts), s.txs, c[..n + 1]).value)
    decreases n
  {
    hide Shadows, GenesisSenders;
    var g := InitState(genesis.initAccounts);
    if n == 0 {
      ShadowStart(g, s.accounts);
    } else {
      assert c[..n + 1][..n] == c[..n] && c[..n + 1][n] == c[n];
      ShadowReplay(s, genesis, c, n - 1);
      ShadowTxs(Replay(s, genesis, n - 1).value, s.accounts, g, ChainView(g, s.txs, c[..n]).value, s.txs,
        c[n].transactions);
    }
  }

  lemma ShadowStart(g: Accounts, stored: Accounts)
    ensures Shadows(g, stored, g, g)
  {
    forall a: Address ensures ShadowAt(g, stored, g, g, a) {}
  }

  /** The account a manager answers for an address. */
  function Answer(l: Ledger, a: Address): Account { Lookup(l.state, l.store.accounts, a) }

  lemma ShadowOfLive(l: Ledger, g: Accounts, r: Accounts, v: Accounts, a: Address)
    requires Shadows(r, l.store.accounts, g, v)
    requires SameAccounts(View(l), v) && SameAccounts(l.store.accounts, View(l))
    ensures Lookup(r, l.store.accounts, a)
            == if a in g then Answer(l, a)
               else Answer(l, a).(balance := Wrap(2 * Answer(l, a).balance))
  {
    LookupIsView(l, a);
    assert ShadowAt(r, l.store.accounts, g, v, a);
    assert Of(View(l), a) == Of(v, a) == Of(l.store.accounts, a);
  }

  /** Every stored transaction of the run's chain has a genesis account as sender. */
  ghost predicate SendersAreGenesis(sha: Sha, genesis: Genesis, l0: Ledger, events: seq<Event>) {
    GenesisSendersOnly(InitState(genesis.initAccounts), Run(sha, l0, events).store.txs, ChainOf(sha, l0, events))
  }

  lemma RecoverIs(sha: Sha, genesis: Genesis, c: seq<Block>, l: Ledger)
    requires Indexed(sha, c, l) && l.store.genesis == Some(genesis) && |c| <= 0x1_0000_0000_0000_0000
    ensures c != []
    ensures Recover(l.store) == if Replay(l.store, genesis, |c| - 1).None? then None
                                else Some(Ledger(l.tip, Replay(l.store, genesis, |c| - 1).value, l.store))
  {
    hide HoldsDigests, ValidChain, Replay;
    TipHeight(sha, c, l);
    assert 0 in l.store.blocks;
  }

  lemma ReadyRestores(sha: Sha, genesis: Genesis, c: seq<Block>, l: Ledger)
    requires Ready(sha, genesis, c, l) && |c| <= 0x1_0000_0000_0000_0000
    requires GenesisSendersOnly(InitState(genesis.initAccounts), l.store.txs, c)
    ensures c != [] && Replay(l.store, genesis, |c| - 1).Some?
    ensures forall a: Address ::
              Lookup(Replay(l.store, genesis, |c| - 1).value, l.store.accounts, a)
              == if a in InitState(genesis.initAccounts) then Answer(l, a)
                 else Answer(l, a).(balance := Wrap(2 * Answer(l, a).balance))
  {
    var g := InitState(genesis.initAccounts);
    hide Shadows, HoldsDigests, ValidChain, SameAccounts, Replay, ChainView, Recover, InitState,
      GenesisSendersOnly, Wrap;
    RecoverIs(sha, genesis, c, l);
    assert c[..|c|] == c;
    ShadowReplay(l.store, genesis, c, |c| - 1);
    forall a: Address
      ensures Lookup(Replay(l.store, genesis, |c| - 1).value, l.store.accounts, a)
              == if a in g then Answer(l, a) else Answer(l, a).(balance := Wrap(2 * Answer(l, a).balance))
    {
      ShadowOfLive(l, g, Replay(l.store, genesis, |c| - 1).value, ChainView(g, l.store.txs, c).value, a);
    }
  }

  /** Recovery against live execution, senders being genesis accounts: the restart succeeds with the
      same tip and store, genesis accounts come back as they were, and every other account comes back
      with its balance doubled. */
  lemma RecoveryMatchesLive(sha: Sha, genesis: Genesis, stateRoot: Hash, events: seq<Event>)
    requires |events| < 0x1_0000_0000_0000_0000
    requires StableRun(sha, CreateNewChain(sha, genesis, stateRoot), events)
    requires SendersAreGenesis(sha, genesis, CreateNewChain(sha, genesis, stateRoot), events)
    ensures var l := Run(sha, CreateNewChain(sha, genesis, stateRoot), events);
            var r := Recover(l.store);
            && r.Some? && r.value.tip == l.tip && r.value.store == l.store
            && forall a: Address ::
                 Answer(r.value, a) == if a in InitState(genesis.initAccounts) then Answer(l, a)
                                       else Answer(l, a).(balance := Wrap(2 * Answer(l, a).balance))
  {
    hide Recover, Replay, Run, ChainOf, CreateNewChain, InitState, StableRun, GenesisSendersOnly, Indexed, LiveIsChain,
      Lookup, Wrap;
    var l0 := CreateNewChain(sha, genesis, stateRoot);
    var l, c := Run(sha, l0, events), ChainOf(sha, l0, events);
    RunReady(sha, genesis, stateRoot, events);
    RecoverIs(sha, genesis, c, l);
    ReadyRestores(sha, genesis, c, l);
  }

  // ---------- why each condition is needed ----------

  /** A block on top of `tip` that validateBlock accepts. */
  function NextBlock(sha: Sha, tip: Block, hashes: seq<Hash>): (b: Block)
    ensures Accepts(sha, tip, b) && b.transactions == hashes
  {
    Block(BlockHeader(Wrap(tip.header.number + 1), 0, HeaderHash(sha, tip.header), TxRoot(sha, hashes), Zeros(32),
                      Zeros(20), Zeros(64), SHARD_ID, []), hashes)
  }

  /** Ten units from `from` to `to` at a fee of one, with the first nonce. */
  function Payment(from: Address, to: Address): Transaction {
    Transaction(SHARD_ID, from, to, 10, 1, 1, 1, [], Zeros(64))
  }

  function Funded(a: Address): Genesis { Genesis(0, [Account(a, 100, 0, 0)]) }

  lemma FundedState(a: Address)
    ensures InitState(Funded(a).initAccounts) == map[a := Account(a, 100, 0, 0)]
  {
    assert InitState(Funded(a).initAccounts[..0]) == map[];
  }

  lemma TwoEvents(sha: Sha, l: Ledger, e: Event, f: Event)
    ensures Run(sha, l, [e, f]) == Step(sha, Step(sha, l, e), f)
  {
    assert [e, f][..1] == [e] && [e][..0] == [];
    assert Run(sha, l, []) == l;
    assert Run(sha, l, [e]) == Step(sha, l, e);
  }

  lemma OneHash(state: Accounts, stored: Accounts, txs: map<Hash, Transaction>, x: Hash)
    ensures ProcessTxs(state, stored, txs, [x])
            == if x in txs then ProcessOne(Exec(state, true, []), stored, txs[x]) else Exec(state, true, [])
  {
    assert [x][..0] == [];
    assert ProcessTxs(state, stored, txs, []) == Exec(state, true, []);
  }

  lemma PaymentApplies(state: Accounts, stored: Accounts, a: Address, b: Address)
    requires a != b && a in state && state[a] == Account(a, 100, 0, 0)
    ensures ProcessTx(state, stored, Payment(a, b)).1 == Applied
    ensures a in ProcessTx(state, stored, Payment(a, b)).0
    ensures ProcessTx(state, stored, Payment(a, b)).0[a] == Account(a, 89, 1, 0)
  {}

  lemma PaymentRepeated(state: Accounts, stored: Accounts, a: Address, b: Address)
    requires a != b && a in state && state[a] == Account(a, 89, 1, 0)
    ensures ProcessTx(state, stored, Payment(a, b)).1 != Applied
    ensures a in ProcessTx(state, stored, Payment(a, b)).0
    ensures ProcessTx(state, stored, Payment(a, b)).0[a] == state[a]
  {}

  /** A block failing midway: its first transaction stays applied until the node restarts. */
  lemma FailedBlockBreaksRecovery(sha: Sha, stateRoot: Hash, a: Address, b: Address)
    requires a != b
    ensures var l0 := CreateNewChain(sha, Funded(a), stateRoot);
            var x := TransactionHash(sha, Payment(a, b));
            var l := Run(sha, l0, [StoreTx(Payment(a, b)), Submit(NextBlock(sha, l0.tip, [x, x]))]);
            Recover(l.store).Some?
            && Answer(l, a).balance == 89 && Answer(Recover(l.store).value, a).balance == 100
  {
    hide ProcessTx, EntryFor;
    FundedState(a);
    var l0 := CreateNewChain(sha, Funded(a), stateRoot);
    var tx := Payment(a, b);
    var x := TransactionHash(sha, tx);
    var l1 := Step(sha, l0, StoreTx(tx));
    TwoEvents(sha, l0, StoreTx(tx), Submit(NextBlock(sha, l0.tip, [x, x])));
    assert [x, x][..1] == [x];
    OneHash(l1.state, l1.store.accounts, l1.store.txs, x);
    PaymentApplies(l1.state, l1.store.accounts, a, b);
    var e := ProcessTxs(l1.state, l1.store.accounts, l1.store.txs, [x]);
    PaymentRepeated(e.state, l1.store.accounts, a, b);
  }

  lemma SkippedBlock(sha: Sha, stateRoot: Hash, a: Address, x: Hash)
    ensures var l0 := CreateNewChain(sha, Funded(a), stateRoot);
            var b := NextBlock(sha, l0.tip, [x]);
            var l := AddBlock(sha, l0, b).0;
            && l.state == l0.state == map[a := Account(a, 100, 0, 0)] && l.tip == b
            && l.store.blocks == map[0 := l0.tip, 1 := b] && l.store.latest == Some(1)
            && l.store.genesis == Some(Funded(a)) && l.store.txs == map[]
  {
    FundedState(a);
    var l0 := CreateNewChain(sha, Funded(a), stateRoot);
    OneHash(l0.state, l0.store.accounts, l0.store.txs, x);
  }

  /** A transaction stored only after its block was accepted: the restart applies it. */
  lemma LateTransactionBreaksRecovery(sha: Sha, stateRoot: Hash, a: Address, b: Address)
    requires a != b
    ensures var l0 := CreateNewChain(sha, Funded(a), stateRoot);
            var x := TransactionHash(sha, Payment(a, b));
            var l := Run(sha, l0, [Submit(NextBlock(sha, l0.tip, [x])), StoreTx(Payment(a, b))]);
            Recover(l.store).Some?
            && Answer(l, a).balance == 100 && Answer(Recover(l.store).value, a).balance == 89
  {
    hide ProcessTx, EntryFor, AddBlock, CreateNewChain, TransactionHash, ValidateBlock;
    FundedState(a);
    var l0 := CreateNewChain(sha, Funded(a), stateRoot);
    var tx := Payment(a, b);
    var x := TransactionHash(sha, tx);
    var blk := NextBlock(sha, l0.tip, [x]);
    SkippedBlock(sha, stateRoot, a, x);
    TwoEvents(sha, l0, Submit(blk), StoreTx(tx));
    var l := Step(sha, AddBlock(sha, l0, blk).0, StoreTx(tx));
    assert blk.transactions == [x];
    hide NextBlock;
    OneHash(l.state, l.store.accounts, l.store.txs, x);
    PaymentApplies(l.state, l.store.accounts, a, b);
    assert Replay(l.store, Funded(a), 0) == Some(l.state);
  }
}
