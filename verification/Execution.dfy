/** Block execution over account balances, as a function of the ledger's maps. */
module Execution {
  import opened Encoding
  import opened Types
  import opened Storage
  import opened HashChain

  type Accounts = map<Address, Account>

  function FreshAccount(a: Address): Account { Account(a, 0, 0, 0) }

  /** getAccount: the state, else the stored record, else a fresh account; cached in the state. */
  function Load(state: Accounts, stored: Accounts, a: Address): (s: Accounts)
    ensures a in s
  {
    if a in state then state
    else state[a := if a in stored then stored[a] else FreshAccount(a)]
  }

  /** What getAccount would answer. */
  function Lookup(state: Accounts, stored: Accounts, a: Address): Account { Load(state, stored, a)[a] }

  function Fee(tx: Transaction): nat { tx.gasPrice * tx.gasLimit }

  /** The 64-bit cost, wrap-around included. */
  function Cost(tx: Transaction): U64 { Wrap(tx.amount + Wrap(Fee(tx))) }

  ghost predicate CostFits(tx: Transaction) { tx.amount + Fee(tx) < 0x1_0000_0000_0000_0000 }

  datatype TxVerdict = Applied | InsufficientBalance | InvalidNonce

  /** processTransaction; debit, then credit, on possibly the same account. */
  function ProcessTx(state: Accounts, stored: Accounts, tx: Transaction): (r: (Accounts, TxVerdict))
    ensures tx.to in r.0 && tx.from in r.0
  {
    var s0 := Load(Load(state, stored, tx.from), stored, tx.to);
    var from := s0[tx.from];
    if from.balance < Cost(tx) then (s0, InsufficientBalance)
    else if tx.nonce != Wrap(from.nonce + 1) then (s0, InvalidNonce)
    else (Credit(Debit(s0, tx), tx), Applied)
  }

  function Debit(s: Accounts, tx: Transaction): (r: Accounts)
    requires tx.from in s && s[tx.from].balance >= Cost(tx)
    ensures r.Keys == s.Keys
  {
    var from := s[tx.from];
    s[tx.from := from.(balance := from.balance - Cost(tx), nonce := Wrap(from.nonce + 1))]
  }

  function Credit(s: Accounts, tx: Transaction): (r: Accounts)
    requires tx.to in s
    ensures r.Keys == s.Keys
  {
    var to := s[tx.to];
    s[tx.to := to.(balance := Wrap(to.balance + tx.amount))]
  }

  /** One applied transaction and the recipient's balance just before the credit. */
  datatype Entry = Entry(tx: Transaction, before: U64)

  function EntryFor(state: Accounts, stored: Accounts, tx: Transaction): Entry
    requires ProcessTx(state, stored, tx).1 == Applied
  {
    Entry(tx, Debit(Load(Load(state, stored, tx.from), stored, tx.to), tx)[tx.to].balance)
  }

  datatype Exec = Exec(state: Accounts, ok: bool, log: seq<Entry>)

  /** processBlockTransactions: unknown hashes are skipped, the first failure stops the block
      and leaves what was applied before it. */
  function ProcessTxs(state: Accounts, stored: Accounts, txs: map<Hash, Transaction>, hashes: seq<Hash>): Exec
    decreases |hashes|
  {
    if hashes == [] then Exec(state, true, [])
    else
      var n := |hashes| - 1;
      var e := ProcessTxs(state, stored, txs, hashes[..n]);
      if !e.ok || hashes[n] !in txs then e
      else ProcessOne(e, stored, txs[hashes[n]])
  }

  function ProcessOne(e: Exec, stored: Accounts, tx: Transaction): Exec {
    var (s, v) := ProcessTx(e.state, stored, tx);
    if v == Applied then Exec(s, true, e.log + [EntryFor(e.state, stored, tx)]) else Exec(s, false, e.log)
  }

  /** Once a transaction fails the rest of the block changes nothing. */
  lemma {:induction false} FailureStays(state: Accounts, stored: Accounts, txs: map<Hash, Transaction>,
          hashes: seq<Hash>, n: nat)
    requires n <= |hashes| && !ProcessTxs(state, stored, txs, hashes[..n]).ok
    ensures ProcessTxs(state, stored, txs, hashes) == ProcessTxs(state, stored, txs, hashes[..n])
    decreases |hashes|
  {
    if n == |hashes| {
      assert hashes[..n] == hashes;
    } else {
      var m := |hashes| - 1;
      assert hashes[..m][..n] == hashes[..n];
      FailureStays(state, stored, txs, hashes[..m], n);
    }
  }

  datatype Ledger = Ledger(tip: Block, state: Accounts, store: Store)

  datatype AddResult = Added | Refused(why: Verdict) | Failed

  /** AddBlock on an initialized manager. */
  function AddBlock(sha: Sha, l: Ledger, b: Block): (r: (Ledger, AddResult)) {
    if !Accepts(sha, l.tip, b) then (l, Refused(ValidateBlock(sha, l.tip, b)))
    else
      var e := ProcessTxs(l.state, l.store.accounts, l.store.txs, b.transactions);
      if !e.ok then (l.(state := e.state), Failed)
      else (Ledger(b, e.state, SaveState(WithBlock(sha, l.store, b), e.state)), Added)
  }

  /** saveCurrentState. */
  function SaveState(s: Store, state: Accounts): Store { s.(accounts := s.accounts + state) }

  /** The transactions AddBlock applies, accepted block or not. */
  function AddBlockLog(sha: Sha, l: Ledger, b: Block): seq<Entry> {
    if !Accepts(sha, l.tip, b) then []
    else ProcessTxs(l.state, l.store.accounts, l.store.txs, b.transactions).log
  }

  /** Genesis accounts; a later duplicate wins. */
  function InitState(accounts: seq<Account>): Accounts {
    if accounts == [] then map[]
    else InitState(accounts[..|accounts| - 1])[accounts[|accounts| - 1].address := accounts[|accounts| - 1]]
  }

  /** createNewChain on an empty store. The genesis state root is a value chosen outside. */
  function CreateNewChain(sha: Sha, genesis: Genesis, stateRoot: Hash): Ledger {
    var b := GenesisBlock(sha, genesis.timestamp, stateRoot);
    var s := InitState(genesis.initAccounts);
    Ledger(b, s, SaveState(WithBlock(sha, EMPTY_STORE.(genesis := Some(genesis)), b), s))
  }

  // ---------- runs ----------

  datatype Event = Submit(block: Block) | StoreTx(tx: Transaction) | Query(address: Address)

  function Step(sha: Sha, l: Ledger, e: Event): Ledger {
    match e
    case Submit(b) => AddBlock(sha, l, b).0
    case StoreTx(tx) => l.(store := l.store.(txs := l.store.txs[TransactionHash(sha, tx) := tx]))
    case Query(a) => l.(state := Load(l.state, l.store.accounts, a))
  }

  function StepLog(sha: Sha, l: Ledger, e: Event): seq<Entry> {
    if e.Submit? then AddBlockLog(sha, l, e.block) else []
  }

  function Run(sha: Sha, l: Ledger, events: seq<Event>): Ledger {
    if events == [] then l
    else Step(sha, Run(sha, l, events[..|events| - 1]), events[|events| - 1])
  }

  function RunLog(sha: Sha, l: Ledger, events: seq<Event>): seq<Entry> {
    if events == [] then []
    else
      var n := |events| - 1;
      RunLog(sha, l, events[..n]) + StepLog(sha, Run(sha, l, events[..n]), events[n])
  }

  // ---------- the account view ----------

  /** Every account the ledger knows, the state overriding the store. */
  function View(l: Ledger): Accounts { l.store.accounts + l.state }

  function Of(v: Accounts, a: Address): Account { if a in v then v[a] else FreshAccount(a) }

  lemma LookupIsView(l: Ledger, a: Address)
    ensures Lookup(l.state, l.store.accounts, a) == Of(View(l), a)
  {}

  lemma LoadView(state: Accounts, stored: Accounts, a: Address)
    ensures stored + Load(state, stored, a) == Load(stored + state, map[], a)
    ensures forall b :: Of(stored + Load(state, stored, a), b) == Of(stored + state, b)
  {}

  lemma DebitView(stored: Accounts, s: Accounts, tx: Transaction)
    requires tx.from in s && s[tx.from].balance >= Cost(tx)
    ensures stored + Debit(s, tx) == Debit(stored + s, tx)
  {}

  lemma CreditView(stored: Accounts, s: Accounts, tx: Transaction)
    requires tx.to in s
    ensures stored + Credit(s, tx) == Credit(stored + s, tx)
  {}

  /** Executing against state and store is executing against the view. */
  lemma ProcessTxView(state: Accounts, stored: Accounts, tx: Transaction)
    ensures ProcessTx(state, stored, tx).1 == ProcessTx(stored + state, map[], tx).1
    ensures stored + ProcessTx(state, stored, tx).0 == ProcessTx(stored + state, map[], tx).0
    ensures ProcessTx(state, stored, tx).1 == Applied
            ==> EntryFor(state, stored, tx) == EntryFor(stored + state, map[], tx)
  {
    var s1 := Load(state, stored, tx.from);
    LoadView(state, stored, tx.from);
    LoadView(s1, stored, tx.to);
    var s0 := Load(s1, stored, tx.to);
    assert s0[tx.from] == (stored + s0)[tx.from];
    if ProcessTx(state, stored, tx).1 == Applied {
      DebitView(stored, s0, tx);
      CreditView(stored, Debit(s0, tx), tx);
      assert Debit(s0, tx)[tx.to] == (stored + Debit(s0, tx))[tx.to];
    }
  }

  lemma {:induction false} ProcessTxsView(state: Accounts, stored: Accounts, txs: map<Hash, Transaction>,
          hashes: seq<Hash>)
    ensures var e := ProcessTxs(state, stored, txs, hashes);
            var v := ProcessTxs(stored + state, map[], txs, hashes);
            e.ok == v.ok && e.log == v.log && stored + e.state == v.state
    decreases |hashes|
  {
    if hashes != [] {
      var n := |hashes| - 1;
      ProcessTxsView(state, stored, txs, hashes[..n]);
      var e := ProcessTxs(state, stored, txs, hashes[..n]);
      if e.ok && hashes[n] in txs {
        ProcessTxView(e.state, stored, txs[hashes[n]]);
      }
    }
  }

  lemma AddBlockView(sha: Sha, l: Ledger, b: Block)
    requires Accepts(sha, l.tip, b)
    ensures View(AddBlock(sha, l, b).0) == ProcessTxs(View(l), map[], l.store.txs, b.transactions).state
    ensures AddBlockLog(sha, l, b) == ProcessTxs(View(l), map[], l.store.txs, b.transactions).log
    ensures AddBlock(sha, l, b).1.Added? <==> ProcessTxs(View(l), map[], l.store.txs, b.transactions).ok
  {
    ProcessTxsView(l.state, l.store.accounts, l.store.txs, b.transactions);
    var e := ProcessTxs(l.state, l.store.accounts, l.store.txs, b.transactions);
    assert (l.store.accounts + e.state) + e.state == l.store.accounts + e.state;
  }
}
