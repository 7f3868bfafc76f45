/** Conservation of value, nonces, and single application over every run of the ledger. */
module Conservation {
  import opened Encoding
  import opened Types
  import opened Storage
  import opened HashChain
  import opened Execution

  // ---------- totals ----------

  ghost function Pick(m: Accounts): (a: Address)
    requires |m| > 0
    ensures a in m
  {
    var a :| a in m; a
  }

  ghost function Total(m: Accounts): nat
    decreases |m|
  {
    if |m| == 0 then 0
    else var a := Pick(m); m[a].balance + Total(m - {a})
  }

  lemma {:induction false} TotalRemove(m: Accounts, a: Address)
    requires a in m
    ensures Total(m) == m[a].balance + Total(m - {a})
    decreases |m|
  {
    var b := Pick(m);
    if a != b {
      var rest := m - {a} - {b};
      assert m - {b} - {a} == rest;
      TotalRemove(m - {b}, a);
      TotalRemove(m - {a}, b);
    }
  }

  lemma TotalPut(m: Accounts, a: Address, v: Account)
    ensures Total(m[a := v]) == Total(m) - Of(m, a).balance + v.balance
  {
    TotalRemove(m[a := v], a);
    if a in m {
      TotalRemove(m, a);
      assert m[a := v] - {a} == m - {a};
    } else {
      assert m[a := v] - {a} == m;
    }
  }

  lemma BalanceWithinTotal(m: Accounts, a: Address)
    ensures Of(m, a).balance <= Total(m)
  {
    if a in m { TotalRemove(m, a); }
  }

  // ---------- one transaction ----------

  /** 2^64 times the wraps of the cost computation: what the debit forgets. */
  function CostOverflow(tx: Transaction): int { tx.amount + Fee(tx) - Cost(tx) }

  /** 2^64 if the credit wraps: what the recipient loses. */
  function CreditOverflow(e: Entry): int {
    if e.before + e.tx.amount < 0x1_0000_0000_0000_0000 then 0 else 0x1_0000_0000_0000_0000
  }

  lemma LoadTotal(v: Accounts, a: Address)
    ensures Total(Load(v, map[], a)) == Total(v)
  {
    if a !in v { TotalPut(v, a, FreshAccount(a)); }
  }

  lemma DebitTotal(s: Accounts, tx: Transaction)
    requires tx.from in s && s[tx.from].balance >= Cost(tx)
    ensures Total(Debit(s, tx)) == Total(s) - Cost(tx)
  {
    TotalPut(s, tx.from, Debit(s, tx)[tx.from]);
  }

  lemma CreditTotal(s: Accounts, tx: Transaction)
    requires tx.to in s
    ensures Total(Credit(s, tx)) == Total(s) + tx.amount - CreditOverflow(Entry(tx, s[tx.to].balance))
    ensures s[tx.to].balance <= Total(s)
  {
    TotalPut(s, tx.to, Credit(s, tx)[tx.to]);
    BalanceWithinTotal(s, tx.to);
  }

  /** The view after an applied transaction, and the exact movement of value. */
  lemma TransferTotals(v: Accounts, tx: Transaction)
    requires ProcessTx(v, map[], tx).1 == Applied
    ensures Total(ProcessTx(v, map[], tx).0)
            == Total(v) - Cost(tx) + tx.amount - CreditOverflow(EntryFor(v, map[], tx))
    ensures EntryFor(v, map[], tx).before <= Total(v) - Cost(tx)
  {
    LoadTotal(v, tx.from);
    LoadTotal(Load(v, map[], tx.from), tx.to);
    var v0 := Load(Load(v, map[], tx.from), map[], tx.to);
    DebitTotal(v0, tx);
    CreditTotal(Debit(v0, tx), tx);
  }

  lemma RejectedTotals(v: Accounts, tx: Transaction)
    requires ProcessTx(v, map[], tx).1 != Applied
    ensures Total(ProcessTx(v, map[], tx).0) == Total(v)
  {
    LoadTotal(v, tx.from);
    LoadTotal(Load(v, map[], tx.from), tx.to);
  }

  /** Exact accounting of one application, wrap-around included: value and fee are conserved
      precisely when the cost and the credit overflow by the same amount. */
  lemma ExactAccounting(v: Accounts, tx: Transaction)
    requires ProcessTx(v, map[], tx).1 == Applied
    ensures Total(ProcessTx(v, map[], tx).0) + Fee(tx) == Total(v)
            <==> CostOverflow(tx) == CreditOverflow(EntryFor(v, map[], tx))
  {
    TransferTotals(v, tx);
  }

  lemma CostExact(tx: Transaction)
    requires CostFits(tx)
    ensures Cost(tx) == tx.amount + Fee(tx)
  {}

  // ---------- the run invariant ----------

  function Fees(log: seq<Entry>): nat {
    if log == [] then 0 else Fees(log[..|log| - 1]) + Fee(log[|log| - 1].tx)
  }

  function Sends(log: seq<Entry>, a: Address): nat {
    if log == [] then 0
    else Sends(log[..|log| - 1], a) + if log[|log| - 1].tx.from == a then 1 else 0
  }

  ghost predicate NoCreditWraps(log: seq<Entry>) {
    forall i :: 0 <= i < |log| ==> log[i].before + log[i].tx.amount < 0x1_0000_0000_0000_0000
  }

  /** Every account's nonce counts its applied sends. */
  ghost predicate NoncesCount(v: Accounts, genesis: Accounts, log: seq<Entry>) {
    forall a: Address :: Of(v, a).nonce == Wrap(Of(genesis, a).nonce + Sends(log, a))
  }

  /** The sender's next nonce after the applications of `log`. */
  function NextNonce(genesis: Accounts, log: seq<Entry>, a: Address): U64 {
    Wrap(Of(genesis, a).nonce + Sends(log, a) + 1)
  }

  /** Every applied transaction carried the sender's next nonce at that moment. */
  ghost predicate NoncesInOrder(genesis: Accounts, log: seq<Entry>) {
    forall i :: 0 <= i < |log| ==> log[i].tx.nonce == NextNonce(genesis, log[..i], log[i].tx.from)
  }

  /** Balances and fees paid make up the genesis supply, and no credit wrapped. */
  ghost predicate Balanced(v: Accounts, genesis: Accounts, log: seq<Entry>) {
    Total(v) + Fees(log) == Total(genesis) && NoCreditWraps(log)
  }

  ghost predicate Numbered(v: Accounts, genesis: Accounts, log: seq<Entry>) {
    NoncesCount(v, genesis, log) && NoncesInOrder(genesis, log)
  }

  /** The nonces always; the balances too where supply and costs fit 64 bits. */
  ghost predicate Kept(v: Accounts, genesis: Accounts, log: seq<Entry>, fitting: bool) {
    Numbered(v, genesis, log) && (fitting ==> Balanced(v, genesis, log))
  }

  ghost predicate AllCostsFit(txs: map<Hash, Transaction>) {
    forall x :: x in txs ==> CostFits(txs[x])
  }

  /** An application bumps the sender's nonce, to the transaction's own, and no other. */
  lemma NoncesAfter(v: Accounts, tx: Transaction, a: Address)
    requires ProcessTx(v, map[], tx).1 == Applied
    ensures tx.nonce == Wrap(Of(v, tx.from).nonce + 1)
    ensures Of(ProcessTx(v, map[], tx).0, a).nonce == if a == tx.from then tx.nonce else Of(v, a).nonce
  {
    LoadView(v, map[], tx.from);
    LoadView(Load(v, map[], tx.from), map[], tx.to);
  }

  lemma ApplyKeepsCount(v: Accounts, genesis: Accounts, log: seq<Entry>, tx: Transaction)
    requires NoncesCount(v, genesis, log) && ProcessTx(v, map[], tx).1 == Applied
    ensures NoncesCount(ProcessTx(v, map[], tx).0, genesis, log + [EntryFor(v, map[], tx)])
  {
    var log' := log + [EntryFor(v, map[], tx)];
    assert log'[..|log|] == log;
    var v' := ProcessTx(v, map[], tx).0;
    forall a: Address ensures Of(v', a).nonce == Wrap(Of(genesis, a).nonce + Sends(log', a)) {
      NoncesAfter(v, tx, a);
      assert Of(v, a).nonce == Wrap(Of(genesis, a).nonce + Sends(log, a));
      WrapAdd(Of(genesis, a).nonce + Sends(log, a), 1);
    }
  }

  lemma AppendKeepsOrder(genesis: Accounts, log: seq<Entry>, e: Entry)
    requires NoncesInOrder(genesis, log) && e.tx.nonce == NextNonce(genesis, log, e.tx.from)
    ensures NoncesInOrder(genesis, log + [e])
  {
    var log' := log + [e];
    forall i | 0 <= i < |log'| ensures log'[i].tx.nonce == NextNonce(genesis, log'[..i], log'[i].tx.from) {
      if i < |log| {
        assert log'[i] == log[i] && log'[..i] == log[..i];
      } else {
        assert log'[..i] == log;
      }
    }
  }

  lemma ApplyKeepsOrder(v: Accounts, genesis: Accounts, log: seq<Entry>, tx: Transaction)
    requires NoncesCount(v, genesis, log) && NoncesInOrder(genesis, log)
    requires ProcessTx(v, map[], tx).1 == Applied
    ensures NoncesInOrder(genesis, log + [EntryFor(v, map[], tx)])
  {
    NoncesAfter(v, tx, tx.from);
    assert Of(v, tx.from).nonce == Wrap(Of(genesis, tx.from).nonce + Sends(log, tx.from));
    WrapAdd(Of(genesis, tx.from).nonce + Sends(log, tx.from), 1);
    AppendKeepsOrder(genesis, log, EntryFor(v, map[], tx));
  }

  lemma ApplyKeepsBalance(v: Accounts, genesis: Accounts, log: seq<Entry>, tx: Transaction)
    requires Balanced(v, genesis, log) && Total(genesis) < 0x1_0000_0000_0000_0000
    requires CostFits(tx) && ProcessTx(v, map[], tx).1 == Applied
    ensures Balanced(ProcessTx(v, map[], tx).0, genesis, log + [EntryFor(v, map[], tx)])
  {
    var log' := log + [EntryFor(v, map[], tx)];
    assert log'[..|log|] == log;
    CostExact(tx);
    TransferTotals(v, tx);
  }

  lemma ApplyKeeps(v: Accounts, genesis: Accounts, log: seq<Entry>, tx: Transaction, fitting: bool)
    requires Kept(v, genesis, log, fitting)
    requires fitting ==> CostFits(tx) && Total(genesis) < 0x1_0000_0000_0000_0000
    requires ProcessTx(v, map[], tx).1 == Applied
    ensures Kept(ProcessTx(v, map[], tx).0, genesis, log + [EntryFor(v, map[], tx)], fitting)
  {
    hide NoncesCount, NoncesInOrder, Balanced, ProcessTx, EntryFor, CostFits, Total;
    ApplyKeepsCount(v, genesis, log, tx);
    ApplyKeepsOrder(v, genesis, log, tx);
    if fitting { ApplyKeepsBalance(v, genesis, log, tx); }
  }

  lemma RejectKeeps(v: Accounts, genesis: Accounts, log: seq<Entry>, tx: Transaction, fitting: bool)
    requires Kept(v, genesis, log, fitting)
    requires ProcessTx(v, map[], tx).1 != Applied
    ensures Kept(ProcessTx(v, map[], tx).0, genesis, log, fitting)
  {
    RejectedTotals(v, tx);
    LoadKeepsCount(v, genesis, log, tx.from);
    LoadKeepsCount(Load(v, map[], tx.from), genesis, log, tx.to);
    hide NoncesCount, NoncesInOrder, NoCreditWraps;
  }

  lemma LoadKeepsCount(v: Accounts, genesis: Accounts, log: seq<Entry>, a: Address)
    requires NoncesCount(v, genesis, log)
    ensures NoncesCount(Load(v, map[], a), genesis, log)
  {
    forall b: Address ensures Of(Load(v, map[], a), b).nonce == Wrap(Of(genesis, b).nonce + Sends(log, b)) {
      assert Of(Load(v, map[], a), b) == Of(v, b);
    }
  }

  /** Whole or partial, a block keeps the books. */
  lemma {:induction false} BlockKeeps(
    v: Accounts, genesis: Accounts, log: seq<Entry>, txs: map<Hash, Transaction>, hashes: seq<Hash>, fitting: bool)
    requires Kept(v, genesis, log, fitting)
    requires fitting ==> AllCostsFit(txs) && Total(genesis) < 0x1_0000_0000_0000_0000
    ensures var e := ProcessTxs(v, map[], txs, hashes);
            Kept(e.state, genesis, log + e.log, fitting)
    decreases |hashes|
  {
    hide Kept, CostFits;
    if hashes == [] {
      assert log + [] == log;
    } else {
      var n := |hashes| - 1;
      BlockKeeps(v, genesis, log, txs, hashes[..n], fitting);
      var e := ProcessTxs(v, map[], txs, hashes[..n]);
      if e.ok && hashes[n] in txs {
        var tx := txs[hashes[n]];
        if ProcessTx(e.state, map[], tx).1 == Applied {
          ApplyKeeps(e.state, genesis, log + e.log, tx, fitting);
          var entry := EntryFor(e.state, map[], tx);
          assert log + (e.log + [entry]) == (log + e.log) + [entry];
        } else {
          RejectKeeps(e.state, genesis, log + e.log, tx, fitting);
        }
      }
    }
  }

  /** Transactions stored during the run have costs that fit 64 bits. */
  ghost predicate FittingEvents(events: seq<Event>) {
    forall i :: 0 <= i < |events| && events[i].StoreTx? ==> CostFits(events[i].tx)
  }

  lemma SubmitKeeps(sha: Sha, l: Ledger, b: Block, genesis: Accounts, log: seq<Entry>, fitting: bool)
    requires Kept(View(l), genesis, log, fitting)
    requires fitting ==> AllCostsFit(l.store.txs) && Total(genesis) < 0x1_0000_0000_0000_0000
    ensures Kept(View(AddBlock(sha, l, b).0), genesis, log + AddBlockLog(sha, l, b), fitting)
    ensures AddBlock(sha, l, b).0.store.txs == l.store.txs
  {
    hide Kept, AllCostsFit;
    if Accepts(sha, l.tip, b) {
      AddBlockView(sha, l, b);
      BlockKeeps(View(l), genesis, log, l.store.txs, b.transactions, fitting);
    } else {
      assert log + [] == log;
    }
  }

  lemma QueryKeeps(l: Ledger, a: Address, genesis: Accounts, log: seq<Entry>, fitting: bool)
    requires Kept(View(l), genesis, log, fitting)
    ensures Kept(View(l.(state := Load(l.state, l.store.accounts, a))), genesis, log, fitting)
  {
    LoadView(l.state, l.store.accounts, a);
    LoadTotal(View(l), a);
    LoadKeepsCount(View(l), genesis, log, a);
    hide NoncesCount, NoncesInOrder, NoCreditWraps;
  }

  lemma StepKeeps(sha: Sha, l: Ledger, e: Event, genesis: Accounts, log: seq<Entry>, fitting: bool)
    requires Kept(View(l), genesis, log, fitting)
    requires fitting ==> AllCostsFit(l.store.txs) && Total(genesis) < 0x1_0000_0000_0000_0000
    requires fitting && e.StoreTx? ==> CostFits(e.tx)
    ensures Kept(View(Step(sha, l, e)), genesis, log + StepLog(sha, l, e), fitting)
    ensures fitting ==> AllCostsFit(Step(sha, l, e).store.txs)
  {
    hide Kept, CostFits;
    match e
    case Submit(b) =>
      SubmitKeeps(sha, l, b, genesis, log, fitting);
    case StoreTx(tx) =>
      assert log + [] == log;
      assert View(Step(sha, l, e)) == View(l);
    case Query(a) =>
      assert log + [] == log;
      QueryKeeps(l, a, genesis, log, fitting);
  }

  lemma InitiallyKept(g: Accounts, fitting: bool)
    ensures Kept(g, g, [], fitting)
  {
    forall a: Address ensures Of(g, a).nonce == Wrap(Of(g, a).nonce + Sends([], a)) {}
  }

  lemma NewChainView(sha: Sha, genesis: Genesis, stateRoot: Hash)
    ensures View(CreateNewChain(sha, genesis, stateRoot)) == InitState(genesis.initAccounts)
    ensures AllCostsFit(CreateNewChain(sha, genesis, stateRoot).store.txs)
  {}

  /** Whatever ledger a run starts from, it keeps the accounts it started with accounted for. */
  lemma {:induction false} RunKeepsFrom(sha: Sha, l0: Ledger, events: seq<Event>, fitting: bool)
    requires fitting ==>
               Total(View(l0)) < 0x1_0000_0000_0000_0000 && AllCostsFit(l0.store.txs) && FittingEvents(events)
    ensures Kept(View(Run(sha, l0, events)), View(l0), RunLog(sha, l0, events), fitting)
    ensures fitting ==> AllCostsFit(Run(sha, l0, events).store.txs)
    decreases |events|
  {
    hide Kept, Step, CostFits;
    if events == [] {
      InitiallyKept(View(l0), fitting);
    } else {
      var n := |events| - 1;
      RunKeepsFrom(sha, l0, events[..n], fitting);
      StepKeeps(sha, Run(sha, l0, events[..n]), events[n], View(l0), RunLog(sha, l0, events[..n]), fitting);
    }
  }

  lemma RunKeeps(sha: Sha, genesis: Genesis, stateRoot: Hash, events: seq<Event>, fitting: bool)
    requires fitting ==> Total(InitState(genesis.initAccounts)) < 0x1_0000_0000_0000_0000 && FittingEvents(events)
    ensures var l0 := CreateNewChain(sha, genesis, stateRoot);
            Kept(View(Run(sha, l0, events)), InitState(genesis.initAccounts), RunLog(sha, l0, events), fitting)
            && (fitting ==> AllCostsFit(Run(sha, l0, events).store.txs))
  {
    NewChainView(sha, genesis, stateRoot);
    hide Kept, Run, RunLog, CreateNewChain, InitState, FittingEvents, AllCostsFit, Total;
    RunKeepsFrom(sha, CreateNewChain(sha, genesis, stateRoot), events, fitting);
  }

  /** Conservation over every run from a new chain: blocks accepted, refused or failing midway,
      transactions arriving at any time, self-transfers included. */
  lemma RunConserves(sha: Sha, genesis: Genesis, stateRoot: Hash, events: seq<Event>)
    requires Total(InitState(genesis.initAccounts)) < 0x1_0000_0000_0000_0000 && FittingEvents(events)
    ensures var l0 := CreateNewChain(sha, genesis, stateRoot);
            var v, g, log := View(Run(sha, l0, events)), InitState(genesis.initAccounts), RunLog(sha, l0, events);
            Balanced(v, g, log) && Numbered(v, g, log)
  {
    hide Run, RunLog, CreateNewChain, InitState, FittingEvents, Numbered, Balanced, AllCostsFit, Total;
    RunKeeps(sha, genesis, stateRoot, events, true);
  }

  /** Nonces over every run, whatever its supply and costs: each account's counts its applied sends, and
      every application used its sender's next. */
  lemma RunNumbers(sha: Sha, genesis: Genesis, stateRoot: Hash, events: seq<Event>)
    ensures var l0 := CreateNewChain(sha, genesis, stateRoot);
            Numbered(View(Run(sha, l0, events)), InitState(genesis.initAccounts), RunLog(sha, l0, events))
  {
    hide Run, RunLog, CreateNewChain, InitState, FittingEvents, Numbered, Balanced, AllCostsFit, Total;
    RunKeeps(sha, genesis, stateRoot, events, false);
  }

  // ---------- nothing stored ----------

  /** Blocks list digests; only storing a transaction gives one a meaning. */
  ghost predicate StoresNothing(events: seq<Event>) {
    forall i :: 0 <= i < |events| ==> !events[i].StoreTx?
  }

  lemma {:induction false} NothingToExecute(state: Accounts, stored: Accounts, hashes: seq<Hash>)
    ensures ProcessTxs(state, stored, map[], hashes) == Exec(state, true, [])
    decreases |hashes|
  {
    if hashes != [] { NothingToExecute(state, stored, hashes[..|hashes| - 1]); }
  }

  /** Adding a block of unknown transactions changes no account. */
  lemma SkippedAll(sha: Sha, l: Ledger, b: Block)
    requires l.store.txs == map[]
    ensures View(AddBlock(sha, l, b).0) == View(l) && AddBlockLog(sha, l, b) == []
    ensures AddBlock(sha, l, b).0.store.txs == map[]
  {
    hide ProcessTxs, ValidateBlock, HeaderHash;
    NothingToExecute(l.state, l.store.accounts, b.transactions);
    assert View(l) + l.state == View(l);
  }

  /** A run that stores no transaction applies none, whatever blocks are submitted, and every account stays
      as in genesis. */
  lemma {:induction false} NothingStoredNothingApplied(sha: Sha, genesis: Genesis, stateRoot: Hash,
          events: seq<Event>)
    requires StoresNothing(events)
    ensures var l0 := CreateNewChain(sha, genesis, stateRoot);
            && RunLog(sha, l0, events) == [] && Run(sha, l0, events).store.txs == map[]
            && forall a: Address :: Of(View(Run(sha, l0, events)), a) == Of(InitState(genesis.initAccounts), a)
    decreases |events|
  {
    hide AddBlock, AddBlockLog, Load;
    var l0 := CreateNewChain(sha, genesis, stateRoot);
    if events != [] {
      var n := |events| - 1;
      NothingStoredNothingApplied(sha, genesis, stateRoot, events[..n]);
      var l := Run(sha, l0, events[..n]);
      if events[n].Submit? {
        SkippedAll(sha, l, events[n].block);
      } else {
        LoadView(l.state, l.store.accounts, events[n].address);
      }
    }
  }

  lemma {:induction false} SendsGrow(log: seq<Entry>, i: nat, j: nat, a: Address)
    requires i <= j <= |log|
    ensures Sends(log[..i], a) <= Sends(log[..j], a) <= Sends(log[..i], a) + (j - i)
    ensures i < j && log[i].tx.from == a ==> Sends(log[..i], a) < Sends(log[..j], a)
    decreases j
  {
    if i < j {
      SendsGrow(log, i, j - 1, a);
      assert log[..j][..j - 1] == log[..j - 1];
    }
  }

  lemma DistinctSends(genesis: Accounts, log: seq<Entry>, i: nat, j: nat)
    requires NoncesInOrder(genesis, log) && i < j < |log| && |log| <= 0x1_0000_0000_0000_0000
    ensures log[i].tx.from != log[j].tx.from || log[i].tx.nonce != log[j].tx.nonce
  {
    if log[i].tx.from == log[j].tx.from && log[i].tx.nonce == log[j].tx.nonce {
      var a := log[i].tx.from;
      SendsGrow(log, i, j, a);
      var x, y := Sends(log[..i], a), Sends(log[..j], a);
      WrapCancel(Of(genesis, a).nonce + x + 1, Of(genesis, a).nonce + y + 1);
    }
  }

  /** In no run are two transactions of one sender and one nonce applied: no transaction twice, signed
      again or not, short of 2^64 applications. */
  lemma NeverAppliedTwice(sha: Sha, genesis: Genesis, stateRoot: Hash, events: seq<Event>, i: nat, j: nat)
    requires var log := RunLog(sha, CreateNewChain(sha, genesis, stateRoot), events);
             i < j < |log| && |log| <= 0x1_0000_0000_0000_0000
    ensures var log := RunLog(sha, CreateNewChain(sha, genesis, stateRoot), events);
            && (log[i].tx.from != log[j].tx.from || log[i].tx.nonce != log[j].tx.nonce)
            && TransactionBytes(log[i].tx) != TransactionBytes(log[j].tx)
  {
    hide RunLog, CreateNewChain, Run, NoncesInOrder, NoncesCount, TransactionBytes;
    var log := RunLog(sha, CreateNewChain(sha, genesis, stateRoot), events);
    RunNumbers(sha, genesis, stateRoot, events);
    DistinctSends(InitState(genesis.initAccounts), log, i, j);
    TransactionBytesInjective(log[i].tx, log[j].tx);
  }

  // ---------- why the costs must fit ----------

  /** A transaction of cost 2^64 is charged nothing and still credits its amount. */
  lemma WrappedCostMintsValue(a: Address, b: Address, signature: Signature)
    requires a != b
    ensures var tx := Transaction(SHARD_ID, a, b, 0x8000_0000_0000_0000, 0x8000_0000_0000_0000, 1, 1, [], signature);
            ProcessTx(map[], map[], tx).1 == Applied
            && Total(map[]) == 0 && Total(ProcessTx(map[], map[], tx).0) == 0x8000_0000_0000_0000
  {
    var tx := Transaction(SHARD_ID, a, b, 0x8000_0000_0000_0000, 0x8000_0000_0000_0000, 1, 1, [], signature);
    assert Cost(tx) == 0;
    TransferTotals(map[], tx);
  }
}
