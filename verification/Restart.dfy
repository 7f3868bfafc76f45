/** When a restart succeeds at all, and which accounts it brings back. */
module Restart {
  import opened Encoding
  import opened Types
  import opened Storage
  import opened HashChain
  import opened Execution
  import opened ChainIndex
  import opened Recovery
  import Conservation

  // ---------- counting sends ----------

  /** How many of these stored transactions an address sends. */
  function ListSends(txs: map<Hash, Transaction>, hashes: seq<Hash>, a: Address): (n: nat)
    ensures n <= |hashes|
  {
    if hashes == [] then 0
    else
      var x := hashes[|hashes| - 1];
      ListSends(txs, hashes[..|hashes| - 1], a) + if x in txs && txs[x].from == a then 1 else 0
  }

  function ChainSends(txs: map<Hash, Transaction>, c: seq<Block>, a: Address): nat {
    if |c| <= 1 then 0
    else ChainSends(txs, c[..|c| - 1], a) + ListSends(txs, c[|c| - 1].transactions, a)
  }

  /** The transactions listed in a chain past its first block. */
  function TxCount(c: seq<Block>): nat {
    if |c| <= 1 then 0 else TxCount(c[..|c| - 1]) + |c[|c| - 1].transactions|
  }

  lemma {:induction false} SendsBound(txs: map<Hash, Transaction>, c: seq<Block>, a: Address)
    ensures ChainSends(txs, c, a) <= TxCount(c)
  {
    if |c| > 1 { SendsBound(txs, c[..|c| - 1], a); }
  }

  lemma {:induction false} SendsGrow(txs: map<Hash, Transaction>, c: seq<Block>, n: nat, a: Address)
    requires 0 < n < |c|
    ensures ChainSends(txs, c, a) >= ListSends(txs, c[n].transactions, a)
    decreases |c|
  {
    if n < |c| - 1 {
      assert c[..|c| - 1][n] == c[n];
      SendsGrow(txs, c[..|c| - 1], n, a);
    }
  }

  lemma {:induction false} SendCounted(txs: map<Hash, Transaction>, hashes: seq<Hash>, p: nat, a: Address)
    requires p < |hashes| && hashes[p] in txs && txs[hashes[p]].from == a
    ensures ListSends(txs, hashes, a) >= 1
    decreases |hashes|
  {
    if p < |hashes| - 1 { SendCounted(txs, hashes[..|hashes| - 1], p, a); }
  }

  lemma AppliedNonce(v: Accounts, tx: Transaction, a: Address)
    requires ProcessTx(v, map[], tx).1 == Applied
    ensures Of(ProcessTx(v, map[], tx).0, a).nonce == Wrap(Of(v, a).nonce + if tx.from == a then 1 else 0)
  {
    ProcessTxOn(v, tx, tx.from);
    ProcessTxOn(v, tx, a);
    hide ProcessTx, Cost;
  }

  lemma {:induction false} ListNonce(v: Accounts, txs: map<Hash, Transaction>, hashes: seq<Hash>, a: Address)
    requires ProcessTxs(v, map[], txs, hashes).ok
    ensures Of(ProcessTxs(v, map[], txs, hashes).state, a).nonce == Wrap(Of(v, a).nonce + ListSends(txs, hashes, a))
    decreases |hashes|
  {
    hide ProcessTx, EntryFor, Wrap;
    WrapSmall(Of(v, a).nonce);
    if hashes != [] {
      var n := |hashes| - 1;
      var e := ProcessTxs(v, map[], txs, hashes[..n]);
      ListNonce(v, txs, hashes[..n], a);
      if hashes[n] in txs {
        AppliedNonce(e.state, txs[hashes[n]], a);
        WrapAdd(Of(v, a).nonce + ListSends(txs, hashes[..n], a), if txs[hashes[n]].from == a then 1 else 0);
      }
    }
  }

  /** A nonce counts the sends on the chain. */
  lemma {:induction false} ChainNonce(g: Accounts, txs: map<Hash, Transaction>, c: seq<Block>, a: Address)
    requires ChainView(g, txs, c).Some?
    ensures Of(ChainView(g, txs, c).value, a).nonce == Wrap(Of(g, a).nonce + ChainSends(txs, c, a))
    decreases |c|
  {
    hide Wrap, ProcessTxs, ListSends;
    WrapSmall(Of(g, a).nonce);
    if |c| > 1 {
      var n := |c| - 1;
      ChainNonce(g, txs, c[..n], a);
      ListNonce(ChainView(g, txs, c[..n]).value, txs, c[n].transactions, a);
      WrapAdd(Of(g, a).nonce + ChainSends(txs, c[..n], a), ListSends(txs, c[n].transactions, a));
    }
  }

  // ---------- the first sender outside genesis ----------

  lemma {:induction false} NoOutsiderSends(g: Accounts, txs: map<Hash, Transaction>, hashes: seq<Hash>, a: Address)
    requires GenesisSenders(g, txs, hashes) && a !in g
    ensures ListSends(txs, hashes, a) == 0
    decreases |hashes|
  {
    if hashes != [] {
      assert forall x :: x in hashes[..|hashes| - 1] ==> x in hashes;
      NoOutsiderSends(g, txs, hashes[..|hashes| - 1], a);
      assert hashes[|hashes| - 1] in hashes;
    }
  }

  lemma {:induction false} NoOutsiderSendsYet(g: Accounts, txs: map<Hash, Transaction>, c: seq<Block>, a: Address)
    requires GenesisSendersOnly(g, txs, c) && a !in g
    ensures ChainSends(txs, c, a) == 0
    decreases |c|
  {
    if |c| > 1 {
      var n := |c| - 1;
      assert forall i :: 0 <= i < n ==> c[..n][i] == c[i];
      NoOutsiderSendsYet(g, txs, c[..n], a);
      NoOutsiderSends(g, txs, c[n].transactions, a);
    }
  }

  lemma {:induction false} FirstOutsider(g: Accounts, txs: map<Hash, Transaction>, hashes: seq<Hash>) returns (p: nat)
    requires !GenesisSenders(g, txs, hashes)
    ensures p < |hashes| && hashes[p] in txs && txs[hashes[p]].from !in g && GenesisSenders(g, txs, hashes[..p])
    decreases |hashes|
  {
    var x :| x in hashes && x in txs && txs[x].from !in g;
    var n := |hashes| - 1;
    if GenesisSenders(g, txs, hashes[..n]) {
      p := n;
      assert hashes == hashes[..n] + [hashes[n]];
    } else {
      p := FirstOutsider(g, txs, hashes[..n]);
      assert hashes[..n][..p] == hashes[..p];
    }
  }

  lemma {:induction false} FirstOutsiderBlock(g: Accounts, txs: map<Hash, Transaction>, c: seq<Block>) returns (n: nat)
    requires !GenesisSendersOnly(g, txs, c)
    ensures n < |c| && !GenesisSenders(g, txs, c[n].transactions) && GenesisSendersOnly(g, txs, c[..n])
    decreases |c|
  {
    hide GenesisSenders;
    var m := |c| - 1;
    if GenesisSendersOnly(g, txs, c[..m]) {
      n := m;
      forall i | 0 <= i < m ensures c[..m][i] == c[i] {}
    } else {
      n := FirstOutsiderBlock(g, txs, c[..m]);
      assert c[..m][..n] == c[..n];
    }
  }

  lemma PrefixSucceeds(v: Accounts, stored: Accounts, txs: map<Hash, Transaction>, hashes: seq<Hash>, n: nat)
    requires n <= |hashes| && ProcessTxs(v, stored, txs, hashes).ok
    ensures ProcessTxs(v, stored, txs, hashes[..n]).ok
  {
    if !ProcessTxs(v, stored, txs, hashes[..n]).ok { FailureStays(v, stored, txs, hashes, n); }
  }

  lemma AppliedAt(v: Accounts, txs: map<Hash, Transaction>, hashes: seq<Hash>, p: nat)
    requires p < |hashes| && hashes[p] in txs && ProcessTxs(v, map[], txs, hashes).ok
    ensures ProcessTxs(v, map[], txs, hashes[..p]).ok
    ensures ProcessTx(ProcessTxs(v, map[], txs, hashes[..p]).state, map[], txs[hashes[p]]).1 == Applied
  {
    hide ProcessTx, EntryFor;
    PrefixSucceeds(v, map[], txs, hashes, p);
    PrefixSucceeds(v, map[], txs, hashes, p + 1);
    assert hashes[..p + 1][..p] == hashes[..p];
  }

  /** Live, the first transaction of an account from outside genesis carries nonce 1. */
  lemma OutsiderStartsAtOne(v: Accounts, txs: map<Hash, Transaction>, hashes: seq<Hash>, p: nat)
    requires p < |hashes| && hashes[p] in txs && ProcessTxs(v, map[], txs, hashes).ok
    requires Of(v, txs[hashes[p]].from).nonce == 0 && ListSends(txs, hashes[..p], txs[hashes[p]].from) == 0
    ensures ProcessTxs(v, map[], txs, hashes[..p]).ok && txs[hashes[p]].nonce == 1
  {
    hide ProcessTx, ProcessTxs, ListSends, Of;
    AppliedAt(v, txs, hashes, p);
    ListNonce(v, txs, hashes[..p], txs[hashes[p]].from);
    Conservation.NoncesAfter(ProcessTxs(v, map[], txs, hashes[..p]).state, txs[hashes[p]], txs[hashes[p]].from);
  }

  /** In a replay that account is read with the nonce it ended the run with, and is refused. */
  lemma OutsiderRefused(r: Accounts, stored: Accounts, txs: map<Hash, Transaction>, hashes: seq<Hash>, p: nat)
    requires p < |hashes| && hashes[p] in txs && txs[hashes[p]].nonce == 1
    requires ProcessTxs(r, stored, txs, hashes[..p]).ok
    requires Lookup(ProcessTxs(r, stored, txs, hashes[..p]).state, stored, txs[hashes[p]].from).nonce > 0
    ensures !ProcessTxs(r, stored, txs, hashes).ok
  {
    hide ProcessTx;
    var tx := txs[hashes[p]];
    assert hashes[..p + 1][..p] == hashes[..p];
    ProcessTxPointwise(ProcessTxs(r, stored, txs, hashes[..p]).state, stored, tx, tx.from);
    assert !ProcessTxs(r, stored, txs, hashes[..p + 1]).ok;
    FailureStays(r, stored, txs, hashes, p + 1);
  }

  /** No account outside genesis has sent anything. */
  ghost predicate Unused(g: Accounts, v: Accounts) { forall a: Address :: a !in g ==> Of(v, a).nonce == 0 }

  /** Every sender of a list outside genesis ends up with a nonce. */
  ghost predicate Spent(g: Accounts, stored: Accounts, txs: map<Hash, Transaction>, hashes: seq<Hash>) {
    forall a: Address :: ListSends(txs, hashes, a) > 0 && a !in g ==> Of(stored, a).nonce > 0
  }

  /** The block with the first such transaction cannot be replayed. */
  lemma BlockNotReplayed(r: Accounts, stored: Accounts, g: Accounts, v: Accounts, txs: map<Hash, Transaction>,
          hashes: seq<Hash>)
    requires Shadows(r, stored, g, v) && ProcessTxs(v, map[], txs, hashes).ok
    requires !GenesisSenders(g, txs, hashes)
    requires Unused(g, v) && Spent(g, stored, txs, hashes)
    ensures !ProcessTxs(r, stored, txs, hashes).ok
  {
    hide Shadows, GenesisSenders, ProcessTxs, ListSends;
    var p := FirstOutsider(g, txs, hashes);
    var u := txs[hashes[p]].from;
    NoOutsiderSends(g, txs, hashes[..p], u);
    SendCounted(txs, hashes, p, u);
    OutsiderStartsAtOne(v, txs, hashes, p);
    ShadowTxs(r, stored, g, v, txs, hashes[..p]);
    ShadowNonce(ProcessTxs(r, stored, txs, hashes[..p]).state, stored, g,
      ProcessTxs(v, map[], txs, hashes[..p]).state, u);
    OutsiderRefused(r, stored, txs, hashes, p);
  }

  lemma ShadowNonce(r: Accounts, stored: Accounts, g: Accounts, v: Accounts, a: Address)
    requires Shadows(r, stored, g, v) && a !in g
    ensures Lookup(r, stored, a).nonce == Of(stored, a).nonce
  {
    assert ShadowAt(r, stored, g, v, a);
  }

  lemma OutsiderStopsReplay(s: Store, genesis: Genesis, c: seq<Block>)
    requires HoldsChain(s.blocks, c) && c != [] && c[0].transactions == [] && TxCount(c) < 0x1_0000_0000_0000_0000
    requires var g := InitState(genesis.initAccounts);
             && !GenesisSendersOnly(g, s.txs, c)
             && ChainView(g, s.txs, c).Some? && SameAccounts(s.accounts, ChainView(g, s.txs, c).value)
    ensures Replay(s, genesis, |c| - 1).None?
  {
    hide *;
    var g := InitState(genesis.initAccounts);
    var n := FirstOutsiderBlock(g, s.txs, c);
    EmptyList(g, s.txs);
    OutsiderStopsAt(s, genesis, c, n);
    ReplayStops(s, genesis, n, |c| - 1);
  }

  lemma OutsiderStopsAt(s: Store, genesis: Genesis, c: seq<Block>, n: nat)
    requires HoldsChain(s.blocks, c) && 0 < n < |c| && TxCount(c) < 0x1_0000_0000_0000_0000
    requires var g := InitState(genesis.initAccounts);
             && GenesisSendersOnly(g, s.txs, c[..n]) && !GenesisSenders(g, s.txs, c[n].transactions)
             && ChainView(g, s.txs, c).Some? && SameAccounts(s.accounts, ChainView(g, s.txs, c).value)
    ensures Replay(s, genesis, n).None?
  {
    hide *;
    var g := InitState(genesis.initAccounts);
    ChainViewPrefix(g, s.txs, c, n);
    ReplayUpTo(s, genesis, c, n);
    UnusedBefore(g, s.txs, c[..n]);
    SpentAfter(s, g, c, n);
    BlockNotReplayed(Replay(s, genesis, n - 1).value, s.accounts, g, ChainView(g, s.txs, c[..n]).value, s.txs,
      c[n].transactions);
    ReplayStuck(s, genesis, c, n);
  }

  lemma UnusedBefore(g: Accounts, txs: map<Hash, Transaction>, c: seq<Block>)
    requires GenesisSendersOnly(g, txs, c) && ChainView(g, txs, c).Some?
    ensures Unused(g, ChainView(g, txs, c).value)
  {
    hide ChainView, GenesisSendersOnly, ChainSends;
    forall a: Address | a !in g ensures Of(ChainView(g, txs, c).value, a).nonce == 0 {
      NoOutsiderSendsYet(g, txs, c, a);
      ChainNonce(g, txs, c, a);
    }
  }

  lemma SpentAfter(s: Store, g: Accounts, c: seq<Block>, n: nat)
    requires 0 < n < |c| && TxCount(c) < 0x1_0000_0000_0000_0000
    requires ChainView(g, s.txs, c).Some? && SameAccounts(s.accounts, ChainView(g, s.txs, c).value)
    ensures Spent(g, s.accounts, s.txs, c[n].transactions)
  {
    hide ChainView, ListSends, TxCount, SameAccounts;
    forall a: Address | ListSends(s.txs, c[n].transactions, a) > 0 && a !in g ensures Of(s.accounts, a).nonce > 0 {
      FinalNonce(s, g, c, n, a);
    }
  }

  lemma ReplayUpTo(s: Store, genesis: Genesis, c: seq<Block>, n: nat)
    requires HoldsChain(s.blocks, c) && 0 < n < |c|
    requires GenesisSendersOnly(InitState(genesis.initAccounts), s.txs, c[..n])
    requires ChainView(InitState(genesis.initAccounts), s.txs, c[..n]).Some?
    ensures Replay(s, genesis, n - 1).Some?
    ensures Shadows(Replay(s, genesis, n - 1).value, s.accounts, InitState(genesis.initAccounts),
                    ChainView(InitState(genesis.initAccounts), s.txs, c[..n]).value)
  {
    hide Shadows, GenesisSendersOnly, ChainView, Replay, InitState;
    assert forall i: nat :: i < n ==> c[..n][i] == c[i];
    assert c[..n][..n] == c[..n];
    ShadowReplay(s, genesis, c[..n], n - 1);
  }

  lemma ReplayStuck(s: Store, genesis: Genesis, c: seq<Block>, n: nat)
    requires HoldsChain(s.blocks, c) && 0 < n < |c| && Replay(s, genesis, n - 1).Some?
    requires !ProcessTxs(Replay(s, genesis, n - 1).value, s.accounts, s.txs, c[n].transactions).ok
    ensures Replay(s, genesis, n).None?
  {
    hide ProcessTxs;
    assert s.blocks[n] == c[n];
  }

  lemma EmptyList(g: Accounts, txs: map<Hash, Transaction>)
    ensures GenesisSenders(g, txs, [])
  {}

  lemma {:induction false} ChainViewPrefix(g: Accounts, txs: map<Hash, Transaction>, c: seq<Block>, n: nat)
    requires ChainView(g, txs, c).Some? && 0 < n < |c|
    ensures ChainView(g, txs, c[..n]).Some?
    ensures ProcessTxs(ChainView(g, txs, c[..n]).value, map[], txs, c[n].transactions).ok
    decreases |c|
  {
    hide ProcessTxs;
    var m := |c| - 1;
    if n < m {
      assert c[..m][..n] == c[..n] && c[..m][n] == c[n];
      ChainViewPrefix(g, txs, c[..m], n);
    }
  }

  lemma FinalNonce(s: Store, g: Accounts, c: seq<Block>, n: nat, a: Address)
    requires 0 < n < |c| && TxCount(c) < 0x1_0000_0000_0000_0000 && a !in g
    requires ListSends(s.txs, c[n].transactions, a) > 0
    requires ChainView(g, s.txs, c).Some? && SameAccounts(s.accounts, ChainView(g, s.txs, c).value)
    ensures Of(s.accounts, a).nonce > 0
  {
    hide ChainView, ListSends, ChainSends, TxCount;
    SendsGrow(s.txs, c, n, a);
    SendsBound(s.txs, c, a);
    ChainNonce(g, s.txs, c, a);
  }

  // ---------- the restart ----------

  lemma DoubledIsSame(b: U64)
    ensures Wrap(2 * b) == b <==> b == 0
  {}

  lemma GenesisHasNoTransactions(sha: Sha, c: seq<Block>)
    requires ValidChain(sha, c)
    ensures c[0].transactions == []
  {}

  lemma OutsiderStopsRestart(sha: Sha, genesis: Genesis, c: seq<Block>, l: Ledger)
    requires Ready(sha, genesis, c, l) && |c| <= 0x1_0000_0000_0000_0000 && TxCount(c) < 0x1_0000_0000_0000_0000
    requires !GenesisSendersOnly(InitState(genesis.initAccounts), l.store.txs, c)
    ensures Recover(l.store).None?
  {
    GenesisHasNoTransactions(sha, c);
    TipHeight(sha, c, l);
    hide GenesisSendersOnly, ChainView, TxCount, Replay, HoldsDigests, ValidChain;
    OutsiderStopsReplay(l.store, genesis, c);
  }

  /** A restart of a run that kept its store stable succeeds exactly when every stored transaction of
      its chain was sent by a genesis account. Then an account comes back as it was exactly when it is
      a genesis account or holds nothing. */
  lemma RestartExactly(sha: Sha, genesis: Genesis, stateRoot: Hash, events: seq<Event>)
    requires |events| < 0x1_0000_0000_0000_0000
    requires StableRun(sha, CreateNewChain(sha, genesis, stateRoot), events)
    requires TxCount(ChainOf(sha, CreateNewChain(sha, genesis, stateRoot), events)) < 0x1_0000_0000_0000_0000
    ensures var l0 := CreateNewChain(sha, genesis, stateRoot);
            var l := Run(sha, l0, events);
            && (Recover(l.store).Some? <==> SendersAreGenesis(sha, genesis, l0, events))
            && (Recover(l.store).Some? ==>
                  && Recover(l.store).value.tip == l.tip
                  && forall a: Address ::
                       Answer(Recover(l.store).value, a) == Answer(l, a)
                       <==> a in InitState(genesis.initAccounts) || Answer(l, a).balance == 0)
  {
    hide Recover, Run, CreateNewChain, InitState, StableRun, Answer, Wrap, ChainOf, TxCount, GenesisSendersOnly, Ready;
    var l0 := CreateNewChain(sha, genesis, stateRoot);
    var l := Run(sha, l0, events);
    if SendersAreGenesis(sha, genesis, l0, events) {
      RecoveryMatchesLive(sha, genesis, stateRoot, events);
      forall a: Address
        ensures Answer(Recover(l.store).value, a) == Answer(l, a)
                <==> a in InitState(genesis.initAccounts) || Answer(l, a).balance == 0
      {
        DoubledIsSame(Answer(l, a).balance);
      }
    } else {
      RunReady(sha, genesis, stateRoot, events);
      OutsiderStopsRestart(sha, genesis, ChainOf(sha, l0, events), l);
    }
  }

  // ---------- at an input ----------

  lemma PaymentCredits(state: Accounts, stored: Accounts, a: Address, b: Address)
    requires a != b && Lookup(state, stored, a) == Account(a, 100, 0, 0)
    requires var r := Lookup(state, stored, b); r.address == b && r.balance < 100
    ensures var e := ProcessTx(state, stored, Payment(a, b));
            && e.1 == Applied && Lookup(e.0, stored, a) == Account(a, 89, 1, 0)
            && Lookup(e.0, stored, b) == Lookup(state, stored, b).(balance := Lookup(state, stored, b).balance + 10)
  {
    ProcessTxPointwise(state, stored, Payment(a, b), a);
    ProcessTxPointwise(state, stored, Payment(a, b), b);
    assert Cost(Payment(a, b)) == 11;
    hide ProcessTx, Lookup, Cost;
  }

  lemma OneTransaction(e: Exec, stored: Accounts, tx: Transaction)
    requires ProcessTx(e.state, stored, tx).1 == Applied
    ensures ProcessOne(e, stored, tx).ok && ProcessOne(e, stored, tx).state == ProcessTx(e.state, stored, tx).0
  {}

  /** The funded chain after one block paying ten from a to b. */
  function Paid(sha: Sha, stateRoot: Hash, a: Address, b: Address, txs: map<Hash, Transaction>): Ledger {
    var l0 := CreateNewChain(sha, Funded(a), stateRoot);
    AddBlock(sha, l0.(store := l0.store.(txs := txs)), NextBlock(sha, l0.tip, [TransactionHash(sha, Payment(a, b))])).0
  }

  lemma PaidLedger(sha: Sha, stateRoot: Hash, a: Address, b: Address, txs: map<Hash, Transaction>)
    requires a != b && TransactionHash(sha, Payment(a, b)) in txs
    requires txs[TransactionHash(sha, Payment(a, b))] == Payment(a, b)
    ensures var l := Paid(sha, stateRoot, a, b, txs);
            var l0 := CreateNewChain(sha, Funded(a), stateRoot);
            && l.tip == NextBlock(sha, l0.tip, [TransactionHash(sha, Payment(a, b))]) && l.store.txs == txs
            && l.store.genesis == Some(Funded(a)) && l.store.latest == Some(1)
            && l.store.blocks == map[0 := l0.tip, 1 := l.tip] && l.store.accounts.Keys == l.state.Keys
            && l.state == l.store.accounts == map[a := Account(a, 89, 1, 0), b := Account(b, 10, 0, 0)]
  {
    hide ProcessTx, EntryFor, TransactionHash, HeaderHash, TxRoot;
    FundedState(a);
    var x := TransactionHash(sha, Payment(a, b));
    var g := map[a := Account(a, 100, 0, 0)];
    OneHash(g, g, txs, x);
    PaymentCredits(g, g, a, b);
    PaymentOnly(g, a, b);
    OneTransaction(Exec(g, true, []), g, Payment(a, b));
    var l0 := CreateNewChain(sha, Funded(a), stateRoot);
    assert l0.state == g && l0.store.accounts == map[] + g == g;
    AddedStore(sha, l0.(store := l0.store.(txs := txs)), NextBlock(sha, l0.tip, [x]));
    var l := Paid(sha, stateRoot, a, b, txs);
    assert l.state == map[a := Account(a, 89, 1, 0), b := Account(b, 10, 0, 0)];
    assert l.store.accounts == g + l.state == l.state;
  }

  lemma PaymentOnly(g: Accounts, a: Address, b: Address)
    requires a != b && g == map[a := Account(a, 100, 0, 0)]
    ensures ProcessTx(g, g, Payment(a, b)).0 == map[a := Account(a, 89, 1, 0), b := Account(b, 10, 0, 0)]
  {
    assert Cost(Payment(a, b)) == 11;
    hide Cost;
  }

  /** The replay of that block reads b as the run left it, and credits it again. */
  lemma PaidReplay(sha: Sha, s: Store, a: Address, b: Address, held: Account)
    requires a != b && TransactionHash(sha, Payment(a, b)) in s.txs
    requires s.txs[TransactionHash(sha, Payment(a, b))] == Payment(a, b)
    requires 1 in s.blocks && s.blocks[1].transactions == [TransactionHash(sha, Payment(a, b))]
    requires b in s.accounts && s.accounts[b] == held && held.address == b && held.balance < 100
    ensures var r := Replay(s, Funded(a), 1);
            r.Some? && Lookup(r.value, s.accounts, b) == held.(balance := held.balance + 10)
  {
    hide ProcessTx, EntryFor, TransactionHash;
    FundedState(a);
    var g := map[a := Account(a, 100, 0, 0)];
    OneHash(g, s.accounts, s.txs, TransactionHash(sha, Payment(a, b)));
    PaymentCredits(g, s.accounts, a, b);
    OneTransaction(Exec(g, true, []), s.accounts, Payment(a, b));
    assert Replay(s, Funded(a), 0) == Some(g);
  }

  /** An account from outside genesis that was paid ten comes back with twenty. */
  lemma OutsiderComesBackDoubled(sha: Sha, stateRoot: Hash, a: Address, b: Address)
    requires a != b
    ensures var l0 := CreateNewChain(sha, Funded(a), stateRoot);
            var p := Payment(a, b);
            var l := Run(sha, l0, [StoreTx(p), Submit(NextBlock(sha, l0.tip, [TransactionHash(sha, p)]))]);
            Recover(l.store).Some? && Answer(l, b).balance == 10 && Answer(Recover(l.store).value, b).balance == 20
  {
    hide TransactionHash, AddBlock, Replay, HeaderHash, TxRoot;
    var l0 := CreateNewChain(sha, Funded(a), stateRoot);
    var p := Payment(a, b);
    var x := TransactionHash(sha, p);
    TwoEvents(sha, l0, StoreTx(p), Submit(NextBlock(sha, l0.tip, [x])));
    PaidLedger(sha, stateRoot, a, b, map[x := p]);
    var l := Paid(sha, stateRoot, a, b, map[x := p]);
    PaidReplay(sha, l.store, a, b, Account(b, 10, 0, 0));
  }

  /** Five units of what it was paid, sent back. */
  function Refund(b: Address, a: Address): Transaction { Payment(b, a).(amount := 5) }

  lemma RefundApplies(state: Accounts, stored: Accounts, a: Address, b: Address)
    requires a != b
    requires Lookup(state, stored, a) == Account(a, 89, 1, 0) && Lookup(state, stored, b) == Account(b, 10, 0, 0)
    ensures ProcessTx(state, stored, Refund(b, a)).1 == Applied
    ensures Lookup(ProcessTx(state, stored, Refund(b, a)).0, stored, b) == Account(b, 4, 1, 0)
  {
    ProcessTxPointwise(state, stored, Refund(b, a), b);
    assert Cost(Refund(b, a)) == 6;
    hide ProcessTx, Lookup, Cost;
  }

  lemma RefundRefused(state: Accounts, stored: Accounts, a: Address, b: Address)
    requires Lookup(state, stored, b).nonce == 1
    ensures ProcessTx(state, stored, Refund(b, a)).1 != Applied
  {
    ProcessTxPointwise(state, stored, Refund(b, a), b);
    hide ProcessTx, Lookup, Cost;
  }

  lemma Refunded(sha: Sha, l: Ledger, a: Address, b: Address)
    requires a != b && l.state == l.store.accounts == map[a := Account(a, 89, 1, 0), b := Account(b, 10, 0, 0)]
    requires TransactionHash(sha, Refund(b, a)) in l.store.txs
    requires l.store.txs[TransactionHash(sha, Refund(b, a))] == Refund(b, a)
    ensures var blk := NextBlock(sha, l.tip, [TransactionHash(sha, Refund(b, a))]);
            var r := AddBlock(sha, l, blk);
            && r.1.Added? && r.0.store.blocks == l.store.blocks[blk.header.number := blk]
            && r.0.store.latest == Some(blk.header.number) && r.0.store.txs == l.store.txs
            && r.0.store.genesis == l.store.genesis
            && b in r.0.store.accounts && r.0.store.accounts[b] == Account(b, 4, 1, 0)
            && r.0.tip == blk && Answer(r.0, b) == Account(b, 4, 1, 0)
  {
    hide ProcessTx, EntryFor, TransactionHash, HeaderHash, TxRoot, NextBlock, ValidateBlock;
    var y := TransactionHash(sha, Refund(b, a));
    OneHash(l.state, l.store.accounts, l.store.txs, y);
    RefundApplies(l.state, l.store.accounts, a, b);
    OneTransaction(Exec(l.state, true, []), l.store.accounts, Refund(b, a));
    AddedStore(sha, l, NextBlock(sha, l.tip, [y]));
    HeldAfter(l.state, l.store.accounts, Refund(b, a), b);
  }

  lemma HeldAfter(state: Accounts, stored: Accounts, tx: Transaction, a: Address)
    requires tx.from == a
    ensures a in ProcessTx(state, stored, tx).0
    ensures ProcessTx(state, stored, tx).0[a] == Lookup(ProcessTx(state, stored, tx).0, stored, a)
  {}

  lemma FourEvents(sha: Sha, l: Ledger, e: Event, f: Event, g: Event, h: Event)
    ensures Run(sha, l, [e, f, g, h]) == Step(sha, Step(sha, Step(sha, Step(sha, l, e), f), g), h)
  {
    hide Step;
    assert [e, f, g, h][..3] == [e, f, g] && [e, f, g][..2] == [e, f];
    TwoEvents(sha, l, e, f);
  }

  /** And if it has sent some of that on, the restart fails. */
  lemma OutsiderSenderStopsRestart(sha: Sha, stateRoot: Hash, a: Address, b: Address)
    requires a != b && TransactionHash(sha, Payment(a, b)) != TransactionHash(sha, Refund(b, a))
    ensures var l0 := CreateNewChain(sha, Funded(a), stateRoot);
            var p, q := Payment(a, b), Refund(b, a);
            var first := NextBlock(sha, l0.tip, [TransactionHash(sha, p)]);
            var second := NextBlock(sha, first, [TransactionHash(sha, q)]);
            var l := Run(sha, l0, [StoreTx(p), StoreTx(q), Submit(first), Submit(second)]);
            l.tip == second && Answer(l, b) == Account(b, 4, 1, 0) && Recover(l.store).None?
  {
    hide TransactionHash, AddBlock, Replay, HeaderHash, TxRoot, Refund, Payment;
    var l0 := CreateNewChain(sha, Funded(a), stateRoot);
    var p, q := Payment(a, b), Refund(b, a);
    var x, y := TransactionHash(sha, p), TransactionHash(sha, q);
    var first := NextBlock(sha, l0.tip, [x]);
    var second := NextBlock(sha, first, [y]);
    FourEvents(sha, l0, StoreTx(p), StoreTx(q), Submit(first), Submit(second));
    var txs := map[x := p, y := q];
    PaidLedger(sha, stateRoot, a, b, txs);
    var paid := Paid(sha, stateRoot, a, b, txs);
    Refunded(sha, paid, a, b);
    var l := AddBlock(sha, paid, second).0;
    PaidReplay(sha, l.store, a, b, Account(b, 4, 1, 0));
    SecondStops(sha, l.store, a, b);
  }

  lemma SecondStops(sha: Sha, s: Store, a: Address, b: Address)
    requires Replay(s, Funded(a), 1).Some? && Lookup(Replay(s, Funded(a), 1).value, s.accounts, b).nonce == 1
    requires TransactionHash(sha, Refund(b, a)) in s.txs && s.txs[TransactionHash(sha, Refund(b, a))] == Refund(b, a)
    requires 2 in s.blocks && s.blocks[2].transactions == [TransactionHash(sha, Refund(b, a))]
    ensures Replay(s, Funded(a), 2).None?
  {
    hide ProcessTx, EntryFor, TransactionHash;
    var r := Replay(s, Funded(a), 1).value;
    OneHash(r, s.accounts, s.txs, TransactionHash(sha, Refund(b, a)));
    RefundRefused(r, s.accounts, a, b);
  }
}
