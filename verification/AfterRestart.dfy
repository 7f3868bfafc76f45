/** What a restart makes of a transaction stored late, and of the value the chain holds. */
module AfterRestart {
  import opened Encoding
  import opened Types
  import opened Storage
  import opened HashChain
  import opened Execution
  import opened ChainIndex
  import opened Recovery
  import opened Restart
  import C = Conservation

  // ---------- nonces after a replay ----------

  lemma LookupOver(state: Accounts, stored: Accounts, a: Address)
    ensures Lookup(state, stored, a) == Of(stored + state, a)
  {}

  lemma ReplayedListNonce(r: Accounts, stored: Accounts, txs: map<Hash, Transaction>, hashes: seq<Hash>, a: Address)
    requires ProcessTxs(r, stored, txs, hashes).ok
    ensures Lookup(ProcessTxs(r, stored, txs, hashes).state, stored, a).nonce
            == Wrap(Lookup(r, stored, a).nonce + ListSends(txs, hashes, a))
  {
    hide ProcessTxs, Wrap, ListSends, Lookup, Of;
    LookupOver(r, stored, a);
    LookupOver(ProcessTxs(r, stored, txs, hashes).state, stored, a);
    ProcessTxsView(r, stored, txs, hashes);
    ListNonce(stored + r, txs, hashes, a);
  }

  lemma ReplayedNothing(s: Store, genesis: Genesis, c: seq<Block>, a: Address)
    requires c != []
    ensures Replay(s, genesis, 0) == Some(InitState(genesis.initAccounts)) && ChainSends(s.txs, c[..1], a) == 0
  {}

  lemma ReplayedBlock(s: Store, genesis: Genesis, c: seq<Block>, n: nat)
    requires HoldsChain(s.blocks, c) && 0 < n < |c| && Replay(s, genesis, n).Some?
    ensures Replay(s, genesis, n - 1).Some?
    ensures var e := ProcessTxs(Replay(s, genesis, n - 1).value, s.accounts, s.txs, c[n].transactions);
            e.ok && Replay(s, genesis, n).value == e.state
  {
    hide ProcessTxs, InitState;
    assert s.blocks[n] == c[n];
  }

  lemma SendsNext(txs: map<Hash, Transaction>, c: seq<Block>, n: nat, a: Address)
    requires 0 < n < |c|
    ensures ChainSends(txs, c[..n + 1], a) == ChainSends(txs, c[..n], a) + ListSends(txs, c[n].transactions, a)
  {
    hide ListSends;
    assert c[..n + 1][..n] == c[..n] && c[..n + 1][n] == c[n];
  }

  /** A replay counts the sends of the chain on top of the nonce it first reads. */
  lemma {:induction false} ReplayedNonce(s: Store, genesis: Genesis, c: seq<Block>, n: nat, a: Address)
    requires HoldsChain(s.blocks, c) && n < |c| && Replay(s, genesis, n).Some?
    ensures Lookup(Replay(s, genesis, n).value, s.accounts, a).nonce
            == Wrap(Lookup(InitState(genesis.initAccounts), s.accounts, a).nonce
                    + ChainSends(s.txs, c[..n + 1], a))
  {
    hide Wrap, ProcessTxs, ListSends, Lookup, InitState, Replay, ChainSends, HoldsChain;
    var base := Lookup(InitState(genesis.initAccounts), s.accounts, a).nonce;
    WrapSmall(base);
    if n == 0 {
      ReplayedNothing(s, genesis, c, a);
    } else {
      ReplayedBlock(s, genesis, c, n);
      ReplayedNonce(s, genesis, c, n - 1, a);
      ReplayedListNonce(Replay(s, genesis, n - 1).value, s.accounts, s.txs, c[n].transactions, a);
      SendsNext(s.txs, c, n, a);
      WrapAdd(base + ChainSends(s.txs, c[..n], a), ListSends(s.txs, c[n].transactions, a));
    }
  }

  // ---------- a transaction stored late ----------

  ghost predicate Listed(c: seq<Block>, x: Hash) {
    exists i :: 0 <= i < |c| && x in c[i].transactions
  }

  lemma {:induction false} LateListSends(txs: map<Hash, Transaction>, hashes: seq<Hash>, x: Hash, tx: Transaction)
    requires x !in txs
    ensures ListSends(txs[x := tx], hashes, tx.from)
            >= ListSends(txs, hashes, tx.from) + if x in hashes then 1 else 0
    decreases |hashes|
  {
    if hashes != [] {
      var n := |hashes| - 1;
      assert hashes == hashes[..n] + [hashes[n]];
      LateListSends(txs, hashes[..n], x, tx);
    }
  }

  lemma {:induction false} LateChainSends(txs: map<Hash, Transaction>, c: seq<Block>, x: Hash, tx: Transaction)
    requires x !in txs && c != [] && c[0].transactions == []
    ensures ChainSends(txs[x := tx], c, tx.from)
            >= ChainSends(txs, c, tx.from) + if Listed(c, x) then 1 else 0
    decreases |c|
  {
    hide ListSends;
    if |c| > 1 {
      var n := |c| - 1;
      LateChainSends(txs, c[..n], x, tx);
      LateListSends(txs, c[n].transactions, x, tx);
      if Listed(c, x) && x !in c[n].transactions {
        var i :| 0 <= i < |c| && x in c[i].transactions;
        assert c[..n][i] == c[i];
      }
    }
  }

  /** A restart that brings every nonce back. */
  ghost predicate RestoresNonces(s: Store, l: Ledger) {
    Recover(s).Some? && forall a: Address :: Answer(Recover(s).value, a).nonce == Answer(l, a).nonce
  }

  lemma CountsDiffer(base: U64, n: nat, m: nat)
    requires n < m < 0x1_0000_0000_0000_0000
    ensures Wrap(base + n) != Wrap(base + m)
  {
    if Wrap(base + n) == Wrap(base + m) { WrapCancel(base + n, base + m); }
  }

  lemma LiveNonce(genesis: Genesis, c: seq<Block>, l: Ledger, a: Address)
    requires LiveIsChain(InitState(genesis.initAccounts), c, l)
    ensures Answer(l, a).nonce == Wrap(Of(InitState(genesis.initAccounts), a).nonce + ChainSends(l.store.txs, c, a))
    ensures Of(l.store.accounts, a).nonce == Answer(l, a).nonce
  {
    hide Wrap, ChainSends, ChainView, Of, InitState;
    LookupIsView(l, a);
    ChainNonce(InitState(genesis.initAccounts), l.store.txs, c, a);
  }

  lemma FirstRead(g: Accounts, stored: Accounts, a: Address)
    ensures Lookup(g, stored, a) == if a in g then Of(g, a) else Of(stored, a)
  {}

  /** Storing a transaction the chain lists and the store did not hold makes the next restart fail, or give
      its sender another nonce. */
  lemma LateStoreShows(sha: Sha, genesis: Genesis, c: seq<Block>, l: Ledger, tx: Transaction)
    requires Ready(sha, genesis, c, l) && |c| <= 0x1_0000_0000_0000_0000 && TxCount(c) < 0x1_0000_0000_0000_0000
    requires TransactionHash(sha, tx) !in l.store.txs && Listed(c, TransactionHash(sha, tx))
    ensures var s := Step(sha, l, StoreTx(tx)).store;
            Recover(s).Some? ==> Answer(Recover(s).value, tx.from).nonce != Answer(l, tx.from).nonce
  {
    hide TransactionHash, ChainSends, TxCount, Listed, Wrap, Lookup, Of, Replay, Recover, HoldsDigests, ChainView,
      ValidChain, SameAccounts, LiveIsChain, InitState;
    var l', a := Step(sha, l, StoreTx(tx)), tx.from;
    var g := InitState(genesis.initAccounts);
    OtherStepsKeepIndexed(sha, c, l, StoreTx(tx));
    GenesisHasNoTransactions(sha, c);
    RecoverIs(sha, genesis, c, l');
    if Replay(l'.store, genesis, |c| - 1).Some? {
      ReplayedNonce(l'.store, genesis, c, |c| - 1, a);
      assert c[..|c|] == c;
      LateChainSends(l.store.txs, c, TransactionHash(sha, tx), tx);
      SendsBound(l'.store.txs, c, a);
      FirstRead(g, l.store.accounts, a);
      LiveNonce(genesis, c, l, a);
      var live, late := ChainSends(l.store.txs, c, a), ChainSends(l'.store.txs, c, a);
      if a in g {
        CountsDiffer(Of(g, a).nonce, live, late);
      } else {
        WrapSmall(Answer(l, a).nonce);
        CountsDiffer(Answer(l, a).nonce, 0, late);
      }
    }
  }

  lemma SameSenders(g: Accounts, t: map<Hash, Transaction>, u: map<Hash, Transaction>, c: seq<Block>)
    requires AgreeOnChain(t, u, c)
    ensures GenesisSendersOnly(g, t, c) <==> GenesisSendersOnly(g, u, c)
  {
    forall i | 0 <= i < |c|
      ensures GenesisSenders(g, t, c[i].transactions) <==> GenesisSenders(g, u, c[i].transactions)
    {
      assert AgreeOn(t, u, c[i].transactions);
    }
  }

  /** Any other transaction leaves the restart to the senders. */
  lemma StableStoreRestores(sha: Sha, genesis: Genesis, c: seq<Block>, l: Ledger, tx: Transaction)
    requires Ready(sha, genesis, c, l) && |c| <= 0x1_0000_0000_0000_0000 && TxCount(c) < 0x1_0000_0000_0000_0000
    requires Stable(sha, c, l, StoreTx(tx))
    ensures RestoresNonces(Step(sha, l, StoreTx(tx)).store, l)
            <==> GenesisSendersOnly(InitState(genesis.initAccounts), l.store.txs, c)
  {
    var l', g := Step(sha, l, StoreTx(tx)), InitState(genesis.initAccounts);
    hide TransactionHash, TxCount, Replay, ChainView, InitState, Stable, GenesisSendersOnly, AgreeOnChain, Recover,
      SameAccounts, Indexed;
    StoreReady(sha, genesis, c, l, tx);
    StoreKeepsLive(sha, g, c, l, tx);
    SameSenders(g, l.store.txs, l'.store.txs, c);
    ReadyRestoresNonces(sha, genesis, c, l');
    assert forall a: Address :: Answer(l', a) == Answer(l, a);
  }

  /** After any stable run, storing one more transaction keeps restarts good for every nonce exactly when
      the senders on the chain are genesis accounts and the transaction is already stored or is not listed
      on the chain; or it collides with the one it replaces. */
  lemma LateStoreExactly(sha: Sha, genesis: Genesis, stateRoot: Hash, events: seq<Event>, tx: Transaction)
    requires |events| < 0x1_0000_0000_0000_0000
    requires StableRun(sha, CreateNewChain(sha, genesis, stateRoot), events)
    requires TxCount(ChainOf(sha, CreateNewChain(sha, genesis, stateRoot), events)) < 0x1_0000_0000_0000_0000
    ensures var l0 := CreateNewChain(sha, genesis, stateRoot);
            var l, x := Run(sha, l0, events), TransactionHash(sha, tx);
            || (RestoresNonces(Step(sha, l, StoreTx(tx)).store, l)
                <==> SendersAreGenesis(sha, genesis, l0, events)
                     && (x in l.store.txs || !Listed(ChainOf(sha, l0, events), x)))
            || (x in l.store.txs && TransactionBytes(l.store.txs[x]) != TransactionBytes(tx)
                && TransactionHash(sha, l.store.txs[x]) == x)
  {
    hide TransactionHash, TransactionBytes, TxCount, RestoresNonces, Ready, StableRun, CreateNewChain, Run, ChainOf,
      GenesisSendersOnly, Step;
    var l0 := CreateNewChain(sha, genesis, stateRoot);
    var l, c, x := Run(sha, l0, events), ChainOf(sha, l0, events), TransactionHash(sha, tx);
    RunReady(sha, genesis, stateRoot, events);
    RunKeyed(sha, genesis, stateRoot, events);
    if x !in l.store.txs && Listed(c, x) {
      LateStoreShows(sha, genesis, c, l, tx);
      NotRestored(Step(sha, l, StoreTx(tx)).store, l, tx.from);
    } else if Stable(sha, c, l, StoreTx(tx)) {
      StableStoreRestores(sha, genesis, c, l, tx);
    }
  }

  lemma NotRestored(s: Store, l: Ledger, a: Address)
    requires Recover(s).Some? ==> Answer(Recover(s).value, a).nonce != Answer(l, a).nonce
    ensures !RestoresNonces(s, l)
  {}

  // ---------- a block that failed ----------

  /** A failed block that applied something leaves an account whose nonce no restart brings back. */
  lemma FailedShows(sha: Sha, l: Ledger, b: Block) returns (a: Address)
    requires AddBlock(sha, l, b).1.Failed? && |b.transactions| < 0x1_0000_0000_0000_0000
    requires AddBlockLog(sha, l, b) != []
    ensures Answer(AddBlock(sha, l, b).0, a).nonce != Answer(l, a).nonce
  {
    hide ProcessTxs, Wrap, C.Sends, ValidateBlock, Lookup, Of, View;
    AddBlockView(sha, l, b);
    var e := ProcessTxs(View(l), map[], l.store.txs, b.transactions);
    a := e.log[0].tx.from;
    BlockNonce(View(l), l.store.txs, b.transactions, a);
    LogBound(View(l), l.store.txs, b.transactions);
    FirstSends(e.log);
    NonceMoved(Of(View(l), a).nonce, C.Sends(e.log, a));
    LookupIsView(l, a);
    LookupIsView(AddBlock(sha, l, b).0, a);
  }

  lemma ReadyRestoresNonces(sha: Sha, genesis: Genesis, c: seq<Block>, l: Ledger)
    requires Ready(sha, genesis, c, l) && |c| <= 0x1_0000_0000_0000_0000 && TxCount(c) < 0x1_0000_0000_0000_0000
    ensures Recover(l.store).Some? <==> GenesisSendersOnly(InitState(genesis.initAccounts), l.store.txs, c)
    ensures Recover(l.store).Some? <==> RestoresNonces(l.store, l)
  {
    hide TxCount, Lookup, Replay, HoldsDigests, ChainView, ValidChain, InitState, GenesisSendersOnly, Recover, Wrap,
      SameAccounts;
    RecoverIs(sha, genesis, c, l);
    if GenesisSendersOnly(InitState(genesis.initAccounts), l.store.txs, c) {
      ReadyRestores(sha, genesis, c, l);
    } else {
      OutsiderStopsRestart(sha, genesis, c, l);
    }
  }

  /** After any stable run, a block that fails leaves a restart good for every nonce exactly when the senders
      on the chain are genesis accounts and the block's first stored transaction is the one that does not
      apply. */
  lemma FailedBlockExactly(sha: Sha, genesis: Genesis, stateRoot: Hash, events: seq<Event>, b: Block)
    requires |events| < 0x1_0000_0000_0000_0000 && |b.transactions| < 0x1_0000_0000_0000_0000
    requires StableRun(sha, CreateNewChain(sha, genesis, stateRoot), events)
    requires TxCount(ChainOf(sha, CreateNewChain(sha, genesis, stateRoot), events)) < 0x1_0000_0000_0000_0000
    requires AddBlock(sha, Run(sha, CreateNewChain(sha, genesis, stateRoot), events), b).1.Failed?
    ensures var l0 := CreateNewChain(sha, genesis, stateRoot);
            var l := Run(sha, l0, events);
            var l', first := AddBlock(sha, l, b).0, FirstStored(l.store.txs, b.transactions);
            && first.Some?
            && (RestoresNonces(l'.store, l')
                <==> SendersAreGenesis(sha, genesis, l0, events)
                     && VerdictOn(Answer(l, first.value.from), first.value) != Applied)
  {
    hide TxCount, RestoresNonces, Ready, StableRun, CreateNewChain, Run, ChainOf, GenesisSendersOnly, AddBlock,
      AddBlockLog, VerdictOn, FirstStored, View, Lookup;
    var l0 := CreateNewChain(sha, genesis, stateRoot);
    var l, c := Run(sha, l0, events), ChainOf(sha, l0, events);
    RunReady(sha, genesis, stateRoot, events);
    FailedKeepsStore(sha, l, b);
    FailedFirst(sha, l, b);
    ReadyRestoresNonces(sha, genesis, c, l);
    var l' := AddBlock(sha, l, b).0;
    if AddBlockLog(sha, l, b) == [] {
      FailedReady(sha, genesis, c, l, b);
      ReadyRestoresNonces(sha, genesis, c, l');
    } else {
      var a := FailedShows(sha, l, b);
      OtherNonce(l.store, l, l', a);
    }
  }

  lemma OtherNonce(s: Store, l: Ledger, l': Ledger, a: Address)
    requires Answer(l', a).nonce != Answer(l, a).nonce && (Recover(s).Some? ==> RestoresNonces(s, l))
    ensures !RestoresNonces(s, l')
  {}

  lemma FailedKeepsStore(sha: Sha, l: Ledger, b: Block)
    requires AddBlock(sha, l, b).1.Failed?
    ensures AddBlock(sha, l, b).0.store == l.store
  {}

  /** The failed block's log is empty exactly when its first stored transaction does not apply. */
  lemma FailedFirst(sha: Sha, l: Ledger, b: Block)
    requires AddBlock(sha, l, b).1.Failed?
    ensures var first := FirstStored(l.store.txs, b.transactions);
            && first.Some?
            && (AddBlockLog(sha, l, b) == []
                <==> VerdictOn(Answer(l, first.value.from), first.value) != Applied)
  {
    hide ProcessTxs, ValidateBlock, VerdictOn, FirstStored;
    AddBlockView(sha, l, b);
    FirstDecides(View(l), l.store.txs, b.transactions);
    var first := FirstStored(l.store.txs, b.transactions);
    if first.Some? { LookupIsView(l, first.value.from); }
  }

  // ---------- value after a restart ----------

  lemma TotalWithout(m: Accounts, a: Address)
    ensures C.Total(m) == Of(m, a).balance + C.Total(m - {a})
  {
    if a in m { C.TotalRemove(m, a); } else { assert m - {a} == m; }
  }

  ghost predicate BelowSum(v: Accounts, u: Accounts, w: Accounts) {
    forall a: Address :: Of(w, a).balance <= Of(v, a).balance + Of(u, a).balance
  }

  ghost predicate IsSum(v: Accounts, u: Accounts, w: Accounts) {
    forall a: Address :: Of(w, a).balance == Of(v, a).balance + Of(u, a).balance
  }

  /** Totals add up exactly when balances do, account by account. */
  lemma {:induction false} TotalAdds(v: Accounts, u: Accounts, w: Accounts)
    requires BelowSum(v, u, w)
    ensures C.Total(w) <= C.Total(v) + C.Total(u)
    ensures C.Total(w) == C.Total(v) + C.Total(u) <==> IsSum(v, u, w)
    decreases |v| + |u| + |w|
  {
    hide C.Total, BelowSum, IsSum, Of;
    var all := v.Keys + u.Keys + w.Keys;
    if all == {} {
      NoTotal();
      assert v == u == w == map[];
      NoneSum();
    } else {
      var a :| a in all;
      TotalWithout(v, a); TotalWithout(u, a); TotalWithout(w, a);
      Shrinks(v, a); Shrinks(u, a); Shrinks(w, a);
      BelowWithout(v, u, w, a);
      SumWithout(v, u, w, a);
      TotalAdds(v - {a}, u - {a}, w - {a});
    }
  }

  lemma NoneSum()
    ensures IsSum(map[], map[], map[])
  {}

  lemma BelowWithout(v: Accounts, u: Accounts, w: Accounts, a: Address)
    requires BelowSum(v, u, w)
    ensures BelowSum(v - {a}, u - {a}, w - {a}) && Of(w, a).balance <= Of(v, a).balance + Of(u, a).balance
  {
    forall b: Address ensures Of(w - {a}, b).balance <= Of(v - {a}, b).balance + Of(u - {a}, b).balance {
      assert Of(w, b).balance <= Of(v, b).balance + Of(u, b).balance;
    }
  }

  lemma NoTotal()
    ensures C.Total(map[]) == 0
  {}

  lemma Shrinks(m: Accounts, a: Address)
    ensures |m - {a}| == |m| - if a in m then 1 else 0
  {
    assert (m - {a}).Keys == m.Keys - {a};
    assert |m.Keys| == |m| && |(m - {a}).Keys| == |m - {a}|;
  }

  lemma SumWithout(v: Accounts, u: Accounts, w: Accounts, a: Address)
    ensures IsSum(v, u, w)
            <==> IsSum(v - {a}, u - {a}, w - {a}) && Of(w, a).balance == Of(v, a).balance + Of(u, a).balance
  {
    var v', u', w' := v - {a}, u - {a}, w - {a};
    if IsSum(v', u', w') && Of(w, a).balance == Of(v, a).balance + Of(u, a).balance {
      forall b: Address ensures Of(w, b).balance == Of(v, b).balance + Of(u, b).balance {
        assert Of(w', b).balance == Of(v', b).balance + Of(u', b).balance;
      }
    }
    if IsSum(v, u, w) {
      forall b: Address ensures Of(w', b).balance == Of(v', b).balance + Of(u', b).balance {
        assert Of(w, b).balance == Of(v, b).balance + Of(u, b).balance;
      }
    }
  }

  /** The accounts a ledger holds outside genesis. */
  function Outside(genesis: Genesis, l: Ledger): Accounts { View(l) - InitState(genesis.initAccounts).Keys }

  /** Doubling them wraps nowhere. */
  ghost predicate DoublesFit(m: Accounts) {
    forall a :: a in m ==> 2 * m[a].balance < 0x1_0000_0000_0000_0000
  }

  lemma RestoredBalance(genesis: Genesis, l: Ledger, r: Ledger, a: Address)
    requires Answer(r, a) == if a in InitState(genesis.initAccounts) then Answer(l, a)
                             else Answer(l, a).(balance := Wrap(2 * Answer(l, a).balance))
    ensures var outside := Outside(genesis, l);
            && Of(View(r), a).balance <= Of(View(l), a).balance + Of(outside, a).balance
            && (Of(View(r), a).balance == Of(View(l), a).balance + Of(outside, a).balance
                <==> (a in outside ==> 2 * outside[a].balance < 0x1_0000_0000_0000_0000))
  {
    LookupIsView(l, a);
    LookupIsView(r, a);
  }

  /** A restart that succeeds adds the balances held outside genesis to the value there is, exactly when
      doubling them wraps nowhere; it never adds more. */
  lemma TotalAfterRestart(sha: Sha, genesis: Genesis, stateRoot: Hash, events: seq<Event>)
    requires |events| < 0x1_0000_0000_0000_0000
    requires StableRun(sha, CreateNewChain(sha, genesis, stateRoot), events)
    requires SendersAreGenesis(sha, genesis, CreateNewChain(sha, genesis, stateRoot), events)
    ensures var l := Run(sha, CreateNewChain(sha, genesis, stateRoot), events);
            var outside := Outside(genesis, l);
            && Recover(l.store).Some?
            && var r := Recover(l.store).value;
               && C.Total(View(r)) <= C.Total(View(l)) + C.Total(outside)
               && (C.Total(View(r)) == C.Total(View(l)) + C.Total(outside) <==> DoublesFit(outside))
  {
    hide Recover, Run, CreateNewChain, InitState, StableRun, SendersAreGenesis, C.Total, View, Answer, Wrap, Outside;
    RecoveryMatchesLive(sha, genesis, stateRoot, events);
    var l := Run(sha, CreateNewChain(sha, genesis, stateRoot), events);
    var r, outside := Recover(l.store).value, Outside(genesis, l);
    forall a: Address
      ensures Of(View(r), a).balance <= Of(View(l), a).balance + Of(outside, a).balance
      ensures Of(View(r), a).balance == Of(View(l), a).balance + Of(outside, a).balance
              <==> (a in outside ==> 2 * outside[a].balance < 0x1_0000_0000_0000_0000)
    {
      RestoredBalance(genesis, l, r, a);
    }
    TotalAdds(View(l), outside, View(r));
  }

  lemma SmallSumFits(m: Accounts, n: nat)
    requires C.Total(m) <= n && n + C.Total(m) < 0x1_0000_0000_0000_0000
    ensures DoublesFit(m)
  {
    forall a | a in m ensures 2 * m[a].balance < 0x1_0000_0000_0000_0000 {
      C.BalanceWithinTotal(m, a);
    }
  }

  lemma OutsideWithin(genesis: Genesis, l: Ledger)
    ensures C.Total(Outside(genesis, l)) <= C.Total(View(l))
  {
    hide C.Total;
    NoTotal();
    TotalAdds(View(l), map[], Outside(genesis, l));
  }

  /** Conservation through a restart: whatever ran before and runs after, what the accounts hold and the
      fees of both runs make up the genesis supply and, once more, what was held outside genesis at the
      restart. So no value is made exactly when nothing was held there. */
  lemma ConservedThroughRestart(sha: Sha, genesis: Genesis, stateRoot: Hash, events: seq<Event>, more: seq<Event>)
    requires |events| < 0x1_0000_0000_0000_0000
    requires StableRun(sha, CreateNewChain(sha, genesis, stateRoot), events)
    requires SendersAreGenesis(sha, genesis, CreateNewChain(sha, genesis, stateRoot), events)
    requires C.Total(InitState(genesis.initAccounts)) < 0x1_0000_0000_0000_0000
    requires C.FittingEvents(events) && C.FittingEvents(more)
    requires var l := Run(sha, CreateNewChain(sha, genesis, stateRoot), events);
             C.Total(View(l)) + C.Total(Outside(genesis, l)) < 0x1_0000_0000_0000_0000
    ensures var l0 := CreateNewChain(sha, genesis, stateRoot);
            var l := Run(sha, l0, events);
            && Recover(l.store).Some?
            && var r := Recover(l.store).value;
               C.Total(View(Run(sha, r, more))) + C.Fees(RunLog(sha, r, more)) + C.Fees(RunLog(sha, l0, events))
               == C.Total(InitState(genesis.initAccounts)) + C.Total(Outside(genesis, l))
  {
    hide Recover, Run, RunLog, CreateNewChain, InitState, StableRun, SendersAreGenesis, View, Outside, DoublesFit,
      C.Total, C.Fees, C.FittingEvents, C.AllCostsFit, C.Numbered, C.NoCreditWraps;
    var l0 := CreateNewChain(sha, genesis, stateRoot);
    var l := Run(sha, l0, events);
    RecoveryMatchesLive(sha, genesis, stateRoot, events);
    TotalAfterRestart(sha, genesis, stateRoot, events);
    OutsideWithin(genesis, l);
    SmallSumFits(Outside(genesis, l), C.Total(View(l)));
    C.RunKeeps(sha, genesis, stateRoot, events, true);
    C.RunKeepsFrom(sha, Recover(l.store).value, more, true);
  }
}
