/** How long a transaction stays in the pool: time stamps over any run of pool operations. */
module PoolRuns {
  import opened Encoding
  import opened Types
  import opened PriorityQueue
  import opened TransactionPool

  // ---------- runs of operations ----------

  /** What the pool offers. */
  datatype Op =
    | Add(tx: Transaction) | Remove(hash: Hash) | RemoveAll(hashes: seq<Hash>) | Evict | Select(count: int)
    | CleanUp | Empty

  function OneMore(s: Snapshot, item: Item): Snapshot { Snapshot(s.items + multiset{item}, s.reading + 1) }

  /** One item more, stamped with the next reading. */
  ghost predicate Enqueued(clock: nat -> int, s: Snapshot, t: Snapshot) {
    exists item :: t == OneMore(s, item) && item.addTime == clock(s.reading)
  }

  /** What any operation may do to the queue: leave it, stamp everything in it anew, or add one item. */
  ghost predicate PoolStep(clock: nat -> int, s: Snapshot, t: Snapshot) {
    && s.reading <= t.reading
    && (t.items == s.items || Restamped(clock, s, t) || Enqueued(clock, s, t))
  }

  /** The queues and reading counts of a pool, operation by operation. */
  ghost predicate PoolRun(sha: Sha, clock: nat -> int, run: seq<Snapshot>) {
    && run != [] && (forall k :: 0 <= k < |run| ==> Unique(sha, run[k].items))
    && forall k :: 0 <= k < |run| - 1 ==> PoolStep(clock, run[k], run[k + 1])
  }

  method Operate(pool: TransactionPool, op: Op)
    requires pool.Valid()
    modifies pool`transactions, pool`pending, pool`reading
    ensures pool.Valid() && PoolStep(pool.clock, old(pool.Snap()), pool.Snap())
  {
    hide Holds, IsHeap, Restamped, Expired, TransactionHash, Acceptable, StaysBehind, WithoutLast, Members, Rebuilds;
    match op
    case Add(tx) =>
      ghost var item := Item(tx, tx.gasPrice, pool.clock(pool.reading));
      ghost var added := OneMore(pool.Snap(), item);
      var r := pool.AddTransaction(tx);
      if pool.Snap() == added { IsEnqueued(pool.clock, old(pool.Snap()), item); }
      RestampReads(pool.clock, old(pool.Snap()), pool.Snap());
    case Remove(hash) =>
      var ok := pool.RemoveTransaction(hash);
      RestampReads(pool.clock, old(pool.Snap()), pool.Snap());
    case RemoveAll(hashes) =>
      pool.RemoveTransactions(hashes);
    case Evict =>
      var ok := pool.EvictLowestPriority();
      RestampReads(pool.clock, old(pool.Snap()), pool.Snap());
    case Select(count) =>
      var txs := pool.GetPendingTransactions(count);
    case CleanUp =>
      ghost var start := Snapshot(multiset(pool.pending), pool.reading + 1);
      ghost var size := |pool.transactions|;
      pool.CleanupExpiredTransactions();
      CleanedUp(pool.clock, old(pool.Snap()), pool.Snap(), size, |pool.transactions|);
    case Empty =>
      NoneStamped(pool.clock, pool.Snap());
      pool.Clear();
  }

  lemma IsEnqueued(clock: nat -> int, s: Snapshot, item: Item)
    requires item.addTime == clock(s.reading)
    ensures Enqueued(clock, s, OneMore(s, item))
  {}

  lemma RestampReads(clock: nat -> int, s: Snapshot, t: Snapshot)
    ensures Restamped(clock, s, t) ==> s.reading <= t.reading
  {}

  lemma CleanedUp(clock: nat -> int, s: Snapshot, t: Snapshot, n: nat, m: nat)
    requires AfterRemovals(clock, Snapshot(s.items, s.reading + 1), t, n, m)
    ensures PoolStep(clock, s, t)
  {
    if m != n { RestampedEarlier(clock, Snapshot(s.items, s.reading + 1), t, s.reading); }
  }

  /** Whatever is done to a pool, in whatever order, is such a run. */
  method Serve(pool: TransactionPool, ops: seq<Op>) returns (ghost run: seq<Snapshot>)
    requires pool.Valid()
    modifies pool`transactions, pool`pending, pool`reading
    ensures pool.Valid() && PoolRun(pool.sha, pool.clock, run)
    ensures |run| == |ops| + 1 && run[0] == old(pool.Snap()) && run[|ops|] == pool.Snap()
  {
    hide ItemsKnown, TxsQueued, Unique, KeyedByHash, IsHeap, PoolStep;
    run := [pool.Snap()];
    for i := 0 to |ops|
      invariant pool.Valid() && PoolRun(pool.sha, pool.clock, run)
      invariant |run| == i + 1 && run[0] == old(pool.Snap()) && run[i] == pool.Snap()
    {
      Operate(pool, ops[i]);
      run := run + [pool.Snap()];
    }
  }

  // ---------- when a transaction expires ----------

  ghost predicate Held(sha: Sha, s: Snapshot, h: Hash) {
    exists x :: x in s.items && TransactionHash(sha, x.tx) == h
  }

  /** A step that stamps the transaction: it stamps everything, or queues this one. */
  ghost predicate Stamps(sha: Sha, clock: nat -> int, h: Hash, s: Snapshot, t: Snapshot) {
    Held(sha, t, h) && (Restamped(clock, s, t) || !Held(sha, s, h))
  }

  lemma StampedNow(sha: Sha, clock: nat -> int, h: Hash, s: Snapshot, t: Snapshot, x: Item)
    requires PoolStep(clock, s, t) && Stamps(sha, clock, h, s, t) && x in t.items && TransactionHash(sha, x.tx) == h
    ensures StampedIn(clock, x, s.reading, t.reading)
  {
    hide TransactionHash;
    if !Restamped(clock, s, t) {
      assert x !in s.items;
      var item :| t == OneMore(s, item) && item.addTime == clock(s.reading);
      assert x == item;
    }
  }

  /** No other step touches its item. */
  lemma LeftAlone(sha: Sha, clock: nat -> int, h: Hash, s: Snapshot, t: Snapshot, x: Item)
    requires PoolStep(clock, s, t) && !Stamps(sha, clock, h, s, t) && Unique(sha, t.items)
    requires x in t.items && TransactionHash(sha, x.tx) == h
    ensures x in s.items
  {
    hide TransactionHash;
    assert Held(sha, t, h);
    if t.items != s.items {
      var item :| t == OneMore(s, item) && item.addTime == clock(s.reading);
      var y :| y in s.items && TransactionHash(sha, y.tx) == h;
      assert y in t.items && t.items[y] == 1;
      assert x == y;
    }
  }

  /** A held item was stamped in the last step that stamps it. */
  lemma {:induction false} LastStampLasts(
      sha: Sha, clock: nat -> int, run: seq<Snapshot>, h: Hash, m: nat, j: nat, x: Item)
    requires PoolRun(sha, clock, run) && m < j < |run| && Stamps(sha, clock, h, run[m], run[m + 1])
    requires forall k :: m < k < j ==> !Stamps(sha, clock, h, run[k], run[k + 1])
    requires x in run[j].items && TransactionHash(sha, x.tx) == h
    ensures StampedIn(clock, x, run[m].reading, run[m + 1].reading)
    decreases j
  {
    hide TransactionHash, PoolStep, Stamps, StampedIn, Unique;
    if j == m + 1 {
      StampedNow(sha, clock, h, run[m], run[j], x);
    } else {
      LeftAlone(sha, clock, h, run[j - 1], run[j], x);
      LastStampLasts(sha, clock, run, h, m, j - 1, x);
    }
  }

  /** A transaction that came into the pool during a run was stamped by a last step. */
  lemma {:induction false} LastStamp(sha: Sha, clock: nat -> int, run: seq<Snapshot>, h: Hash, j: nat) returns (m: nat)
    requires PoolRun(sha, clock, run) && j < |run| && !Held(sha, run[0], h) && Held(sha, run[j], h)
    ensures m < j && Stamps(sha, clock, h, run[m], run[m + 1])
    ensures forall k :: m < k < j ==> !Stamps(sha, clock, h, run[k], run[k + 1])
    decreases j
  {
    hide PoolStep, Held, Restamped, Unique;
    if Stamps(sha, clock, h, run[j - 1], run[j]) {
      m := j - 1;
    } else {
      m := LastStamp(sha, clock, run, h, j - 1);
    }
  }

  /** When a transaction expires: over any run of pool operations, on a clock that does not go back, a
      clean-up keeps it while it comes within the lifetime of the start of the last step that stamped it,
      and removes it once it comes later than that after that step's last reading. */
  lemma ExpiresAfterLastStamp(
      sha: Sha, clock: nat -> int, lifetime: int, run: seq<Snapshot>, h: Hash, m: nat, j: nat)
    requires PoolRun(sha, clock, run) && Monotone(clock) && m < j < |run| && Held(sha, run[j], h)
    requires Stamps(sha, clock, h, run[m], run[m + 1])
    requires forall k :: m < k < j ==> !Stamps(sha, clock, h, run[k], run[k + 1])
    ensures var expired := Expired(sha, run[j].items, clock(run[j].reading), lifetime);
            && run[m].reading < run[m + 1].reading
            && (clock(run[j].reading) - clock(run[m].reading) <= lifetime ==> h !in expired)
            && (clock(run[j].reading) - clock(run[m + 1].reading - 1) > lifetime ==> h in expired)
  {
    hide TransactionHash, Stamps, PoolStep, Unique;
    forall x | x in run[j].items && TransactionHash(sha, x.tx) == h
      ensures run[m].reading < run[m + 1].reading
      ensures clock(run[m].reading) <= x.addTime <= clock(run[m + 1].reading - 1)
    {
      LastStampLasts(sha, clock, run, h, m, j, x);
      var i: nat :| run[m].reading <= i < run[m + 1].reading && x.addTime == clock(i);
    }
  }

  // ---------- at an input ----------

  /** In each round a clean-up comes within the lifetime of the removal before it. */
  ghost predicate Prompt(clock: nat -> int, lifetime: int, round: nat) {
    clock(3 * round + 3) - clock(3 * round + 2) <= lifetime
  }

  /** A running pool for two that holds this transaction alone, stamped with the first reading. */
  method HoldingOne(sha: Sha, lifetime: int, clock: nat -> int, tx: Transaction) returns (pool: TransactionPool)
    requires Acceptable(tx)
    ensures fresh(pool) && pool.Valid() && pool.isRunning && pool.sha == sha && pool.maxTxs == 2
    ensures pool.clock == clock && pool.maxLifetime == lifetime
    ensures pool.transactions == map[TransactionHash(sha, tx) := tx]
    ensures pool.Snap() == Snapshot(multiset{Item(tx, tx.gasPrice, clock(0))}, 1)
  {
    hide Holds, IsHeap, Restamped, TransactionHash, Acceptable, StaysBehind, WithoutLast;
    pool := new TransactionPool(sha, 2, lifetime, clock);
    var _ := pool.Start();
    var outcome := pool.AddTransaction(tx);
  }

  /** Another transaction comes and goes. */
  method ComeAndGo(pool: TransactionPool, other: Transaction) returns (ghost between: Snapshot)
    requires pool.Valid() && pool.isRunning && |pool.transactions| == 1 && pool.maxTxs == 2 && Acceptable(other)
    requires TransactionHash(pool.sha, other) !in pool.transactions
    modifies pool`transactions, pool`pending, pool`reading
    ensures pool.Valid() && pool.transactions == old(pool.transactions) && pool.reading == old(pool.reading) + 2
    ensures between.reading == old(pool.reading) + 1 && Restamped(pool.clock, between, pool.Snap())
  {
    hide Holds, IsHeap, Restamped, TransactionHash, Acceptable, StaysBehind, WithoutLast;
    ghost var hash := TransactionHash(pool.sha, other);
    AddedSize(pool.transactions, hash, other);
    GoneAgain(pool.transactions, hash, other);
    var outcome := pool.AddTransaction(other);
    between := pool.Snap();
    var ok := pool.RemoveTransaction(TransactionHash(pool.sha, other));
  }

  lemma GoneAgain(txs: Txs, h: Hash, tx: Transaction)
    requires h !in txs
    ensures txs[h := tx] - {h} == txs
  {}

  /** One round: another transaction comes and goes, and a clean-up passes. */
  method Round(pool: TransactionPool, other: Transaction)
    requires pool.Valid() && pool.isRunning && |pool.transactions| == 1 && pool.maxTxs == 2 && Acceptable(other)
    requires TransactionHash(pool.sha, other) !in pool.transactions
    requires pool.clock(pool.reading + 2) - pool.clock(pool.reading + 1) <= pool.maxLifetime
    modifies pool`transactions, pool`pending, pool`reading
    ensures pool.Valid() && pool.transactions == old(pool.transactions) && pool.reading == old(pool.reading) + 3
  {
    hide Holds, IsHeap, Restamped, Expired, TransactionHash, Acceptable, AfterRemovals;
    ghost var between := ComeAndGo(pool, other);
    ghost var start := Snapshot(multiset(pool.pending), pool.reading + 1);
    NothingExpired(pool.sha, pool.clock, pool.maxLifetime, between, pool.Snap());
    pool.CleanupExpiredTransactions();
    NothingRemoved(pool.clock, start, pool.Snap(), |pool.transactions|);
  }

  lemma NothingRemoved(clock: nat -> int, s: Snapshot, t: Snapshot, n: nat)
    requires AfterRemovals(clock, s, t, n, n)
    ensures t == s
  {}

  /** Removals that keep coming keep a transaction, however long ago it arrived. */
  method KeptByRemovals(sha: Sha, lifetime: int, clock: nat -> int, kept: Transaction, other: Transaction, rounds: nat)
    returns (pool: TransactionPool)
    requires Acceptable(kept) && Acceptable(other) && TransactionHash(sha, kept) != TransactionHash(sha, other)
    requires forall i: nat :: i < rounds ==> Prompt(clock, lifetime, i)
    ensures fresh(pool) && pool.Valid() && pool.clock == clock && pool.maxLifetime == lifetime
    ensures pool.transactions == map[TransactionHash(sha, kept) := kept] && pool.reading == 3 * rounds + 1
  {
    hide Holds, IsHeap, TransactionHash, Acceptable;
    pool := HoldingOne(sha, lifetime, clock, kept);
    for i := 0 to rounds
      invariant fresh(pool) && pool.Valid() && pool.isRunning && pool.sha == sha && pool.maxTxs == 2
      invariant pool.clock == clock && pool.maxLifetime == lifetime && pool.reading == 3 * i + 1
      invariant pool.transactions == map[TransactionHash(sha, kept) := kept]
    {
      assert Prompt(clock, lifetime, i);
      Round(pool, other);
    }
  }

  /** Right after a rebuild of one item, read promptly, nothing has expired. */
  lemma NothingExpired(sha: Sha, clock: nat -> int, lifetime: int, s: Snapshot, t: Snapshot)
    requires Restamped(clock, s, t) && t.reading == s.reading + 1
    requires clock(t.reading) - clock(s.reading) <= lifetime
    ensures Expired(sha, t.items, clock(t.reading), lifetime) == {}
  {
    hide TransactionHash;
    forall x | x in t.items ensures x.addTime == clock(s.reading) {
      assert StampedIn(clock, x, s.reading, t.reading);
    }
  }

  /** Left alone, it goes at the first clean-up past the lifetime, and stays until then. */
  method LeftToExpire(sha: Sha, lifetime: int, clock: nat -> int, tx: Transaction) returns (pool: TransactionPool)
    requires Acceptable(tx)
    ensures fresh(pool) && pool.Valid()
    ensures pool.transactions == if clock(1) - clock(0) > lifetime then map[] else map[TransactionHash(sha, tx) := tx]
  {
    hide Holds, IsHeap, TransactionHash, Acceptable, Expired, AfterRemovals;
    pool := HoldingOne(sha, lifetime, clock, tx);
    OneItemExpires(sha, Item(tx, tx.gasPrice, clock(0)), clock(1), lifetime);
    pool.CleanupExpiredTransactions();
  }

  lemma OneItemExpires(sha: Sha, x: Item, now: int, lifetime: int)
    ensures Expired(sha, multiset{x}, now, lifetime)
            == if now - x.addTime > lifetime then {TransactionHash(sha, x.tx)} else {}
  {
    hide TransactionHash;
    if now - x.addTime > lifetime { assert x in multiset{x}; }
  }
}
