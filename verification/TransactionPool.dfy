/** The transaction pool: a digest-keyed map and a priority heap that must agree. */
module TransactionPool {
  import opened Encoding
  import opened Types
  import opened Storage
  import opened PriorityQueue

  type Txs = map<Hash, Transaction>

  // ---------- agreement of map and queue ----------

  /** The queue's items are transactions of the map, under their gas price. */
  ghost predicate ItemsKnown(sha: Sha, q: multiset<Item>, txs: Txs) {
    forall x :: x in q ==>
      TransactionHash(sha, x.tx) in txs && txs[TransactionHash(sha, x.tx)] == x.tx && x.priority == x.tx.gasPrice
  }

  /** Every transaction of the map is queued. */
  ghost predicate TxsQueued(q: multiset<Item>, txs: Txs) {
    forall h :: h in txs ==> exists x :: x in q && x.tx == txs[h]
  }

  /** No two items, and no two copies of an item, carry the same digest. */
  ghost predicate Unique(sha: Sha, q: multiset<Item>) {
    && (forall x :: x in q ==> q[x] == 1)
    && (forall x, y :: x in q && y in q && TransactionHash(sha, x.tx) == TransactionHash(sha, y.tx) ==> x == y)
  }

  /** Every key is its transaction's digest. */
  ghost predicate KeyedByHash(sha: Sha, txs: Txs) {
    forall h :: h in txs ==> TransactionHash(sha, txs[h]) == h
  }

  /** The queue holds exactly the map's transactions, once each. */
  ghost predicate Holds(sha: Sha, q: multiset<Item>, txs: Txs) {
    ItemsKnown(sha, q, txs) && TxsQueued(q, txs) && Unique(sha, q) && KeyedByHash(sha, txs)
  }

  lemma QueuedAfter(q: multiset<Item>, txs: Txs, h: Hash, x: Item)
    requires TxsQueued(q, txs)
    ensures TxsQueued(q + multiset{x}, txs[h := x.tx])
  {
    var q', txs' := q + multiset{x}, txs[h := x.tx];
    forall g | g in txs' ensures exists y :: y in q' && y.tx == txs'[g] {
      if g == h {
        assert x in q';
      } else {
        var y :| y in q && y.tx == txs[g];
        assert y in q';
      }
    }
  }

  lemma UniqueAfter(sha: Sha, q: multiset<Item>, txs: Txs, x: Item)
    requires Unique(sha, q) && ItemsKnown(sha, q, txs) && TransactionHash(sha, x.tx) !in txs
    ensures Unique(sha, q + multiset{x})
  {
    assert x !in q;
  }

  lemma KnownAfter(sha: Sha, q: multiset<Item>, txs: Txs, x: Item)
    requires ItemsKnown(sha, q, txs) && TransactionHash(sha, x.tx) !in txs && x.priority == x.tx.gasPrice
    ensures ItemsKnown(sha, q + multiset{x}, txs[TransactionHash(sha, x.tx) := x.tx])
  {
    hide TransactionHash;
    forall y | y in q + multiset{x} ensures y in q || y == x {}
  }

  lemma AddItem(sha: Sha, q: multiset<Item>, txs: Txs, x: Item)
    requires Holds(sha, q, txs) && TransactionHash(sha, x.tx) !in txs && x.priority == x.tx.gasPrice
    ensures Holds(sha, q + multiset{x}, txs[TransactionHash(sha, x.tx) := x.tx])
  {
    hide ItemsKnown, TxsQueued, Unique, TransactionHash;
    KnownAfter(sha, q, txs, x);
    QueuedAfter(q, txs, TransactionHash(sha, x.tx), x);
    UniqueAfter(sha, q, txs, x);
  }

  lemma TwoCopies(s: seq<Item>, i: nat, j: nat)
    requires i < j < |s| && s[i] == s[j]
    ensures multiset(s)[s[i]] >= 2
  {
    assert s == s[..j] + s[j..];
    assert s[..j][i] == s[i] && s[j..][0] == s[i];
    assert s[i] in multiset(s[..j]) && s[i] in multiset(s[j..]);
  }

  /** Slots of a queue without duplicates hold distinct digests. */
  lemma DistinctSlots(sha: Sha, s: seq<Item>, i: nat, j: nat)
    requires Unique(sha, multiset(s)) && i < j < |s|
    ensures TransactionHash(sha, s[i].tx) != TransactionHash(sha, s[j].tx)
  {
    assert s[i] in multiset(s) && s[j] in multiset(s);
    if s[i] == s[j] { TwoCopies(s, i, j); }
  }

  lemma SubsetUnique(sha: Sha, p: multiset<Item>, q: multiset<Item>)
    requires Unique(sha, q) && p <= q
    ensures Unique(sha, p)
  {
    forall x | x in p ensures p[x] == 1 {
      assert x in q && p[x] <= q[x];
    }
  }

  // ---------- selection ----------

  function TxsOf(items: seq<Item>): seq<Transaction> {
    seq(|items|, i requires 0 <= i < |items| => items[i].tx)
  }

  /** Never a later item before one that ranks ahead of it. */
  ghost predicate Ranked(items: seq<Item>) {
    forall i, j :: 0 <= i < j < |items| ==> !Less(items[j], items[i])
  }

  ghost predicate NoneAhead(rest: multiset<Item>, items: seq<Item>) {
    forall x, i :: x in rest && 0 <= i < |items| ==> !Less(x, items[i])
  }

  /** A selection in progress: what was taken, in rank order, ahead of everything left. */
  ghost predicate Selecting(all: multiset<Item>, picked: seq<Item>, queue: seq<Item>) {
    && IsHeap(queue, |queue|) && multiset(picked) + multiset(queue) == all
    && Ranked(picked) && NoneAhead(multiset(queue), picked)
  }

  /** What the pool promises between two of its items: a higher gas price is served first, and of equal
      prices the earlier stamp. */
  predicate NotAfter(a: Item, b: Item) {
    a.tx.gasPrice > b.tx.gasPrice || (a.tx.gasPrice == b.tx.gasPrice && a.addTime <= b.addTime)
  }

  /** The first |picked| items of a queue in the order promised, with pairwise different transactions. */
  ghost predicate IsTop(sha: Sha, queue: multiset<Item>, picked: seq<Item>) {
    && multiset(picked) <= queue
    && (forall i, j :: 0 <= i < j < |picked| ==> NotAfter(picked[i], picked[j]))
    && (forall x, i :: x in queue - multiset(picked) && 0 <= i < |picked| ==> NotAfter(picked[i], x))
    && forall i, j :: 0 <= i < j < |picked| ==>
         TransactionHash(sha, picked[i].tx) != TransactionHash(sha, picked[j].tx)
  }

  /** Rank is that order wherever priorities are gas prices. */
  lemma RankIsOrder(a: Item, b: Item)
    requires a.priority == a.tx.gasPrice && b.priority == b.tx.gasPrice
    ensures !Less(b, a) <==> NotAfter(a, b)
  {}

  lemma TopInOrder(sha: Sha, queue: multiset<Item>, txs: Txs, picked: seq<Item>)
    requires Holds(sha, queue, txs) && multiset(picked) <= queue
    requires Ranked(picked) && NoneAhead(queue - multiset(picked), picked)
    ensures IsTop(sha, queue, picked)
  {
    PickedDistinct(sha, queue, txs, picked);
    forall i | 0 <= i < |picked| ensures picked[i] in queue { assert picked[i] in multiset(picked); }
    hide Less, NotAfter, TransactionHash;
    forall i, j | 0 <= i < j < |picked| ensures NotAfter(picked[i], picked[j]) { RankIsOrder(picked[i], picked[j]); }
    forall x, i | x in queue - multiset(picked) && 0 <= i < |picked| ensures NotAfter(picked[i], x) {
      assert x in queue;
      RankIsOrder(picked[i], x);
    }
  }

  lemma RootServedFirst(sha: Sha, q: seq<Item>, txs: Txs)
    requires IsHeap(q, |q|) && q != [] && Holds(sha, multiset(q), txs)
    ensures forall x :: x in multiset(q) ==> NotAfter(q[0], x)
  {
    HeapRootFirst(q);
    hide IsHeap, Less, NotAfter, TransactionHash;
    assert q[0] in multiset(q);
    forall x | x in multiset(q) ensures NotAfter(q[0], x) { RankIsOrder(q[0], x); }
  }

  lemma HeapRootFirst(q: seq<Item>)
    requires IsHeap(q, |q|) && q != []
    ensures forall x :: x in multiset(q) ==> !Less(x, q[0])
  {
    forall x | x in multiset(q) ensures !Less(x, q[0]) {
      var k :| 0 <= k < |q| && q[k] == x;
      RootRanksFirst(q, |q|, k);
    }
  }

  /** Taking a highest-ranked remaining item keeps the selection ranked and complete. */
  lemma PickNext(picked: seq<Item>, rest: multiset<Item>, x: Item)
    requires Ranked(picked) && NoneAhead(rest, picked) && x in rest
    requires forall y :: y in rest ==> !Less(y, x)
    ensures Ranked(picked + [x]) && NoneAhead(rest - multiset{x}, picked + [x])
  {
    forall i, j | 0 <= i < j < |picked + [x]| ensures !Less((picked + [x])[j], (picked + [x])[i]) {}
    forall y, i | y in rest - multiset{x} && 0 <= i < |picked + [x]| ensures !Less(y, (picked + [x])[i]) {
      assert y in rest;
    }
  }

  function Members(hashes: seq<Hash>): set<Hash> { set x | x in hashes }

  lemma MembersNext(hashes: seq<Hash>, i: nat)
    requires i < |hashes|
    ensures Members(hashes[..i + 1]) == Members(hashes[..i]) + {hashes[i]}
  {}

  function Min(a: int, b: int): int { if a <= b then a else b }

  /** The map without the transaction in the queue's last slot. */
  function WithoutLast(sha: Sha, q: seq<Item>, txs: Txs): Txs {
    if q == [] then txs else txs - {TransactionHash(sha, q[|q| - 1].tx)}
  }

  datatype AddOutcome = NotRunning | AlreadyExists | NothingToEvict | Invalid | Accepted

  /** validateTransaction. */
  predicate Acceptable(tx: Transaction) {
    && tx.from != Zeros(20) && tx.to != Zeros(20) && tx.amount != 0 && tx.gasPrice != 0 && tx.gasLimit != 0
    && tx.signature != Zeros(64) && tx.shardID == SHARD_ID
  }

  /** Each check stands alone: whatever the other fields, a transaction is refused exactly for an empty
      address, amount, gas price, gas limit or signature, or for a shard other than 1; nonce and data are free. */
  lemma ChecksStandAlone(tx: Transaction, address: Address, n: U64, signature: Signature, data: Bytes)
    requires Acceptable(tx)
    ensures Acceptable(tx.(from := address)) <==> address != Zeros(20)
    ensures Acceptable(tx.(to := address)) <==> address != Zeros(20)
    ensures Acceptable(tx.(amount := n)) <==> n > 0
    ensures Acceptable(tx.(gasPrice := n)) <==> n > 0
    ensures Acceptable(tx.(gasLimit := n)) <==> n > 0
    ensures Acceptable(tx.(signature := signature)) <==> signature != Zeros(64)
    ensures Acceptable(tx.(shardID := n)) <==> n == 1
    ensures Acceptable(tx.(nonce := n, data := data))
  {}

  /** The digests of items older than the lifetime. */
  ghost function Expired(sha: Sha, q: multiset<Item>, now: int, lifetime: int): set<Hash> {
    set x | x in q && now - x.addTime > lifetime :: TransactionHash(sha, x.tx)
  }

  // ---------- time stamps ----------

  /** The queue's items and how many readings the clock has given. */
  datatype Snapshot = Snapshot(items: multiset<Item>, reading: nat)

  /** Stamped with one of the readings from `from` up to `to`. */
  ghost predicate StampedIn(clock: nat -> int, x: Item, from: nat, to: nat) {
    exists j: nat :: from <= j < to && x.addTime == clock(j)
  }

  /** From s to t every item was stamped anew. */
  ghost predicate Restamped(clock: nat -> int, s: Snapshot, t: Snapshot) {
    s.reading <= t.reading && forall x :: x in t.items ==> StampedIn(clock, x, s.reading, t.reading)
  }

  ghost predicate Monotone(clock: nat -> int) { forall i: nat, j: nat :: i <= j ==> clock(i) <= clock(j) }

  lemma RestampedEarlier(clock: nat -> int, s: Snapshot, t: Snapshot, from: nat)
    requires Restamped(clock, s, t) && from <= s.reading
    ensures Restamped(clock, Snapshot(s.items, from), t)
  {
    forall x | x in t.items ensures StampedIn(clock, x, from, t.reading) {
      assert StampedIn(clock, x, s.reading, t.reading);
    }
  }

  /** The readings of k rebuilds of a pool of n, each after one removal. */
  function Rebuilds(n: nat, k: nat): nat
    requires k <= n
  {
    if k == 0 then 0 else Rebuilds(n, k - 1) + (n - k)
  }

  /** Removals brought a pool from n transactions to m: unless they removed nothing, all that stayed was
      stamped anew, by that many readings. */
  ghost predicate AfterRemovals(clock: nat -> int, s: Snapshot, t: Snapshot, n: nat, m: nat) {
    && m <= n && t.reading == s.reading + Rebuilds(n, n - m)
    && if m == n then t == s else Restamped(clock, s, t)
  }

  class TransactionPool {
    const sha: Sha
    const maxTxs: int
    const maxLifetime: int
    /** The wall clock: the readings it will give, in order, with nothing assumed about them. */
    const clock: nat -> int
    var reading: nat
    var transactions: Txs
    var pending: seq<Item>
    var isRunning: bool

    ghost predicate Valid()
      reads this
    {
      && Holds(sha, multiset(pending), transactions)
      && IsHeap(pending, |pending|) && |pending| == |transactions|
      && (|transactions| <= maxTxs || transactions == map[])
    }

    ghost function Snap(): Snapshot
      reads this
    {
      Snapshot(multiset(pending), reading)
    }

    constructor (sha: Sha, maxTxs: int, maxLifetime: int, clock: nat -> int)
      ensures Valid() && transactions == map[] && pending == [] && !isRunning && reading == 0
      ensures this.sha == sha && this.maxTxs == maxTxs && this.maxLifetime == maxLifetime && this.clock == clock
    {
      this.sha, this.maxTxs, this.maxLifetime, this.clock := sha, maxTxs, maxLifetime, clock;
      reading, transactions, pending, isRunning := 0, map[], [], false;
    }

    method Start() returns (ok: bool)
      modifies this`isRunning
      ensures ok == !old(isRunning) && isRunning
    {
      ok := !isRunning;
      isRunning := true;
    }

    method Stop()
      modifies this`isRunning
      ensures !isRunning
    {
      isRunning := false;
    }

    method Now() returns (t: int)
      modifies this`reading
      ensures t == clock(old(reading)) && reading == old(reading) + 1
    {
      t := clock(reading);
      reading := reading + 1;
    }

    /** rebuildPendingQueue: a new queue from the map, in any order, every item stamped anew. */
    method RebuildPendingQueue()
      requires KeyedByHash(sha, transactions)
      modifies this`pending, this`reading
      ensures Holds(sha, multiset(pending), transactions)
      ensures IsHeap(pending, |pending|) && |pending| == |transactions|
      ensures Restamped(clock, old(Snap()), Snap()) && reading == old(reading) + |transactions|
    {
      hide IsHeap, Holds, KeyedByHash, TransactionHash, Restamped;
      pending := [];
      EmptyQueue(sha);
      ghost var start := Snapshot(multiset(old(pending)), reading);
      NoneStamped(clock, start);
      var left := transactions;
      ghost var done: Txs := map[];
      while left != map[]
        invariant Partition(transactions, left, done)
        invariant Holds(sha, multiset(pending), done) && IsHeap(pending, |pending|) && |pending| == |done|
        invariant reading == old(reading) + |done|
        invariant Restamped(clock, start, Snap())
        decreases |left|
      {
        ghost var before := Snap();
        var h :| h in left;
        var now := Now();
        var item := Item(left[h], left[h].gasPrice, now);
        MoveOne(sha, transactions, left, done, h);
        AddItem(sha, multiset(pending), done, item);
        pending := Push(pending, item);
        OneMoreStamp(clock, start, before, item);
        assert Snap() == Snapshot(before.items + multiset{item}, before.reading + 1);
        left := left - {h};
        done := done[h := transactions[h]];
      }
      AllMoved(transactions, done);
    }

    /** removeTransaction. */
    method RemoveTransaction(hash: Hash) returns (ok: bool)
      requires Valid()
      modifies this`transactions, this`pending, this`reading
      ensures Valid() && transactions == old(transactions) - {hash} && ok == (hash in old(transactions))
      ensures |transactions| == |old(transactions)| - if ok then 1 else 0
      ensures if ok then Restamped(clock, old(Snap()), Snap()) else Snap() == old(Snap())
      ensures reading == old(reading) + if ok then |transactions| else 0
    {
      hide IsHeap, ItemsKnown, TxsQueued, Unique, Restamped;
      RemoveKeeps(sha, transactions, hash);
      if hash !in transactions {
        return false;
      }
      hide KeyedByHash, Holds;
      transactions := transactions - {hash};
      RebuildPendingQueue();
      ok := true;
    }

    method RemoveTransactions(hashes: seq<Hash>)
      requires Valid()
      modifies this`transactions, this`pending, this`reading
      ensures Valid() && transactions == old(transactions) - Members(hashes)
      ensures AfterRemovals(clock, old(Snap()), Snap(), |old(transactions)|, |transactions|)
    {
      hide Holds, IsHeap, Members, Restamped, AfterRemovals;
      NoneRemoved(transactions, hashes);
      NoRemoval(clock, Snap(), |transactions|);
      ghost var all, start := transactions, Snap();
      for i := 0 to |hashes|
        invariant Valid() && transactions == all - Members(hashes[..i])
        invariant AfterRemovals(clock, start, Snap(), |all|, |transactions|)
      {
        ghost var before, size := Snap(), |transactions|;
        RemovedNext(all, hashes, i);
        var ok := RemoveTransaction(hashes[i]);
        if ok { NextRemoval(clock, start, before, Snap(), |all|, size); }
      }
      assert hashes[..|hashes|] == hashes;
    }

    /** evictLowestPriority: the transaction in the last heap slot goes, whatever its rank. With
        two or more in the pool, one that nothing outranks stays. */
    method EvictLowestPriority() returns (ok: bool)
      requires Valid()
      modifies this`transactions, this`pending, this`reading
      ensures Valid() && ok == (old(transactions) != map[])
      ensures ok ==> old(pending) != []
                     && transactions == WithoutLast(sha, old(pending), old(transactions))
                     && |transactions| == |old(transactions)| - 1
      ensures !ok ==> transactions == old(transactions)
      ensures if ok then Restamped(clock, old(Snap()), Snap()) else Snap() == old(Snap())
      ensures ok ==> reading == old(reading) + |transactions|
      ensures |old(transactions)| >= 2 ==>
                old(pending)[0].tx in transactions.Values
                && forall x :: x in multiset(old(pending)) ==> NotAfter(old(pending)[0], x)
    {
      if |pending| == 0 {
        return false;
      }
      hide IsHeap, Restamped, Holds, TransactionHash, NotAfter, WithoutLast;
      ghost var queue, all := pending, transactions;
      RootServedFirst(sha, queue, all);
      LastSlot(sha, queue, all);
      WithoutLastIs(sha, queue, all);
      var lowest := pending[|pending| - 1];
      var hash := TransactionHash(sha, lowest.tx);
      ok := RemoveTransaction(hash);
      assert transactions == all - {hash};
    }

    /** The last part of AddTransaction: a transaction not yet in a pool with room is stamped and queued. */
    method Enqueue(tx: Transaction)
      requires Valid() && TransactionHash(sha, tx) !in transactions && |transactions| < maxTxs
      modifies this`transactions, this`pending, this`reading
      ensures Valid() && transactions == old(transactions)[TransactionHash(sha, tx) := tx]
      ensures var item := Item(tx, tx.gasPrice, clock(old(reading)));
              && Snap() == Snapshot(multiset(old(pending)) + multiset{item}, old(reading) + 1)
              && (StaysBehind(old(pending), item) ==> pending == old(pending) + [item])
    {
      hide Holds, IsHeap, TransactionHash, StaysBehind;
      var now := Now();
      var item := Item(tx, tx.gasPrice, now);
      AddItem(sha, multiset(pending), transactions, item);
      AddedSize(transactions, TransactionHash(sha, tx), tx);
      transactions := transactions[TransactionHash(sha, tx) := tx];
      pending := Push(pending, item);
    }

    /** AddTransaction. A full pool evicts before the newcomer is even checked. */
    method AddTransaction(tx: Transaction) returns (r: AddOutcome)
      requires Valid()
      modifies this`transactions, this`pending, this`reading
      ensures Valid()
      ensures r == if !isRunning then NotRunning
                   else if TransactionHash(sha, tx) in old(transactions) then AlreadyExists
                   else if |old(transactions)| >= maxTxs && old(transactions) == map[] then NothingToEvict
                   else if !Acceptable(tx) then Invalid else Accepted
      ensures var room := if (r.Invalid? || r.Accepted?) && |old(transactions)| >= maxTxs
                          then WithoutLast(sha, old(pending), old(transactions))
                          else old(transactions);
              transactions == if r.Accepted? then room[TransactionHash(sha, tx) := tx] else room
      ensures r.Accepted? && |old(transactions)| < maxTxs ==>
                var item := Item(tx, tx.gasPrice, clock(old(reading)));
                && Snap() == Snapshot(multiset(old(pending)) + multiset{item}, old(reading) + 1)
                && (StaysBehind(old(pending), item) ==> pending == old(pending) + [item])
      ensures (r.Accepted? || r.Invalid?) && |old(transactions)| >= maxTxs ==>
                && Restamped(clock, old(Snap()), Snap())
                && reading == old(reading) + |old(transactions)| - if r.Accepted? then 0 else 1
      ensures !r.Accepted? && (r.Invalid? ==> |old(transactions)| < maxTxs) ==> Snap() == old(Snap())
    {
      hide Holds, IsHeap, Restamped, TransactionHash, Acceptable, StaysBehind;
      if !isRunning {
        return NotRunning;
      }
      var hash := TransactionHash(sha, tx);
      if hash in transactions {
        return AlreadyExists;
      }
      if |transactions| >= maxTxs {
        var ok := EvictLowestPriority();
        if !ok {
          return NothingToEvict;
        }
      }
      if !Acceptable(tx) {
        return Invalid;
      }
      ghost var before := Snap();
      Enqueue(tx);
      if |old(transactions)| >= maxTxs {
        OneMoreStamp(clock, old(Snap()), before, Item(tx, tx.gasPrice, clock(before.reading)));
      }
      r := Accepted;
    }

    /** GetPendingTransactions: the top of the queue, popped off a copy. */
    method GetPendingTransactions(maxCount: int) returns (r: Option<seq<Transaction>>)
      requires Valid()
      ensures r.Some? <==> isRunning
      ensures r.Some? ==>
                |r.value| == Min(|transactions|, if maxCount < 0 then 0 else maxCount)
                && exists picked :: IsTop(sha, multiset(pending), picked) && r.value == TxsOf(picked)
    {
      hide Holds, IsHeap, Ranked, NoneAhead, TxsOf, Selecting, TransactionHash, IsTop;
      if !isRunning {
        return None;
      }
      ghost var picked: seq<Item> := [];
      NoTxs();
      var selected: seq<Transaction> := [];
      var tempQueue := pending;
      NothingPicked(tempQueue);
      while |tempQueue| > 0 && |selected| < maxCount
        invariant Selecting(multiset(pending), picked, tempQueue)
        invariant selected == TxsOf(picked) && |selected| == |picked| <= (if maxCount < 0 then 0 else maxCount)
        invariant |picked| + |tempQueue| == |pending|
        decreases |tempQueue|
      {
        SelectingHeap(multiset(pending), picked, tempQueue);
        var item, rest := Pop(tempQueue);
        PopNext(multiset(pending), picked, tempQueue, rest, item);
        TxsOfNext(picked, item);
        tempQueue := rest;
        selected := selected + [item.tx];
        picked := picked + [item];
      }
      Remainder(multiset(pending), picked, tempQueue);
      TopInOrder(sha, multiset(pending), transactions, picked);
      r := Some(selected);
    }

    /** cleanupExpiredTransactions: collect, then remove one by one. */
    method CleanupExpiredTransactions()
      requires Valid()
      modifies this`transactions, this`pending, this`reading
      ensures Valid()
      ensures transactions == old(transactions) - Expired(sha, multiset(old(pending)), old(clock(reading)), maxLifetime)
      ensures var start := Snapshot(multiset(old(pending)), old(reading) + 1);
              AfterRemovals(clock, start, Snap(), |old(transactions)|, |transactions|)
    {
      hide IsHeap, Holds, Expired, Members, AfterRemovals;
      ghost var all, start := transactions, Snapshot(multiset(pending), reading + 1);
      var now := Now();
      ghost var expired := Expired(sha, multiset(pending), now, maxLifetime);
      var expiredHashes: seq<Hash> := [];
      var left := transactions.Keys;
      while left != {}
        modifies {}
        invariant left <= all.Keys
        invariant forall h :: h in expiredHashes <==> h in all && h !in left && h in expired
      {
        var hash :| hash in left;
        var found := HasExpired(hash, now);
        if found {
          expiredHashes := expiredHashes + [hash];
        }
        left := left - {hash};
      }
      RemoveCollected(all, expiredHashes, expired);
      assert Snap() == start;
      RemoveTransactions(expiredHashes);
    }

    /** The inner scan of the queue for one digest. */
    method HasExpired(hash: Hash, now: int) returns (expired: bool)
      ensures expired == (hash in Expired(sha, multiset(pending), now, maxLifetime))
    {
      for i := 0 to |pending|
        invariant forall k :: 0 <= k < i ==>
                    !(TransactionHash(sha, pending[k].tx) == hash && now - pending[k].addTime > maxLifetime)
      {
        if TransactionHash(sha, pending[i].tx) == hash && now - pending[i].addTime > maxLifetime {
          assert pending[i] in multiset(pending);
          return true;
        }
      }
      forall x | x in multiset(pending) ensures !(TransactionHash(sha, x.tx) == hash && now - x.addTime > maxLifetime) {
        var k :| 0 <= k < |pending| && pending[k] == x;
      }
      expired := false;
    }

    method Clear()
      modifies this`transactions, this`pending
      ensures Valid() && transactions == map[] && pending == []
    {
      transactions, pending := map[], [];
    }
  }

  lemma NoRemoval(clock: nat -> int, s: Snapshot, n: nat)
    ensures AfterRemovals(clock, s, s, n, n)
  {}

  lemma NextRemoval(clock: nat -> int, s: Snapshot, t: Snapshot, u: Snapshot, n: nat, m: nat)
    requires AfterRemovals(clock, s, t, n, m) && m > 0
    requires Restamped(clock, t, u) && u.reading == t.reading + (m - 1)
    ensures AfterRemovals(clock, s, u, n, m - 1)
  {
    hide Restamped;
    LaterRestamp(clock, s, t, u);
  }

  lemma LaterRestamp(clock: nat -> int, s: Snapshot, t: Snapshot, u: Snapshot)
    requires s.reading <= t.reading && Restamped(clock, t, u)
    ensures Restamped(clock, s, u) && u.reading >= s.reading
  {
    RestampedEarlier(clock, t, u, s.reading);
  }

  lemma NoneStamped(clock: nat -> int, s: Snapshot)
    ensures Restamped(clock, s, Snapshot(multiset([]), s.reading))
  {}

  lemma OneMoreStamp(clock: nat -> int, s: Snapshot, t: Snapshot, item: Item)
    requires Restamped(clock, s, t) && item.addTime == clock(t.reading)
    ensures Restamped(clock, s, Snapshot(t.items + multiset{item}, t.reading + 1))
  {
    forall x | x in t.items + multiset{item} ensures StampedIn(clock, x, s.reading, t.reading + 1) {
      if x in t.items { assert StampedIn(clock, x, s.reading, t.reading); }
    }
  }

  lemma EmptyQueue(sha: Sha)
    ensures IsHeap([], 0) && Holds(sha, multiset([]), map[])
  {}

  lemma NoTxs()
    ensures TxsOf([]) == []
  {}

  lemma TxsOfNext(items: seq<Item>, item: Item)
    ensures TxsOf(items + [item]) == TxsOf(items) + [item.tx]
  {}

  lemma NothingPicked(queue: seq<Item>)
    requires IsHeap(queue, |queue|)
    ensures Selecting(multiset(queue), [], queue)
  {}

  lemma SelectingHeap(all: multiset<Item>, picked: seq<Item>, queue: seq<Item>)
    requires Selecting(all, picked, queue)
    ensures IsHeap(queue, |queue|)
  {}

  lemma PopNext(all: multiset<Item>, picked: seq<Item>, queue: seq<Item>, rest: seq<Item>, item: Item)
    requires Selecting(all, picked, queue) && queue != [] && item == queue[0]
    requires multiset(queue) == multiset(rest) + multiset{item} && IsHeap(rest, |rest|)
    ensures Selecting(all, picked + [item], rest)
  {
    hide IsHeap, Ranked, NoneAhead;
    HeapRootFirst(queue);
    assert item in multiset(queue);
    PickNext(picked, multiset(queue), item);
    assert multiset(queue) - multiset{item} == multiset(rest);
    assert multiset(picked + [item]) == multiset(picked) + multiset{item};
  }

  lemma Remainder(all: multiset<Item>, picked: seq<Item>, queue: seq<Item>)
    requires Selecting(all, picked, queue)
    ensures multiset(picked) <= all && Ranked(picked) && NoneAhead(all - multiset(picked), picked)
  {
    hide IsHeap, Ranked, NoneAhead;
    assert all - multiset(picked) == multiset(queue);
  }

  lemma NoneRemoved(txs: Txs, hashes: seq<Hash>)
    ensures txs - Members(hashes[..0]) == txs
  {}

  lemma RemovedNext(txs: Txs, hashes: seq<Hash>, i: nat)
    requires i < |hashes|
    ensures txs - Members(hashes[..i]) - {hashes[i]} == txs - Members(hashes[..i + 1])
  {
    MembersNext(hashes, i);
  }

  lemma RemoveCollected(txs: Txs, hashes: seq<Hash>, expired: set<Hash>)
    requires forall h :: h in hashes <==> h in txs && h in expired
    ensures txs - Members(hashes) == txs - expired
  {}

  lemma RemoveCount(txs: Txs, h: Hash)
    ensures |txs - {h}| == if h in txs then |txs| - 1 else |txs|
  {
    assert (txs - {h}).Keys == txs.Keys - {h};
    assert |txs.Keys| == |txs| && |(txs - {h}).Keys| == |txs - {h}|;
  }

  lemma RemoveKeeps(sha: Sha, txs: Txs, h: Hash)
    requires KeyedByHash(sha, txs)
    ensures KeyedByHash(sha, txs - {h})
    ensures |txs - {h}| == |txs| - if h in txs then 1 else 0
    ensures h !in txs ==> txs - {h} == txs
  {
    RemoveCount(txs, h);
  }

  lemma WithoutLastIs(sha: Sha, q: seq<Item>, txs: Txs)
    requires q != []
    ensures WithoutLast(sha, q, txs) == txs - {TransactionHash(sha, q[|q| - 1].tx)}
  {}

  /** The last slot's transaction is in the map, and with two or more slots it is not the root's. */
  lemma LastSlot(sha: Sha, q: seq<Item>, txs: Txs)
    requires Holds(sha, multiset(q), txs) && q != []
    ensures var h := TransactionHash(sha, q[|q| - 1].tx);
            h in txs && (|q| >= 2 ==> q[0].tx in (txs - {h}).Values)
  {
    var last, root := q[|q| - 1], q[0];
    assert last in multiset(q) && root in multiset(q);
    if |q| >= 2 {
      DistinctSlots(sha, q, 0, |q| - 1);
      assert TransactionHash(sha, root.tx) in txs - {TransactionHash(sha, last.tx)};
    }
  }

  /** A map split into what is still to move and what has moved. */
  ghost predicate Partition(all: Txs, left: Txs, done: Txs) {
    && left.Keys <= all.Keys && (forall h :: h in left ==> left[h] == all[h])
    && done == all - left.Keys && |done| + |left| == |all|
  }

  lemma MoveOne(sha: Sha, all: Txs, left: Txs, done: Txs, h: Hash)
    requires Partition(all, left, done) && h in left && KeyedByHash(sha, all)
    ensures Partition(all, left - {h}, done[h := all[h]])
    ensures |left - {h}| == |left| - 1 && h !in done && left[h] == all[h] && TransactionHash(sha, all[h]) == h
    ensures |done[h := all[h]]| == |done| + 1
  {
    hide TransactionHash;
    RemoveCount(left, h);
    AddedSize(done, h, all[h]);
    assert all - (left - {h}).Keys == done[h := all[h]];
  }

  lemma AllMoved(all: Txs, done: Txs)
    requires Partition(all, map[], done)
    ensures done == all
  {}

  lemma PickedDistinct(sha: Sha, q: multiset<Item>, txs: Txs, picked: seq<Item>)
    requires Holds(sha, q, txs) && multiset(picked) <= q
    ensures forall i, j :: 0 <= i < j < |picked| ==>
              TransactionHash(sha, picked[i].tx) != TransactionHash(sha, picked[j].tx)
  {
    SubsetUnique(sha, multiset(picked), q);
    forall i, j | 0 <= i < j < |picked|
      ensures TransactionHash(sha, picked[i].tx) != TransactionHash(sha, picked[j].tx)
    {
      DistinctSlots(sha, picked, i, j);
    }
  }

  // ---------- the last slot is not the lowest ----------

  /** In every pool of n transactions the last slot has a lowest gas price. */
  ghost predicate LastSlotIsLowest(sha: Sha, n: nat) {
    forall q: seq<Item>, txs: Txs, k: nat ::
      |q| == n && IsHeap(q, n) && Holds(sha, multiset(q), txs) && k < n ==> q[n - 1].priority <= q[k].priority
  }

  /** Acceptable transactions of every price, told apart by the length of their data. */
  function PricedTx(price: U64, i: nat): (tx: Transaction)
    ensures price > 0 ==> Acceptable(tx)
  {
    var one: Bytes := [1];
    assert (one + Zeros(19))[0] == 1 == (one + Zeros(63))[0] && Zeros(20)[0] == 0 == Zeros(64)[0];
    Transaction(SHARD_ID, one + Zeros(19), one + Zeros(19), 1, price, 1, 1, Zeros(i), one + Zeros(63))
  }

  /** n items of price 2 but for a cheaper one in the last slot but one, stamped by successive readings. */
  function Unlucky(n: nat, clock: nat -> int): (q: seq<Item>)
    requires n >= 2
    ensures |q| == n
    ensures forall i :: 0 <= i < n ==> q[i] == Item(PricedTx(UnluckyPrice(n, i), i), UnluckyPrice(n, i), clock(i))
  {
    seq(n, i requires 0 <= i < n => Item(PricedTx(UnluckyPrice(n, i), i), UnluckyPrice(n, i), clock(i)))
  }

  function UnluckyPrice(n: nat, i: nat): U64 { if i + 2 == n then 1 else 2 }

  function Digest(sha: Sha, item: Item): Hash { TransactionHash(sha, item.tx) }

  /** The digests of these items' transactions are pairwise different. */
  ghost predicate DistinctDigests(sha: Sha, q: seq<Item>) {
    forall i, j :: 0 <= i < j < |q| ==> Digest(sha, q[i]) != Digest(sha, q[j])
  }

  /** Two of these items' transactions have different digest inputs and one digest. */
  ghost predicate Collision(sha: Sha, q: seq<Item>) {
    exists i, j :: 0 <= i < j < |q| && TransactionBytes(q[i].tx) != TransactionBytes(q[j].tx)
      && Digest(sha, q[i]) == Digest(sha, q[j])
  }

  lemma UnluckyDistinct(sha: Sha, n: nat, clock: nat -> int)
    requires n >= 2
    ensures DistinctDigests(sha, Unlucky(n, clock)) || Collision(sha, Unlucky(n, clock))
  {
    var q := Unlucky(n, clock);
    if i, j :| 0 <= i < j < n && Digest(sha, q[i]) == Digest(sha, q[j]) {
      assert |q[i].tx.data| == i && |q[j].tx.data| == j;
      TransactionBytesInjective(q[i].tx, q[j].tx);
      hide TransactionBytes;
    }
  }

  lemma UnluckyHeap(n: nat, clock: nat -> int)
    requires n > 2 && Monotone(clock)
    ensures IsHeap(Unlucky(n, clock), n)
  {
    var q := Unlucky(n, clock);
    forall k: nat | 0 < k < n ensures Under(q, k) {
      assert Parent(k) <= (n - 2) / 2 < n - 2;
      assert q[Parent(k)].priority == 2;
    }
  }

  /** The map of a list of items. */
  function MapOf(sha: Sha, q: seq<Item>): Txs {
    if q == [] then map[] else MapOf(sha, q[..|q| - 1])[Digest(sha, q[|q| - 1]) := q[|q| - 1].tx]
  }

  lemma {:induction false} MapOfKeys(sha: Sha, q: seq<Item>, h: Hash)
    requires h in MapOf(sha, q)
    ensures exists i :: 0 <= i < |q| && Digest(sha, q[i]) == h
  {
    var n := |q| - 1;
    if h == Digest(sha, q[n]) {
    } else {
      MapOfKeys(sha, q[..n], h);
      var i :| 0 <= i < n && Digest(sha, q[..n][i]) == h;
      assert q[i] == q[..n][i];
    }
  }

  lemma {:induction false} MapOfHolds(sha: Sha, q: seq<Item>)
    requires DistinctDigests(sha, q) && forall i :: 0 <= i < |q| ==> q[i].priority == q[i].tx.gasPrice
    ensures Holds(sha, multiset(q), MapOf(sha, q))
  {
    if q == [] {
      EmptyQueue(sha);
    } else {
      var n := |q| - 1;
      hide Holds, TransactionHash;
      assert q == q[..n] + [q[n]];
      MapOfHolds(sha, q[..n]);
      if Digest(sha, q[n]) in MapOf(sha, q[..n]) { MapOfKeys(sha, q[..n], Digest(sha, q[n])); }
      AddItem(sha, multiset(q[..n]), MapOf(sha, q[..n]), q[n]);
    }
  }

  lemma UpToTwo(sha: Sha, n: nat)
    requires n <= 2
    ensures LastSlotIsLowest(sha, n)
  {
    hide Holds;
    forall q: seq<Item>, txs: Txs, k: nat
      | |q| == n && IsHeap(q, n) && Holds(sha, multiset(q), txs) && k < n
      ensures q[n - 1].priority <= q[k].priority
    {
      if n == 2 { assert Under(q, 1); }
    }
  }

  lemma FromThree(sha: Sha, n: nat)
    requires n > 2 && DistinctDigests(sha, Unlucky(n, i => 0))
    ensures !LastSlotIsLowest(sha, n)
  {
    hide Holds, IsHeap, DistinctDigests;
    var q := Unlucky(n, i => 0);
    UnluckyHeap(n, i => 0);
    MapOfHolds(sha, q);
    assert q[n - 1].priority > q[n - 2].priority;
  }

  /** Evicting the last slot is evicting a lowest-priced transaction in every pool of up to two, and for
      no larger size, or else here are two transactions that collide. */
  lemma EvictsLowestUpToTwo(sha: Sha, n: nat)
    ensures n <= 2 ==> LastSlotIsLowest(sha, n)
    ensures n > 2 ==> !LastSlotIsLowest(sha, n) || Collision(sha, Unlucky(n, i => 0))
  {
    hide LastSlotIsLowest, DistinctDigests, Collision, Unlucky;
    if n <= 2 {
      UpToTwo(sha, n);
    } else if DistinctDigests(sha, Unlucky(n, i => 0)) {
      FromThree(sha, n);
    } else {
      UnluckyDistinct(sha, n, i => 0);
    }
  }

  /** Such a pool is reached by accepted adds alone, on any clock that does not go back. */
  method FillUnluckily(sha: Sha, n: nat, clock: nat -> int) returns (pool: TransactionPool)
    requires n > 2 && Monotone(clock) && DistinctDigests(sha, Unlucky(n, clock))
    ensures fresh(pool) && pool.Valid() && pool.isRunning && pool.sha == sha && pool.maxTxs == n
    ensures pool.pending == Unlucky(n, clock) && |pool.transactions| == n
    ensures pool.transactions == MapOf(sha, Unlucky(n, clock))
  {
    hide Holds, IsHeap, TransactionHash, DistinctDigests, Unlucky, MapOf, StaysBehind, Acceptable, Restamped, Monotone,
      WithoutLast, Zeros;
    EmptyMap(sha);
    ghost var q := Unlucky(n, clock);
    pool := new TransactionPool(sha, n, 0, clock);
    var _ := pool.Start();
    for i := 0 to n
      invariant fresh(pool) && pool.Valid() && pool.isRunning && pool.sha == sha && pool.maxTxs == n
      invariant pool.clock == clock && pool.reading == i
      invariant pool.pending == q[..i] && |pool.transactions| == i && pool.transactions == MapOf(sha, q[..i])
    {
      var tx := PricedTx(UnluckyPrice(n, i), i);
      NotYetIn(sha, q, i);
      RanksBehindParent(n, clock, i);
      assert q[..i + 1] == q[..i] + [q[i]];
      AddedSize(pool.transactions, TransactionHash(sha, tx), tx);
      MapOfNext(sha, q, i);
      var outcome := pool.AddTransaction(tx);
    }
    assert q[..n] == q;
  }

  lemma EmptyMap(sha: Sha)
    ensures MapOf(sha, []) == map[]
  {}

  lemma RanksBehindParent(n: nat, clock: nat -> int, i: nat)
    requires n > 2 && i < n && Monotone(clock)
    ensures StaysBehind(Unlucky(n, clock)[..i], Unlucky(n, clock)[i])
  {
    if i > 0 { assert clock(Parent(i)) <= clock(i); }
  }

  lemma AddedSize(txs: Txs, h: Hash, tx: Transaction)
    requires h !in txs
    ensures |txs[h := tx]| == |txs| + 1
  {
    assert txs[h := tx].Keys == txs.Keys + {h};
  }

  lemma MapOfNext(sha: Sha, q: seq<Item>, i: nat)
    requires i < |q|
    ensures MapOf(sha, q[..i + 1]) == MapOf(sha, q[..i])[Digest(sha, q[i]) := q[i].tx]
  {
    assert q[..i + 1][..i] == q[..i];
  }

  /** Eviction from it takes the dearer transaction of the last slot and keeps the cheaper one beside it. */
  method EvictDearer(sha: Sha, n: nat, clock: nat -> int)
    returns (pool: TransactionPool, dearer: Transaction, cheaper: Transaction)
    requires n > 2 && Monotone(clock) && DistinctDigests(sha, Unlucky(n, clock))
    ensures fresh(pool) && pool.Valid() && pool.isRunning && pool.maxTxs == n && |pool.transactions| == n - 1
    ensures dearer.gasPrice > cheaper.gasPrice && TransactionHash(sha, dearer) !in pool.transactions
    ensures TransactionHash(sha, cheaper) in pool.transactions
  {
    hide Holds, IsHeap, TransactionHash, MapOf, Restamped, Monotone;
    ghost var q := Unlucky(n, clock);
    dearer, cheaper := PricedTx(2, n - 1), PricedTx(1, n - 2);
    assert q[n - 1].tx == dearer && q[n - 2].tx == cheaper;
    assert Digest(sha, q[n - 2]) != Digest(sha, q[n - 1]);
    IsIn(sha, q, n - 2);
    pool := FillUnluckily(sha, n, clock);
    hide Unlucky;
    var ok := pool.EvictLowestPriority();
  }

  lemma NotYetIn(sha: Sha, q: seq<Item>, i: nat)
    requires DistinctDigests(sha, q) && i < |q|
    ensures Digest(sha, q[i]) !in MapOf(sha, q[..i])
  {
    hide MapOf, Digest;
    if Digest(sha, q[i]) in MapOf(sha, q[..i]) { MapOfKeys(sha, q[..i], Digest(sha, q[i])); }
  }

  lemma {:induction false} IsIn(sha: Sha, q: seq<Item>, i: nat)
    requires i < |q|
    ensures Digest(sha, q[i]) in MapOf(sha, q)
  {
    if i < |q| - 1 { IsIn(sha, q[..|q| - 1], i); }
  }
}
