/** One gossip node: the seen-cache with its expiry and eviction, and the receive path that consults it. */
module GossipNode {
  type Cache = map<string, int>

  /** The entries not yet expired. */
  function Live(cache: Cache, now: int, expiry: int): Cache {
    map id | id in cache && now - cache[id] <= expiry :: cache[id]
  }

  predicate Knows(cache: Cache, id: string, now: int, expiry: int) {
    id in cache && now - cache[id] <= expiry
  }

  ghost predicate Submap(small: Cache, large: Cache) {
    forall id :: id in small ==> id in large && small[id] == large[id]
  }

  /** One duplicate check: the message, and the clock when the cache is cleaned and when it is written. */
  datatype Check = Check(id: string, cleanedAt: int, storedAt: int)

  /** What a check may do to the cache; `kept` is what eviction left. */
  ghost predicate Checked(cache: Cache, c: Check, expiry: int, max: nat, cache': Cache, duplicate: bool) {
    var live := Live(cache, c.cleanedAt, expiry);
    && duplicate == Knows(cache, c.id, c.cleanedAt, expiry)
    && (duplicate ==> cache' == live)
    && (!duplicate && |live| < max ==> cache' == live[c.id := c.storedAt])
    && (!duplicate && |live| >= max ==>
          exists kept :: Submap(kept, live) && |kept| == max / 2 && cache' == kept[c.id := c.storedAt])
  }

  lemma LiveShrinks(cache: Cache, now: int, expiry: int)
    ensures |Live(cache, now, expiry)| <= |cache|
  {
    SubmapSize(Live(cache, now, expiry), cache);
  }

  lemma SubmapSize(small: Cache, large: Cache)
    requires Submap(small, large)
    ensures |small| <= |large|
  {
    assert small.Keys <= large.Keys;
    KeysCount(small.Keys, large.Keys);
  }

  lemma {:induction false} KeysCount(s: set<string>, t: set<string>)
    requires s <= t
    ensures |s| <= |t|
  {
    if s != {} {
      var x :| x in s;
      KeysCount(s - {x}, t - {x});
    }
  }

  lemma StoredSize(cache: Cache, id: string, now: int)
    ensures |cache[id := now]| <= |cache| + 1
  {
    assert cache[id := now].Keys == cache.Keys + {id};
    assert |cache.Keys + {id}| <= |cache.Keys| + 1;
  }

  /** The cache never outgrows its limit (a limit of zero still holds the last message). */
  lemma CheckKeepsBound(cache: Cache, c: Check, expiry: int, max: nat, cache': Cache, duplicate: bool)
    requires Checked(cache, c, expiry, max, cache', duplicate)
    requires |cache| <= if max == 0 then 1 else max
    ensures |cache'| <= if max == 0 then 1 else max
  {
    var live := Live(cache, c.cleanedAt, expiry);
    LiveShrinks(cache, c.cleanedAt, expiry);
    if !duplicate {
      if |live| < max {
        StoredSize(live, c.id, c.storedAt);
      } else {
        var kept :| Submap(kept, live) && |kept| == max / 2 && cache' == kept[c.id := c.storedAt];
        StoredSize(kept, c.id, c.storedAt);
      }
    }
  }

  // ---------- how long a message is remembered ----------

  /** A run of checks: the cache before each and after the last, and the answers. */
  ghost predicate Trace(caches: seq<Cache>, checks: seq<Check>, answers: seq<bool>, expiry: int, max: nat) {
    && |caches| == |checks| + 1 && |answers| == |checks|
    && forall k :: 0 <= k < |checks| ==> Checked(caches[k], checks[k], expiry, max, caches[k + 1], answers[k])
  }

  /** Check k evicts nothing. */
  ghost predicate HasRoom(caches: seq<Cache>, checks: seq<Check>, expiry: int, max: nat, k: nat)
    requires k < |checks| && k < |caches|
  {
    |Live(caches[k], checks[k].cleanedAt, expiry)| < max
  }

  /** No cleaning up to check j (from i on) finds the entry written by check i expired. */
  ghost predicate Unexpired(checks: seq<Check>, expiry: int, i: nat, j: nat)
    requires i <= j <= |checks|
  {
    forall k :: i < k < j ==> checks[k].cleanedAt - checks[i].storedAt <= expiry
  }

  lemma CheckRemembers(cache: Cache, c: Check, expiry: int, max: nat, cache': Cache, duplicate: bool, id: string,
          at: int)
    requires Checked(cache, c, expiry, max, cache', duplicate)
    requires |Live(cache, c.cleanedAt, expiry)| < max
    requires id in cache && cache[id] == at && c.cleanedAt - at <= expiry
    ensures id in cache' && cache'[id] == at
    ensures c.id == id ==> duplicate
  {}

  /** While nothing is evicted and nothing finds it expired, a handled message stays in the cache with
      the time it was first seen: duplicates do not refresh it. */
  lemma {:induction false} EntryStays(caches: seq<Cache>, checks: seq<Check>, answers: seq<bool>, expiry: int, max: nat,
                                     i: nat, j: nat)
    requires Trace(caches, checks, answers, expiry, max) && i < j <= |checks| && !answers[i]
    requires forall k :: i < k < j ==> HasRoom(caches, checks, expiry, max, k)
    requires Unexpired(checks, expiry, i, j)
    ensures checks[i].id in caches[j] && caches[j][checks[i].id] == checks[i].storedAt
    decreases j
  {
    hide Live;
    if j == i + 1 {
      assert Checked(caches[i], checks[i], expiry, max, caches[j], answers[i]);
    } else {
      EntryStays(caches, checks, answers, expiry, max, i, j - 1);
      assert HasRoom(caches, checks, expiry, max, j - 1);
      CheckRemembers(caches[j - 1], checks[j - 1], expiry, max, caches[j], answers[j - 1], checks[i].id,
        checks[i].storedAt);
    }
  }

  /** Without evictions and with no earlier cleaning finding it expired, a message handled at check i
      is a duplicate at the later check j exactly when its entry has not expired by then. */
  lemma DuplicateIffUnexpired(caches: seq<Cache>, checks: seq<Check>, answers: seq<bool>, expiry: int, max: nat,
                              i: nat, j: nat)
    requires Trace(caches, checks, answers, expiry, max) && i < j < |checks| && !answers[i]
    requires checks[i].id == checks[j].id
    requires forall k :: i < k < j ==> HasRoom(caches, checks, expiry, max, k)
    requires Unexpired(checks, expiry, i, j)
    ensures answers[j] <==> checks[j].cleanedAt - checks[i].storedAt <= expiry
  {
    EntryStays(caches, checks, answers, expiry, max, i, j);
    assert Checked(caches[j], checks[j], expiry, max, caches[j + 1], answers[j]);
  }

  lemma {:induction false} LeaveOut(cache: Cache, id: string, n: nat) returns (kept: Cache)
    requires id in cache && n < |cache|
    ensures Submap(kept, cache) && |kept| == n && id !in kept
    decreases |cache|
  {
    if n + 1 == |cache| {
      kept := cache - {id};
      assert kept.Keys == cache.Keys - {id};
    } else {
      assert |cache.Keys - {id}| > 0;
      var other :| other in cache.Keys - {id};
      var smaller := cache - {other};
      assert smaller.Keys == cache.Keys - {other};
      kept := LeaveOut(smaller, id, n);
    }
  }

  /** A full cache may forget anything it holds: whatever entry one picks, a new message can evict it,
      and its next copy is then handled again, expired or not. */
  lemma FullCacheForgets(cache: Cache, c: Check, id: string, expiry: int, max: nat) returns (cache': Cache)
    requires id in cache && c.id !in cache && |cache| == max
    requires forall k :: k in cache ==> c.cleanedAt - cache[k] <= expiry
    ensures Checked(cache, c, expiry, max, cache', false)
    ensures forall again: Check :: again.id == id ==> !Knows(cache', again.id, again.cleanedAt, expiry)
  {
    var live := Live(cache, c.cleanedAt, expiry);
    assert live == cache;
    assert |cache.Keys - {id}| == max - 1;
    var kept := LeaveOut(cache, id, max / 2);
    cache' := kept[c.id := c.storedAt];
  }

  // ---------- the node ----------

  datatype Peer = Peer(id: string, healthy: bool, connected: bool)

  datatype Message = Message(id: string, origin: string, ttl: int)

  class Network {
    const nodeID: string
    const cacheExpiry: int
    const maxCacheSize: nat
    var messageCache: Cache
    var duplicateMessages: nat
    var peers: map<string, Peer>

    constructor (nodeID: string, cacheExpiry: int, maxCacheSize: nat)
      ensures this.nodeID == nodeID && this.cacheExpiry == cacheExpiry && this.maxCacheSize == maxCacheSize
      ensures messageCache == map[] && duplicateMessages == 0 && peers == map[]
    {
      this.nodeID, this.cacheExpiry, this.maxCacheSize := nodeID, cacheExpiry, maxCacheSize;
      messageCache, duplicateMessages, peers := map[], 0, map[];
    }

    /** cleanExpiredCache. */
    method CleanExpiredCache(now: int)
      modifies this`messageCache
      ensures messageCache == Live(old(messageCache), now, cacheExpiry)
    {
      var before := messageCache;
      var pending := before.Keys;
      while pending != {}
        invariant pending <= before.Keys
        invariant messageCache
                  == map id | id in before && (id in pending || now - before[id] <= cacheExpiry) :: before[id]
      {
        var id :| id in pending;
        pending := pending - {id};
        if now - messageCache[id] > cacheExpiry {
          messageCache := messageCache - {id};
        }
      }
    }

    /** isDuplicateMessage. */
    method IsDuplicateMessage(c: Check) returns (duplicate: bool)
      modifies this`messageCache, this`duplicateMessages
      ensures Checked(old(messageCache), c, cacheExpiry, maxCacheSize, messageCache, duplicate)
      ensures duplicateMessages == old(duplicateMessages) + if duplicate then 1 else 0
    {
      CleanExpiredCache(c.cleanedAt);
      if c.id in messageCache {
        duplicateMessages := duplicateMessages + 1;
        return true;
      }
      ghost var live := messageCache;
      if |messageCache| >= maxCacheSize {
        while messageCache != map[]
          invariant Submap(messageCache, live) && duplicateMessages == old(duplicateMessages)
          invariant |messageCache| > maxCacheSize / 2 || messageCache == live == map[]
          decreases |messageCache|
        {
          var id :| id in messageCache;
          messageCache := messageCache - {id};
          if |messageCache| <= maxCacheSize / 2 {
            break;
          }
        }
        assert Submap(messageCache, live) && |messageCache| == maxCacheSize / 2;
      }
      messageCache := messageCache[c.id := c.storedAt];
      duplicate := false;
    }

    /** sendToPeers: every healthy connected peer. */
    method SendToPeers() returns (targets: set<string>)
      ensures forall key :: key in targets <==> key in peers && peers[key].healthy && peers[key].connected
    {
      targets := {};
      var pending := peers.Keys;
      while pending != {}
        invariant pending <= peers.Keys
        invariant forall key :: key in targets <==>
                    key in peers && key !in pending && peers[key].healthy && peers[key].connected
      {
        var key :| key in pending;
        pending := pending - {key};
        var peer := peers[key];
        if peer.healthy && peer.connected {
          targets := targets + {key};
        }
      }
    }

    /** forwardMessage: the healthy connected peers other than the sender. */
    method ForwardMessage(sender: string) returns (targets: set<string>)
      ensures forall key :: key in targets <==>
                key in peers && peers[key].id != sender && peers[key].healthy && peers[key].connected
    {
      targets := {};
      var pending := peers.Keys;
      while pending != {}
        invariant pending <= peers.Keys
        invariant forall key :: key in targets <==>
                    key in peers && key !in pending
                    && peers[key].id != sender && peers[key].healthy && peers[key].connected
      {
        var key :| key in pending;
        pending := pending - {key};
        var peer := peers[key];
        if peer.id != sender && peer.healthy && peer.connected {
          targets := targets + {key};
        }
      }
    }

    /** The receive path of handleConnection for one decoded message: whether it reaches the handler,
        and the copies passed on. */
    method Receive(m: Message, sender: string, cleanedAt: int, storedAt: int)
      returns (handled: bool, forwarded: Message, targets: set<string>)
      modifies this`messageCache, this`duplicateMessages
      ensures handled == !Knows(old(messageCache), m.id, cleanedAt, cacheExpiry)
      ensures Checked(old(messageCache), Check(m.id, cleanedAt, storedAt), cacheExpiry, maxCacheSize, messageCache,
                      !handled)
      ensures forall key :: key in targets <==>
                handled && m.ttl > 0 && m.origin != nodeID
                && key in peers && peers[key].id != sender && peers[key].healthy && peers[key].connected
      ensures targets != {} ==> forwarded == m.(ttl := m.ttl - 1) && forwarded.ttl >= 0
    {
      forwarded, targets := m, {};
      var duplicate := IsDuplicateMessage(Check(m.id, cleanedAt, storedAt));
      handled := !duplicate;
      if duplicate {
        return;
      }
      if m.ttl > 0 && m.origin != nodeID {
        forwarded := m.(ttl := m.ttl - 1);
        targets := ForwardMessage(sender);
      }
    }
  }
}
