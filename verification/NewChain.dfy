/** What a new chain starts with, and what every block built on it says. */
module NewChain {
  import opened Encoding
  import opened Types
  import opened Storage
  import opened HashChain
  import opened Execution
  import opened ChainIndex
  import C = Conservation
  import S = Schedule
  import SlotClock

  // ---------- block 0 ----------

  /** Block 0 as the genesis configuration and the initial state determine it. */
  ghost predicate IsFirst(sha: Sha, genesis: Genesis, stateRoot: Hash, b: Block) {
    var h := b.header;
    && h.number == 0 && h.timestamp == genesis.timestamp && h.prevHash == Zeros(32) && h.txRoot == sha([])
    && h.stateRoot == stateRoot && h.validator == Zeros(20) && h.signature == Zeros(64) && h.shardID == 1
    && h.adjacentHashes == [Zeros(32), Zeros(32), Zeros(32)] && b.transactions == []
  }

  /** A new chain holds that block, under its height and its digest, and the genesis configuration. */
  lemma NewChainHolds(sha: Sha, genesis: Genesis, stateRoot: Hash)
    ensures var l := CreateNewChain(sha, genesis, stateRoot);
            && IsFirst(sha, genesis, stateRoot, l.tip)
            && l.store.blocks == map[0 := l.tip] && l.store.heights == map[sha(HeaderBytes(l.tip.header)) := 0]
            && l.store.latest == Some(0) && l.store.genesis == Some(genesis) && l.store.txs == map[]
            && l.state == l.store.accounts == InitState(genesis.initAccounts)
  {
    hide HeaderBytes, InitState;
    var s := InitState(genesis.initAccounts);
    assert map[] + s == s;
  }

  /** Every chain a run builds still starts with it. */
  lemma {:induction false} FirstStays(sha: Sha, genesis: Genesis, stateRoot: Hash, events: seq<Event>)
    ensures IsFirst(sha, genesis, stateRoot, ChainOf(sha, CreateNewChain(sha, genesis, stateRoot), events)[0])
    decreases |events|
  {
    hide IsFirst, AddBlock, CreateNewChain;
    NewChainHolds(sha, genesis, stateRoot);
    if events != [] { FirstStays(sha, genesis, stateRoot, events[..|events| - 1]); }
  }

  // ---------- the initial accounts ----------

  /** Position i is the last of the list with its address. */
  ghost predicate LastOf(accounts: seq<Account>, i: nat, a: Address) {
    i < |accounts| && accounts[i].address == a && forall k :: i < k < |accounts| ==> accounts[k].address != a
  }

  /** The initial accounts are the listed ones; of several with one address the last. */
  lemma {:induction false} InitiallyListed(accounts: seq<Account>, a: Address)
    ensures a in InitState(accounts) <==> exists i: nat :: LastOf(accounts, i, a)
    ensures forall i: nat :: LastOf(accounts, i, a) ==>
              a in InitState(accounts) && InitState(accounts)[a] == accounts[i]
  {
    if accounts != [] {
      var n := |accounts| - 1;
      InitiallyListed(accounts[..n], a);
      assert accounts == accounts[..n] + [accounts[n]];
      if accounts[n].address == a {
        assert LastOf(accounts, n, a);
      } else {
        forall i: nat ensures LastOf(accounts, i, a) <==> LastOf(accounts[..n], i, a) {}
      }
    }
  }

  function Listed(accounts: seq<Account>): nat {
    if accounts == [] then 0 else Listed(accounts[..|accounts| - 1]) + accounts[|accounts| - 1].balance
  }

  lemma {:induction false} NotYetListed(accounts: seq<Account>, a: Address)
    requires forall i :: 0 <= i < |accounts| ==> accounts[i].address != a
    ensures a !in InitState(accounts)
  {
    if accounts != [] { NotYetListed(accounts[..|accounts| - 1], a); }
  }

  /** With an address each, the supply is the sum of the listed balances. */
  lemma {:induction false} SupplyIsListed(accounts: seq<Account>)
    requires forall i, j :: 0 <= i < j < |accounts| ==> accounts[i].address != accounts[j].address
    ensures C.Total(InitState(accounts)) == Listed(accounts)
  {
    if accounts != [] {
      var n := |accounts| - 1;
      SupplyIsListed(accounts[..n]);
      NotYetListed(accounts[..n], accounts[n].address);
      C.TotalPut(InitState(accounts[..n]), accounts[n].address, accounts[n]);
      hide C.Total;
    }
  }

  // ---------- the blocks built on it ----------

  /** The world right after createNewChain, its clock set to the configured time. */
  function Opening(sha: Sha, genesis: Genesis, stateRoot: Hash): S.World {
    S.World([CreateNewChain(sha, genesis, stateRoot).tip], [], 0)
  }

  lemma OpeningStarted(site: S.Site, genesis: Genesis, stateRoot: Hash)
    requires site.clock == SlotClock.Clock(genesis.timestamp, 0)
    ensures S.Started(site, Opening(site.sha, genesis, stateRoot))
    ensures IsFirst(site.sha, genesis, stateRoot, Opening(site.sha, genesis, stateRoot).chain[0])
  {
    var b := CreateNewChain(site.sha, genesis, stateRoot).tip;
    NewChainHolds(site.sha, genesis, stateRoot);
    assert b == GenesisBlock(site.sha, genesis.timestamp, stateRoot);
  }

  /** An empty block of this node: its address, a state root, and its signature over the rest. */
  ghost predicate MadeBy(site: S.Site, stateRoot: Hash, b: Block) {
    var h := b.header;
    && b.transactions == [] && h.txRoot == site.sha([]) && h.stateRoot == stateRoot
    && h.validator == site.key.address && h.shardID == 1
    && h.adjacentHashes == [Zeros(32), Zeros(32), Zeros(32)]
    && h.signature == site.key.sign(h.(signature := Zeros(64)))
  }

  ghost predicate AllMade(site: S.Site, stateRoot: Hash, w: S.World) {
    && w.chain != [] && w.chain[0].header.stateRoot == stateRoot
    && (forall i :: 0 < i < |w.chain| ==> MadeBy(site, stateRoot, w.chain[i]))
    && (forall i :: 0 <= i < |w.callbacks| && w.callbacks[i].Built? ==> MadeBy(site, stateRoot, w.callbacks[i].block))
  }

  lemma BuiltIsMade(site: S.Site, tip: Block, time: I64, number: U64, random: (Hash, Hash))
    requires number > 0
    ensures MadeBy(site, tip.header.stateRoot, S.BuildBlock(site.sha, site.key, Some(tip), time, number, random))
  {}

  lemma TipRoot(site: S.Site, stateRoot: Hash, w: S.World)
    requires AllMade(site, stateRoot, w)
    ensures Tip(w.chain).header.stateRoot == stateRoot
  {}

  /** Heights already chosen are above zero. */
  ghost predicate AboveZero(w: S.World) {
    forall i :: 0 <= i < |w.callbacks| && w.callbacks[i].Chosen? ==> w.callbacks[i].number > 0
  }

  lemma StepMakes(site: S.Site, stateRoot: Hash, w: S.World, a: S.Action)
    requires AllMade(site, stateRoot, w) && AboveZero(w) && S.Enabled(w, a)
    requires ValidChain(site.sha, w.chain) && |w.chain| < 0x1_0000_0000_0000_0000
    ensures AllMade(site, stateRoot, S.Step(site, w, a)) && AboveZero(S.Step(site, w, a))
  {
    hide ValidChain, MadeBy, S.BuildBlock, ToI64, Accepts;
    if a.Build? {
      var c := w.callbacks[a.index];
      TipRoot(site, stateRoot, w);
      BuiltIsMade(site, Tip(w.chain), c.time, c.number, a.random);
    }
    if a.Choose? {
      S.ChoiceOnTime(w.chain, w.callbacks[a.index].time, w.callbacks[a.index].number);
      NextIsPositive(site.sha, w.chain);
    }
  }

  lemma NextIsPositive(sha: Sha, chain: seq<Block>)
    requires ValidChain(sha, chain) && |chain| < 0x1_0000_0000_0000_0000
    ensures chain != [] && Wrap(Tip(chain).header.number + 1) > 0
  {
    assert chain != [];
    hide ValidChain, Wrap;
    HeightIsPosition(sha, chain, |chain| - 1);
    WrapSmall(|chain| - 1);
    WrapSmall(|chain|);
  }

  lemma {:induction false} RunMakes(site: S.Site, genesis: Genesis, stateRoot: Hash, actions: seq<S.Action>)
    requires site.clock == SlotClock.Clock(genesis.timestamp, 0)
    requires S.Legal(site, Opening(site.sha, genesis, stateRoot), actions) && |actions| < 0xFFFF_FFFF_FFFF_FFFF
    ensures var w := S.Run(site, Opening(site.sha, genesis, stateRoot), actions);
            && AllMade(site, stateRoot, w) && AboveZero(w) && |w.chain| <= |actions| + 1
    decreases |actions|
  {
    hide S.Step, AllMade, AboveZero, S.Started, S.Enabled, ValidChain, IsFirst;
    var start := Opening(site.sha, genesis, stateRoot);
    OpeningStarted(site, genesis, stateRoot);
    if actions == [] {
      OpeningMade(site, genesis, stateRoot);
    } else {
      var n := |actions| - 1;
      RunMakes(site, genesis, stateRoot, actions[..n]);
      S.FreshRunOnSchedule(site, start, actions[..n]);
      var w := S.Run(site, start, actions[..n]);
      StepMakes(site, stateRoot, w, actions[n]);
      OneBlockAtMost(site, w, actions[n]);
    }
  }

  lemma OpeningMade(site: S.Site, genesis: Genesis, stateRoot: Hash)
    ensures AllMade(site, stateRoot, Opening(site.sha, genesis, stateRoot))
    ensures AboveZero(Opening(site.sha, genesis, stateRoot))
  {
    NewChainHolds(site.sha, genesis, stateRoot);
  }

  lemma OneBlockAtMost(site: S.Site, w: S.World, a: S.Action)
    requires w.chain != [] && S.Enabled(w, a)
    ensures |S.Step(site, w, a).chain| <= |w.chain| + 1
  {
    hide S.BuildBlock, S.ChosenFor, ToI64, Accepts;
  }

  /** Every interleaving of a fresh run: block 0 is the configured one, block n carries the configured
      timestamp plus 2n, and past block 0 every block is an empty one of this node, signed, with the genesis
      state root. */
  lemma FreshRunFromConfiguration(site: S.Site, genesis: Genesis, stateRoot: Hash, actions: seq<S.Action>)
    requires site.clock == SlotClock.Clock(genesis.timestamp, 0)
    requires S.Legal(site, Opening(site.sha, genesis, stateRoot), actions) && |actions| < 0xFFFF_FFFF_FFFF_FFFF
    ensures var w := S.Run(site, Opening(site.sha, genesis, stateRoot), actions);
            && IsFirst(site.sha, genesis, stateRoot, w.chain[0])
            && forall n :: 0 <= n < |w.chain| ==>
                 && w.chain[n].header.number == n
                 && w.chain[n].header.timestamp == ToI64(genesis.timestamp + 2 * n)
                 && (n > 0 ==> MadeBy(site, stateRoot, w.chain[n]))
                 && (n > 0 ==> w.chain[n].header.prevHash == site.sha(HeaderBytes(w.chain[n - 1].header)))
  {
    hide S.Run, S.Legal, IsFirst, MadeBy, ToI64, HeaderBytes, Opening, S.Started;
    var start := Opening(site.sha, genesis, stateRoot);
    OpeningStarted(site, genesis, stateRoot);
    OpeningIs(site.sha, genesis, stateRoot);
    S.FreshRunOnSchedule(site, start, actions);
    RunMakes(site, genesis, stateRoot, actions);
    var w := S.Run(site, start, actions);
    forall n | 0 <= n < |w.chain|
      ensures w.chain[n].header.number == n && w.chain[n].header.timestamp == ToI64(genesis.timestamp + 2 * n)
      ensures n > 0 ==> MadeBy(site, stateRoot, w.chain[n])
      ensures n > 0 ==> w.chain[n].header.prevHash == site.sha(HeaderBytes(w.chain[n - 1].header))
    {
      WrapSmall(n);
      if n > 0 { Linked(site.sha, w.chain, n); }
    }
  }

  lemma OpeningIs(sha: Sha, genesis: Genesis, stateRoot: Hash)
    ensures var start := Opening(sha, genesis, stateRoot);
            |start.chain| == 1 && start.chain[0].header.timestamp == genesis.timestamp
  {
    NewChainHolds(sha, genesis, stateRoot);
  }

  lemma Linked(sha: Sha, c: seq<Block>, n: nat)
    requires ValidChain(sha, c) && 0 < n < |c|
    ensures c[n].header.prevHash == sha(HeaderBytes(c[n - 1].header))
  {
    assert Accepts(sha, c[n - 1], c[n]);
    VerdictOnFields(sha, c[n - 1], c[n]);
  }
}
