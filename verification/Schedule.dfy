/** Asynchronous slot callbacks racing to append blocks: each callback reads the tip, reads it again,
    and appends, with other callbacks running in between. */
module Schedule {
  import opened Encoding
  import opened Types
  import opened HashChain
  import opened SlotClock
  import opened Storage
  import Execution
  import M = Manager

  /** Where the schedule puts a block: two seconds a height from the genesis timestamp. */
  function SlotTime(genesis: I64, number: U64): I64 { ToI64(genesis + number * BLOCK_SECONDS) }

  /** The node's key: its address and its (deterministic) signing function. */
  datatype Key = Key(address: Address, sign: BlockHeader -> Signature)

  /** onBlockTime up to production: keep the fired slot if it is the next height, else move to the
      next height and recompute its time from block 0. */
  function ChooseSlot(tip: Option<Block>, genesis: Option<Block>, time: I64, number: U64): (I64, U64) {
    if tip.None? then (time, number)
    else
      var next := Wrap(tip.value.header.number + 1);
      if number == next then (time, number)
      else (if genesis.Some? then SlotTime(genesis.value.header.timestamp, next) else time, next)
  }

  /** Without a tip the fired slot is kept; without block 0 its time is. */
  lemma ChoiceWithoutBlocks(tip: Option<Block>, genesis: Option<Block>, time: I64, number: U64)
    ensures tip.None? ==> ChooseSlot(tip, genesis, time, number) == (time, number)
    ensures genesis.None? ==> ChooseSlot(tip, genesis, time, number).0 == time
  {}

  /** What produceEmptyBlock builds; two random hashes stand in where there is no block before. */
  function BuildBlock(sha: Sha, key: Key, tip: Option<Block>, time: I64, number: U64, random: (Hash, Hash)): (b: Block)
    ensures b.header.number == number && b.header.timestamp == time && b.transactions == []
  {
    var links := if number > 0 && tip.Some? then (HeaderHash(sha, tip.value.header), tip.value.header.stateRoot)
                 else random;
    var h := BlockHeader(number, time, links.0, EmptyTxRoot(sha), links.1, key.address, Zeros(64), SHARD_ID,
                         [Zeros(32), Zeros(32), Zeros(32)]);
    Block(h.(signature := key.sign(h)), [])
  }

  // ---------- interleavings ----------

  datatype Callback =
    | Waiting(time: I64, number: U64)
    | Chosen(time: I64, number: U64)
    | Built(block: Block)

  /** `last` is the ticker loop's memory. */
  datatype World = World(chain: seq<Block>, callbacks: seq<Callback>, last: U64)

  datatype Action =
    | Trigger(number: U64)
    | Choose(index: nat)
    | Build(index: nat, random: (Hash, Hash))
    | Append(index: nat)
    | Abandon(index: nat)

  datatype Site = Site(sha: Sha, key: Key, clock: Clock)

  predicate Enabled(w: World, a: Action) {
    match a
    case Trigger(number) => number > w.last
    case Choose(i) => i < |w.callbacks| && w.callbacks[i].Waiting?
    case Build(i, _) => i < |w.callbacks| && w.callbacks[i].Chosen?
    case Append(i) => i < |w.callbacks| && w.callbacks[i].Built?
    case Abandon(i) => i < |w.callbacks|
  }

  function Without(cs: seq<Callback>, i: nat): seq<Callback>
    requires i < |cs|
  {
    cs[..i] + cs[i + 1..]
  }

  function Offered(sha: Sha, chain: seq<Block>, b: Block): seq<Block>
    requires chain != []
  {
    if Accepts(sha, Tip(chain), b) then chain + [b] else chain
  }

  function ChosenFor(chain: seq<Block>, time: I64, number: U64): (I64, U64)
    requires chain != []
  {
    ChooseSlot(Some(Tip(chain)), Some(chain[0]), time, number)
  }

  function Step(site: Site, w: World, a: Action): (t: World)
    requires w.chain != [] && Enabled(w, a)
    ensures t.chain != []
  {
    match a
    case Trigger(n) => w.(callbacks := w.callbacks + [Waiting(ToI64(TimeOf(site.clock, n)), n)], last := n)
    case Choose(i) =>
      var (time, number) := ChosenFor(w.chain, w.callbacks[i].time, w.callbacks[i].number);
      w.(callbacks := w.callbacks[i := Chosen(time, number)])
    case Build(i, random) =>
      var c := w.callbacks[i];
      var b := BuildBlock(site.sha, site.key, Some(Tip(w.chain)), c.time, c.number, random);
      w.(callbacks := w.callbacks[i := Built(b)])
    case Append(i) =>
      w.(chain := Offered(site.sha, w.chain, w.callbacks[i].block), callbacks := Without(w.callbacks, i))
    case Abandon(i) => w.(callbacks := Without(w.callbacks, i))
  }

  ghost predicate Legal(site: Site, start: World, actions: seq<Action>)
    requires start.chain != []
    decreases |actions|, 0
  {
    actions == []
    || (Legal(site, start, actions[..|actions| - 1])
        && Enabled(Run(site, start, actions[..|actions| - 1]), actions[|actions| - 1]))
  }

  ghost function Run(site: Site, start: World, actions: seq<Action>): (w: World)
    requires start.chain != [] && Legal(site, start, actions)
    ensures w.chain != []
    decreases |actions|, 1
  {
    if actions == [] then start else Step(site, Run(site, start, actions[..|actions| - 1]), actions[|actions| - 1])
  }

  // ---------- schedule safety ----------

  ghost predicate BlockOnTime(genesis: I64, b: Block) {
    b.header.timestamp == SlotTime(genesis, b.header.number)
  }

  /** Every block at its height's own time. */
  ghost predicate OnSchedule(chain: seq<Block>)
    requires chain != []
  {
    forall i :: 0 <= i < |chain| ==> BlockOnTime(chain[0].header.timestamp, chain[i])
  }

  ghost predicate CallbackOnTime(genesis: I64, c: Callback) {
    if c.Built? then BlockOnTime(genesis, c.block) else c.time == SlotTime(genesis, c.number)
  }

  ghost predicate CallbacksOnTime(genesis: I64, cs: seq<Callback>) {
    forall i :: 0 <= i < |cs| ==> CallbackOnTime(genesis, cs[i])
  }

  /** Right after createNewChain, or after loading a chain: no callback in flight, the clock set. */
  ghost predicate Started(site: Site, w: World) {
    Loaded(site, w.chain) && w.callbacks == [] && w.last == |w.chain| - 1
  }

  ghost predicate Loaded(site: Site, chain: seq<Block>) {
    && ValidChain(site.sha, chain) && |chain| <= 0x1_0000_0000_0000_0000
    && site.clock == Clock(chain[0].header.timestamp, |chain| - 1)
  }

  /** A callback's choice, whatever slot fired it. */
  lemma ChoiceOnTime(chain: seq<Block>, time: I64, number: U64)
    requires chain != []
    ensures var (t, n) := ChosenFor(chain, time, number);
            && n == Wrap(Tip(chain).header.number + 1)
            && (t == SlotTime(chain[0].header.timestamp, n)
                <==> number != n || time == SlotTime(chain[0].header.timestamp, n))
  {}

  lemma ReplacedOnTime(genesis: I64, cs: seq<Callback>, i: nat, c: Callback)
    requires CallbacksOnTime(genesis, cs) && CallbackOnTime(genesis, c)
    ensures i < |cs| ==> CallbacksOnTime(genesis, cs[i := c]) && CallbacksOnTime(genesis, Without(cs, i))
    ensures CallbacksOnTime(genesis, cs + [c])
  {
    hide CallbackOnTime;
  }

  lemma OfferedOnSchedule(sha: Sha, chain: seq<Block>, b: Block)
    requires ValidChain(sha, chain) && OnSchedule(chain) && BlockOnTime(chain[0].header.timestamp, b)
    ensures var c := Offered(sha, chain, b); ValidChain(sha, c) && OnSchedule(c) && c[0] == chain[0]
  {
    hide BlockOnTime;
    if Accepts(sha, Tip(chain), b) { ValidExtension(sha, chain, b); }
  }

  lemma StepOnSchedule(site: Site, w: World, a: Action)
    requires ValidChain(site.sha, w.chain) && Enabled(w, a)
    requires site.clock == Clock(w.chain[0].header.timestamp, 0)
    requires OnSchedule(w.chain) && CallbacksOnTime(w.chain[0].header.timestamp, w.callbacks)
    ensures var t := Step(site, w, a);
            && ValidChain(site.sha, t.chain) && t.chain[0] == w.chain[0]
            && OnSchedule(t.chain) && CallbacksOnTime(w.chain[0].header.timestamp, t.callbacks)
  {
    var g := w.chain[0].header.timestamp;
    hide ValidChain, OnSchedule, CallbacksOnTime, Accepts, ToI64;
    match a
    case Trigger(n) => ReplacedOnTime(g, w.callbacks, 0, Waiting(ToI64(TimeOf(site.clock, n)), n));
    case Choose(i) =>
      FlightOnTime(g, w.callbacks, i);
      var (t, n) := ChosenFor(w.chain, w.callbacks[i].time, w.callbacks[i].number);
      ChoiceOnTime(w.chain, w.callbacks[i].time, w.callbacks[i].number);
      ReplacedOnTime(g, w.callbacks, i, Chosen(t, n));
    case Build(i, random) =>
      FlightOnTime(g, w.callbacks, i);
      var c := w.callbacks[i];
      ReplacedOnTime(g, w.callbacks, i,
        Built(BuildBlock(site.sha, site.key, Some(Tip(w.chain)), c.time, c.number, random)));
    case Append(i) =>
      FlightOnTime(g, w.callbacks, i);
      ReplacedOnTime(g, w.callbacks, i, w.callbacks[i]);
      OfferedOnSchedule(site.sha, w.chain, w.callbacks[i].block);
    case Abandon(i) =>
      FlightOnTime(g, w.callbacks, i);
      ReplacedOnTime(g, w.callbacks, i, w.callbacks[i]);
  }

  lemma FlightOnTime(genesis: I64, cs: seq<Callback>, i: nat)
    requires CallbacksOnTime(genesis, cs) && i < |cs|
    ensures CallbackOnTime(genesis, cs[i])
  {}

  /** Schedule safety of a fresh run: for every interleaving of callbacks, skipped slots and failed
      signatures, the chain stays linked without gaps and the block at height i has i's own time. */
  lemma {:induction false} FreshRunOnSchedule(site: Site, start: World, actions: seq<Action>)
    requires Started(site, start) && |start.chain| == 1
    requires Legal(site, start, actions)
    ensures var w := Run(site, start, actions);
            && ValidChain(site.sha, w.chain) && w.chain[0] == start.chain[0]
            && (forall i :: 0 <= i < |w.chain| ==>
                  w.chain[i].header.number == Wrap(i)
                  && w.chain[i].header.timestamp == SlotTime(start.chain[0].header.timestamp, Wrap(i)))
  {
    StaysOnSchedule(site, start, actions);
    var w := Run(site, start, actions);
    forall i | 0 <= i < |w.chain|
      ensures w.chain[i].header.number == Wrap(i)
              && w.chain[i].header.timestamp == SlotTime(start.chain[0].header.timestamp, Wrap(i))
    {
      HeightIsPosition(site.sha, w.chain, i);
      assert BlockOnTime(w.chain[0].header.timestamp, w.chain[i]);
    }
  }

  lemma {:induction false} StaysOnSchedule(site: Site, start: World, actions: seq<Action>)
    requires Started(site, start) && |start.chain| == 1
    requires Legal(site, start, actions)
    ensures var w := Run(site, start, actions);
            && ValidChain(site.sha, w.chain) && w.chain[0] == start.chain[0] && OnSchedule(w.chain)
            && CallbacksOnTime(w.chain[0].header.timestamp, w.callbacks)
    decreases |actions|
  {
    hide ValidChain, OnSchedule, CallbacksOnTime, Step, Enabled;
    if actions == [] {
      GenesisOnSchedule(site, start);
    } else {
      StaysOnSchedule(site, start, actions[..|actions| - 1]);
      StartedClock(site, start);
      StepOnSchedule(site, Run(site, start, actions[..|actions| - 1]), actions[|actions| - 1]);
    }
  }

  lemma StartedClock(site: Site, start: World)
    requires Started(site, start)
    ensures site.clock == Clock(start.chain[0].header.timestamp, |start.chain| - 1) && start.chain != []
  {}

  lemma GenesisOnSchedule(site: Site, start: World)
    requires Started(site, start) && |start.chain| == 1
    ensures ValidChain(site.sha, start.chain) && OnSchedule(start.chain)
    ensures CallbacksOnTime(start.chain[0].header.timestamp, start.callbacks)
  {
    ToI64Exact(start.chain[0].header.timestamp);
  }

  /** The chain only grows, and by one block a fire at most: it never passes the last fired slot, fresh
      or restarted. */
  lemma {:induction false} NeverAheadOfClock(site: Site, start: World, actions: seq<Action>)
    requires Started(site, start) && Legal(site, start, actions)
    ensures var w := Run(site, start, actions);
            |w.chain| - 1 + |w.callbacks| <= w.last && start.chain <= w.chain
    decreases |actions|
  {
    hide ValidChain, Accepts;
    if actions != [] {
      NeverAheadOfClock(site, start, actions[..|actions| - 1]);
    }
  }

  // ---------- after a restart ----------

  /** A callback that runs to its end undisturbed. */
  function Undisturbed(site: Site, chain: seq<Block>, number: U64, random: (Hash, Hash)): (c: seq<Block>)
    requires chain != []
    ensures c != []
  {
    var (t, n) := ChosenFor(chain, ToI64(TimeOf(site.clock, number)), number);
    Offered(site.sha, chain, BuildBlock(site.sha, site.key, Some(Tip(chain)), t, n, random))
  }

  /** Callbacks served one after the other. */
  function Serve(site: Site, chain: seq<Block>, numbers: seq<U64>, random: (Hash, Hash)): (c: seq<Block>)
    requires chain != []
    ensures c != []
  {
    if numbers == [] then chain
    else Undisturbed(site, Serve(site, chain, numbers[..|numbers| - 1], random), numbers[|numbers| - 1], random)
  }

  ghost predicate Rising(numbers: seq<U64>, above: nat) {
    && (forall i :: 0 <= i < |numbers| ==> numbers[i] > above)
    && (forall i, j :: 0 <= i < j < |numbers| ==> numbers[i] < numbers[j])
  }

  lemma BuiltAccepted(sha: Sha, key: Key, tip: Block, time: I64, random: (Hash, Hash))
    requires tip.header.number < 0xFFFF_FFFF_FFFF_FFFF
    ensures Accepts(sha, tip, BuildBlock(sha, key, Some(tip), time, tip.header.number + 1, random))
  {
    hide HeaderHash, Wrap;
    WrapSmall(tip.header.number + 1);
    assert Concat([]) == [];
  }

  /** Undisturbed, a callback always appends one block: the next height, at the time it chose. */
  lemma UndisturbedAppends(site: Site, chain: seq<Block>, number: U64, random: (Hash, Hash))
    requires ValidChain(site.sha, chain) && |chain| < 0x1_0000_0000_0000_0000
    ensures var c := Undisturbed(site, chain, number, random);
            && |c| == |chain| + 1 && c[..|chain|] == chain && ValidChain(site.sha, c)
            && Tip(c).header.number == |chain|
            && Tip(c).header.timestamp ==
               if number == |chain| then ToI64(TimeOf(site.clock, number))
               else SlotTime(chain[0].header.timestamp, |chain|)
  {
    assert chain != [];
    hide ToI64, Accepts, ValidChain, BuildBlock, Wrap, SlotTime, TimeOf;
    HeightIsPosition(site.sha, chain, |chain| - 1);
    WrapSmall(|chain| - 1);
    WrapSmall(|chain|);
    var (t, n) := ChosenFor(chain, ToI64(TimeOf(site.clock, number)), number);
    var b := BuildBlock(site.sha, site.key, Some(Tip(chain)), t, n, random);
    BuiltAccepted(site.sha, site.key, Tip(chain), t, random);
    ValidExtension(site.sha, chain, b);
  }

  lemma AppendedOnSchedule(chain: seq<Block>, c: seq<Block>)
    requires chain != [] && |c| == |chain| + 1 && c[..|chain|] == chain
    ensures OnSchedule(c) <==> OnSchedule(chain) && BlockOnTime(chain[0].header.timestamp, Tip(c))
  {
    hide BlockOnTime;
    forall i | 0 <= i < |chain| ensures c[i] == chain[i] { assert c[..|chain|][i] == c[i]; }
  }

  lemma {:induction false} ServedInOrder(site: Site, chain: seq<Block>, numbers: seq<U64>, random: (Hash, Hash))
    requires Loaded(site, chain)
    requires |chain| + |numbers| <= 0x8000_0000_0000_0000
    ensures var c := Serve(site, chain, numbers, random);
            && ValidChain(site.sha, c) && |c| == |chain| + |numbers| && c[0] == chain[0]
    decreases |numbers|
  {
    hide ValidChain, Undisturbed;
    assert ValidChain(site.sha, chain);
    if numbers != [] {
      var n := |numbers| - 1;
      ServedInOrder(site, chain, numbers[..n], random);
      var before := Serve(site, chain, numbers[..n], random);
      UndisturbedAppends(site, before, numbers[n], random);
      var after := Undisturbed(site, before, numbers[n], random);
      assert after[..|before|][0] == after[0];
    }
  }

  /** After a restart, with callbacks served in order: one block a callback, and the whole chain on
      schedule exactly when nothing had been loaded past block 0 or the first slot fired is at
      least two past the loaded height. */
  lemma {:induction false} RestartOnSchedule(site: Site, chain: seq<Block>, numbers: seq<U64>, random: (Hash, Hash))
    requires Loaded(site, chain) && OnSchedule(chain)
    requires Rising(numbers, |chain| - 1) && |chain| + |numbers| <= 0x8000_0000_0000_0000
    ensures |Serve(site, chain, numbers, random)| == |chain| + |numbers|
    ensures OnSchedule(Serve(site, chain, numbers, random))
            <==> numbers == [] || |chain| == 1 || numbers[0] >= |chain| + 1
    decreases |numbers|
  {
    hide ValidChain, OnSchedule, Undisturbed, ToI64, BlockOnTime;
    ServedInOrder(site, chain, numbers, random);
    if numbers != [] {
      var n := |numbers| - 1;
      ServedInOrder(site, chain, numbers[..n], random);
      var before := Serve(site, chain, numbers[..n], random);
      RestartOnSchedule(site, chain, numbers[..n], random);
      UndisturbedAppends(site, before, numbers[n], random);
      AppendedOnSchedule(before, Undisturbed(site, before, numbers[n], random));
      RisingFloor(numbers, |chain| - 1, n);
      ServedTime(site, chain, before, numbers[n], Tip(Undisturbed(site, before, numbers[n], random)));
    }
  }

  lemma {:induction false} RisingFloor(numbers: seq<U64>, above: nat, i: nat)
    requires Rising(numbers, above) && i < |numbers|
    ensures numbers[i] >= numbers[0] + i && numbers[0] >= above + 1
    decreases i
  {
    if i > 0 { RisingFloor(numbers, above, i - 1); }
  }

  /** Whether the next served block is on time. */
  lemma ServedTime(site: Site, chain: seq<Block>, before: seq<Block>, number: U64, b: Block)
    requires Loaded(site, chain) && |chain| <= |before| < 0x8000_0000_0000_0000
    requires before[0] == chain[0] && number >= |before|
    requires b.header.number == |before|
    requires b.header.timestamp == if number == |before| then ToI64(TimeOf(site.clock, number))
                                   else SlotTime(chain[0].header.timestamp, |before|)
    ensures BlockOnTime(chain[0].header.timestamp, b) <==> number > |before| || |chain| == 1
  {
    if number == |before| {
      KeptTime(chain[0].header.timestamp, |chain| - 1, number);
    }
  }

  /** The restarted clock counts the loaded heights twice: a slot it fires comes two seconds early for
      every loaded height. */
  lemma KeptTime(genesis: I64, height: nat, number: U64)
    requires height < number < 0x8000_0000_0000_0000
    ensures ToI64(TimeOf(Clock(genesis, height), number)) == SlotTime(genesis, number) <==> height == 0
  {
    assert TimeOf(Clock(genesis, height), number) == genesis + number * 2 - height * 2;
  }

  // ---------- after a restart, interleaved ----------

  /** The slots fired during a run, in order. */
  function Fires(actions: seq<Action>): seq<U64> {
    if actions == [] then []
    else
      var a := actions[|actions| - 1];
      Fires(actions[..|actions| - 1]) + if a.Trigger? then [a.number] else []
  }

  ghost predicate AlwaysOnSchedule(site: Site, start: World, numbers: seq<U64>)
    requires start.chain != []
  {
    forall actions :: Legal(site, start, actions) && Fires(actions) == numbers ==>
      OnSchedule(Run(site, start, actions).chain)
  }

  /** A callback that will have to move, or has chosen rightly. */
  ghost predicate CallbackLate(genesis: I64, floor: nat, c: Callback) {
    if c.Waiting? then c.number >= floor else CallbackOnTime(genesis, c)
  }

  ghost predicate CallbacksLate(genesis: I64, floor: nat, cs: seq<Callback>) {
    forall i :: 0 <= i < |cs| ==> CallbackLate(genesis, floor, cs[i])
  }

  lemma ReplacedLate(genesis: I64, floor: nat, cs: seq<Callback>, i: nat, c: Callback)
    requires CallbacksLate(genesis, floor, cs) && CallbackLate(genesis, floor, c)
    ensures i < |cs| ==> CallbacksLate(genesis, floor, cs[i := c]) && CallbacksLate(genesis, floor, Without(cs, i))
    ensures CallbacksLate(genesis, floor, cs + [c])
  {
    hide CallbackLate;
  }

  lemma FlightLate(genesis: I64, floor: nat, cs: seq<Callback>, i: nat)
    requires CallbacksLate(genesis, floor, cs) && i < |cs|
    ensures CallbackLate(genesis, floor, cs[i])
  {}

  /** A slot past the next height is moved there, and so on time. */
  lemma LateChoice(sha: Sha, chain: seq<Block>, time: I64, number: U64)
    requires ValidChain(sha, chain) && |chain| < number
    ensures var (t, n) := ChosenFor(chain, time, number); t == SlotTime(chain[0].header.timestamp, n)
  {
    HeightIsPosition(sha, chain, |chain| - 1);
    ChoiceOnTime(chain, time, number);
    hide ValidChain, ToI64;
  }

  lemma LateStep(site: Site, w: World, a: Action, floor: nat)
    requires ValidChain(site.sha, w.chain) && Enabled(w, a) && (a.Trigger? ==> a.number >= floor)
    requires OnSchedule(w.chain) && CallbacksLate(w.chain[0].header.timestamp, floor, w.callbacks)
    requires |w.chain| + |w.callbacks| <= floor
    ensures var t := Step(site, w, a);
            && ValidChain(site.sha, t.chain) && t.chain[0] == w.chain[0]
            && OnSchedule(t.chain) && CallbacksLate(w.chain[0].header.timestamp, floor, t.callbacks)
  {
    var g := w.chain[0].header.timestamp;
    hide ValidChain, OnSchedule, CallbacksLate, Accepts, ToI64;
    match a
    case Trigger(n) => ReplacedLate(g, floor, w.callbacks, 0, Waiting(ToI64(TimeOf(site.clock, n)), n));
    case Choose(i) =>
      FlightLate(g, floor, w.callbacks, i);
      LateChoice(site.sha, w.chain, w.callbacks[i].time, w.callbacks[i].number);
      var (t, n) := ChosenFor(w.chain, w.callbacks[i].time, w.callbacks[i].number);
      ReplacedLate(g, floor, w.callbacks, i, Chosen(t, n));
    case Build(i, random) =>
      FlightLate(g, floor, w.callbacks, i);
      var c := w.callbacks[i];
      ReplacedLate(g, floor, w.callbacks, i,
        Built(BuildBlock(site.sha, site.key, Some(Tip(w.chain)), c.time, c.number, random)));
    case Append(i) =>
      FlightLate(g, floor, w.callbacks, i);
      ReplacedLate(g, floor, w.callbacks, i, w.callbacks[i]);
      OfferedOnSchedule(site.sha, w.chain, w.callbacks[i].block);
    case Abandon(i) =>
      FlightLate(g, floor, w.callbacks, i);
      ReplacedLate(g, floor, w.callbacks, i, w.callbacks[i]);
  }

  ghost predicate AtLeast(numbers: seq<U64>, floor: nat) { forall i :: 0 <= i < |numbers| ==> numbers[i] >= floor }

  /** One block a fire at most. */
  lemma {:induction false} BlockPerFire(site: Site, start: World, actions: seq<Action>)
    requires Started(site, start) && Legal(site, start, actions)
    ensures var w := Run(site, start, actions);
            |w.chain| + |w.callbacks| <= |start.chain| + |Fires(actions)|
    decreases |actions|
  {
    hide ValidChain, Accepts;
    if actions != [] {
      BlockPerFire(site, start, actions[..|actions| - 1]);
    }
  }

  lemma {:induction false} LateRunOnSchedule(site: Site, start: World, actions: seq<Action>, floor: nat)
    requires Started(site, start) && OnSchedule(start.chain) && Legal(site, start, actions)
    requires AtLeast(Fires(actions), floor) && floor >= |start.chain| + |Fires(actions)|
    ensures var w := Run(site, start, actions);
            && ValidChain(site.sha, w.chain) && w.chain[0] == start.chain[0] && OnSchedule(w.chain)
            && CallbacksLate(w.chain[0].header.timestamp, floor, w.callbacks)
    decreases |actions|
  {
    hide ValidChain, OnSchedule, CallbacksLate, Step, Enabled;
    if actions == [] {
      NoneLate(site, start, floor);
    } else {
      var init := actions[..|actions| - 1];
      var a := actions[|actions| - 1];
      assert Fires(actions)[..|Fires(init)|] == Fires(init);
      assert a.Trigger? ==> Fires(actions)[|Fires(init)|] == a.number;
      LateRunOnSchedule(site, start, init, floor);
      BlockPerFire(site, start, init);
      LateStep(site, Run(site, start, init), a, floor);
    }
  }

  lemma NoneLate(site: Site, start: World, floor: nat)
    requires Started(site, start)
    ensures ValidChain(site.sha, start.chain) && CallbacksLate(start.chain[0].header.timestamp, floor, start.callbacks)
  {}

  /** After a restart, over every interleaving of the callbacks of a given list of fired slots: always on
      schedule exactly when nothing had been loaded past block 0 or the first slot fired leaves room
      for all of them, that is, lies past any height they can reach. */
  lemma InterleavedRestart(site: Site, start: World, numbers: seq<U64>)
    requires Started(site, start) && OnSchedule(start.chain)
    requires Rising(numbers, |start.chain| - 1) && |start.chain| + |numbers| <= 0x8000_0000_0000_0000
    ensures AlwaysOnSchedule(site, start, numbers)
            <==> numbers == [] || |start.chain| == 1 || numbers[0] >= |start.chain| + |numbers|
  {
    hide Run, Legal, Loaded, OnSchedule;
    if numbers == [] || |start.chain| == 1 || numbers[0] >= |start.chain| + |numbers| {
      forall actions | Legal(site, start, actions) && Fires(actions) == numbers
        ensures OnSchedule(Run(site, start, actions).chain)
      {
        if |start.chain| == 1 {
          StaysOnSchedule(site, start, actions);
        } else {
          forall i | 0 <= i < |numbers| ensures numbers[i] >= |start.chain| + |numbers| {
            RisingFloor(numbers, |start.chain| - 1, i);
          }
          LateRunOnSchedule(site, start, actions, |start.chain| + |numbers|);
        }
      }
    } else {
      var actions := OvertakenSlotOffSchedule(site, start, numbers, (Zeros(32), Zeros(32)));
    }
  }

  /** Callbacks as the clock fired them. */
  ghost predicate AsFired(site: Site, cs: seq<Callback>) {
    forall i :: 0 <= i < |cs| ==> cs[i].Waiting? && cs[i].time == ToI64(TimeOf(site.clock, cs[i].number))
  }

  ghost predicate NumberedBy(cs: seq<Callback>, numbers: seq<U64>) {
    |cs| == |numbers| && forall i :: 0 <= i < |cs| ==> cs[i].Waiting? && cs[i].number == numbers[i]
  }

  lemma {:induction false} TriggerAll(site: Site, start: World, numbers: seq<U64>) returns (fired: seq<Action>)
    requires Started(site, start) && Rising(numbers, |start.chain| - 1)
    ensures Legal(site, start, fired) && Fires(fired) == numbers
    ensures var w := Run(site, start, fired);
            && w.chain == start.chain && AsFired(site, w.callbacks) && NumberedBy(w.callbacks, numbers)
            && w.last == if numbers == [] then |start.chain| - 1 else numbers[|numbers| - 1]
    decreases |numbers|
  {
    hide Loaded, ToI64, Run, Legal;
    if numbers == [] {
      fired := [];
      EmptyRun(site, start);
    } else {
      var n := |numbers| - 1;
      var before := TriggerAll(site, start, numbers[..n]);
      var w := Run(site, start, before);
      hide AsFired, NumberedBy, Fires;
      fired := Extend(site, start, before, Trigger(numbers[n]));
      FiredNext(site, w.callbacks, numbers, before, numbers[n]);
    }
  }

  lemma FiredNext(site: Site, cs: seq<Callback>, numbers: seq<U64>, before: seq<Action>, number: U64)
    requires numbers != [] && number == numbers[|numbers| - 1] && Fires(before) == numbers[..|numbers| - 1]
    requires AsFired(site, cs) && NumberedBy(cs, numbers[..|numbers| - 1])
    ensures Fires(before + [Trigger(number)]) == numbers
    ensures var cs' := cs + [Waiting(ToI64(TimeOf(site.clock, number)), number)];
            AsFired(site, cs') && NumberedBy(cs', numbers)
  {
    hide ToI64, TimeOf;
    assert (before + [Trigger(number)])[..|before|] == before;
    assert numbers == numbers[..|numbers| - 1] + [number];
  }

  /** Serving the second callback in line, again and again. */
  lemma {:induction false} ServeOthers(site: Site, start: World, fired: seq<Action>, m: nat, random: (Hash, Hash))
    returns (actions: seq<Action>)
    requires Started(site, start) && Legal(site, start, fired) && |start.chain| + m < 0x8000_0000_0000_0000
    requires var w := Run(site, start, fired);
             w.chain == start.chain && AsFired(site, w.callbacks) && m < |w.callbacks|
    ensures Legal(site, start, actions) && Fires(actions) == Fires(fired)
    ensures var w, t := Run(site, start, fired), Run(site, start, actions);
            && ValidChain(site.sha, t.chain) && |t.chain| == |start.chain| + m && t.chain[0] == start.chain[0]
            && AsFired(site, t.callbacks) && |t.callbacks| == |w.callbacks| - m && t.callbacks[0] == w.callbacks[0]
    decreases m
  {
    hide Run, Legal, ToI64, ValidChain, Undisturbed, AsFired, Fires;
    StartedValid(site, start);
    if m == 0 {
      actions := fired;
    } else {
      var before := ServeOthers(site, start, fired, m - 1, random);
      var w := Run(site, start, before);
      AsFiredAt(site, w.callbacks, 1);
      UndisturbedAppends(site, w.chain, w.callbacks[1].number, random);
      actions := RunUndisturbed(site, start, before, 1, random);
      assert Undisturbed(site, w.chain, w.callbacks[1].number, random)[..|w.chain|][0] == w.chain[0];
    }
  }

  lemma AsFiredAt(site: Site, cs: seq<Callback>, i: nat)
    requires AsFired(site, cs) && i < |cs|
    ensures cs[i].Waiting? && cs[i].time == ToI64(TimeOf(site.clock, cs[i].number))
    ensures AsFired(site, Without(cs, i))
  {
    hide ToI64, TimeOf;
  }

  /** A first slot within reach: once enough later callbacks have overtaken it, it is the next height, and
      is kept with the clock's time, which is wrong for every chain loaded past block 0. */
  lemma OvertakenSlotOffSchedule(site: Site, start: World, numbers: seq<U64>, random: (Hash, Hash))
    returns (actions: seq<Action>)
    requires Started(site, start) && |start.chain| > 1
    requires Rising(numbers, |start.chain| - 1) && |start.chain| + |numbers| <= 0x8000_0000_0000_0000
    requires numbers != [] && numbers[0] < |start.chain| + |numbers|
    ensures Legal(site, start, actions) && Fires(actions) == numbers
    ensures !OnSchedule(Run(site, start, actions).chain)
  {
    hide Run, Legal, Step, Loaded, ToI64, Undisturbed, OnSchedule, BlockOnTime, ValidChain, Fires;
    var fired := TriggerAll(site, start, numbers);
    var others := ServeOthers(site, start, fired, numbers[0] - |start.chain|, random);
    var w := Run(site, start, others);
    AsFiredAt(site, w.callbacks, 0);
    actions := RunUndisturbed(site, start, others, 0, random);
    UndisturbedAppends(site, w.chain, numbers[0], random);
    var c := Undisturbed(site, w.chain, numbers[0], random);
    AppendedOnSchedule(w.chain, c);
    ServedTime(site, start.chain, w.chain, numbers[0], Tip(c));
  }

  // ---------- no block before its time ----------

  function Numbers(fires: seq<Fire>): seq<nat> {
    if fires == [] then [] else Numbers(fires[..|fires| - 1]) + [fires[|fires| - 1].number]
  }

  /** The slots fired are those of the ticker loop over these readings. */
  ghost predicate Driven(site: Site, actions: seq<Action>, readings: seq<int>) {
    Fires(actions) == Numbers(Loop(site.clock, readings).fires)
  }

  /** If the chain has grown, some reading has reached the scheduled time of its newest height. */
  ghost predicate Timely(start: World, w: World, readings: seq<int>)
    requires start.chain != [] && w.chain != []
  {
    |w.chain| > |start.chain| ==>
      exists i :: 0 <= i < |readings|
        && start.chain[0].header.timestamp + (|w.chain| - 1) * BLOCK_SECONDS <= readings[i]
  }

  /** Whatever the interleaving and the readings, once `first` has fired first. */
  ghost predicate AlwaysTimely(site: Site, start: World, first: U64)
    requires start.chain != []
  {
    forall actions, readings ::
      Legal(site, start, actions) && Fires(actions) != [] && Fires(actions)[0] == first
      && Driven(site, actions, readings) ==>
        Timely(start, Run(site, start, actions), readings)
  }

  /** The last slot fired is at least as far past the first as there were fires. */
  lemma {:induction false} FiresSpread(site: Site, start: World, actions: seq<Action>)
    requires Started(site, start) && Legal(site, start, actions)
    ensures var w, fires := Run(site, start, actions), Fires(actions);
            && w.last == (if fires == [] then |start.chain| - 1 else fires[|fires| - 1])
            && (fires != [] ==> fires[0] >= |start.chain| && w.last >= fires[0] + |fires| - 1)
    decreases |actions|
  {
    hide ValidChain, Step, Fires, Enabled;
    FiresNext(actions);
    if actions != [] {
      FiresSpread(site, start, actions[..|actions| - 1]);
      LastAfter(site, Run(site, start, actions[..|actions| - 1]), actions[|actions| - 1]);
    }
  }

  lemma FiresNext(actions: seq<Action>)
    ensures actions == [] ==> Fires(actions) == []
    ensures actions != [] ==>
              var n := |actions| - 1;
              Fires(actions) == Fires(actions[..n]) + if actions[n].Trigger? then [actions[n].number] else []
  {}

  lemma LastAfter(site: Site, w: World, a: Action)
    requires w.chain != [] && Enabled(w, a)
    ensures if a.Trigger? then Step(site, w, a).last == a.number > w.last else Step(site, w, a).last == w.last
  {
    hide ToI64, BuildBlock, Accepts;
  }

  lemma {:induction false} LastNumber(fires: seq<Fire>)
    requires fires != []
    ensures Numbers(fires) != [] && Numbers(fires)[|Numbers(fires)| - 1] == fires[|fires| - 1].number
  {}

  /** A first slot past the loaded heights counted twice leaves every block in time. */
  lemma LateFirstSlotTimely(site: Site, start: World, actions: seq<Action>, readings: seq<int>)
    requires Started(site, start) && Legal(site, start, actions) && Driven(site, actions, readings)
    requires Fires(actions) == [] || Fires(actions)[0] >= 2 * |start.chain| - 1
    ensures Timely(start, Run(site, start, actions), readings)
  {
    hide Run, Legal, Loop;
    var w := Run(site, start, actions);
    BlockPerFire(site, start, actions);
    if |w.chain| > |start.chain| {
      FiresSpread(site, start, actions);
      LoopRemembersLatest(site.clock, readings);
      FiresRiseOnTime(site.clock, readings);
      LastNumber(Loop(site.clock, readings).fires);
      var i := LatestReading(site.clock, readings, w.last);
      assert TimeOf(site.clock, w.last) <= readings[i];
    }
  }

  lemma LatestReading(c: Clock, readings: seq<int>, last: nat) returns (i: nat)
    requires IsLatest(c, readings, last) && last > c.offset
    ensures i < |readings| && TimeOf(c, last) <= readings[i]
  {
    i :| i < |readings| && NumberAt(c, readings[i]) == last;
    InstantInSlot(c, readings[i]);
  }

  /** The first slot fired and served undisturbed. */
  lemma ServeFirst(site: Site, start: World, first: U64, random: (Hash, Hash)) returns (actions: seq<Action>)
    requires Started(site, start) && |start.chain| < 0x1_0000_0000_0000_0000 && first >= |start.chain|
    ensures Legal(site, start, actions) && Fires(actions) == [first]
    ensures |Run(site, start, actions).chain| == |start.chain| + 1
  {
    hide Run, Legal, ToI64, Undisturbed, ValidChain;
    assert Rising([first], |start.chain| - 1);
    var fired := TriggerAll(site, start, [first]);
    AsFiredAt(site, Run(site, start, fired).callbacks, 0);
    actions := RunUndisturbed(site, start, fired, 0, random);
    StartedValid(site, start);
    UndisturbedAppends(site, start.chain, first, random);
  }

  lemma Untimely(start: World, w: World, reading: int)
    requires start.chain != [] && |w.chain| == |start.chain| + 1
    requires reading < start.chain[0].header.timestamp + |start.chain| * BLOCK_SECONDS
    ensures !Timely(start, w, [reading])
  {}

  /** Otherwise its own callback, undisturbed, appends a block that is not due. */
  lemma EarlyFirstSlot(site: Site, start: World, first: U64, random: (Hash, Hash))
    returns (actions: seq<Action>, readings: seq<int>)
    requires Started(site, start) && |start.chain| < 0x1_0000_0000_0000_0000
    requires |start.chain| <= first < 2 * |start.chain| - 1
    ensures Legal(site, start, actions) && Fires(actions) == [first] && Driven(site, actions, readings)
    ensures !Timely(start, Run(site, start, actions), readings)
  {
    hide Run, Legal, Timely, Loop, Fires, Numbers, ValidChain, Accepts;
    readings := [TimeOf(site.clock, first)];
    SingleFire(site.clock, first);
    actions := ServeFirst(site, start, first, random);
    Untimely(start, Run(site, start, actions), TimeOf(site.clock, first));
  }

  lemma SingleFire(c: Clock, first: nat)
    requires first > c.offset
    ensures Numbers(Loop(c, [TimeOf(c, first)]).fires) == [first]
  {
    SlotRoundTrip(c, first);
    var now := TimeOf(c, first);
    assert [now][..0] == [];
    assert Loop(c, [now]) == Tick(c, Memory(c.offset, []), now);
    assert Loop(c, [now]).fires == [Fire(now, now, first)];
    assert Numbers([Fire(now, now, first)][..0]) == [];
  }

  /** No block is appended before its time exactly when the first slot fired lies past the loaded heights
      counted twice: in every fresh run, and after a restart at height h from slot 2h + 1 on. */
  lemma NoBlockEarly(site: Site, start: World, first: U64)
    requires Started(site, start) && |start.chain| < 0x1_0000_0000_0000_0000 && first >= |start.chain|
    ensures AlwaysTimely(site, start, first) <==> first >= 2 * (|start.chain| - 1) + 1
  {
    hide Run, Legal, Timely, Driven;
    if first >= 2 * (|start.chain| - 1) + 1 {
      forall actions, readings
        | Legal(site, start, actions) && Fires(actions) != [] && Fires(actions)[0] == first
          && Driven(site, actions, readings)
        ensures Timely(start, Run(site, start, actions), readings)
      {
        LateFirstSlotTimely(site, start, actions, readings);
      }
    } else {
      var actions, readings := EarlyFirstSlot(site, start, first, (Zeros(32), Zeros(32)));
    }
  }

  /** That is, exactly when the next height was due at the reading that fired it, which is the condition
      the node only reports when it sets the clock. */
  lemma FirstSlotDue(c: Clock, now: int)
    requires now >= c.genesis
    ensures NumberAt(c, now) >= 2 * c.offset + 1 <==> now >= c.genesis + (c.offset + 1) * BLOCK_SECONDS
  {}

  lemma StartedValid(site: Site, start: World)
    requires Started(site, start)
    ensures ValidChain(site.sha, start.chain)
  {}

  lemma EmptyRun(site: Site, start: World)
    requires start.chain != []
    ensures Legal(site, start, []) && Run(site, start, []) == start
  {}

  lemma Extend(site: Site, start: World, actions: seq<Action>, a: Action) returns (longer: seq<Action>)
    requires start.chain != [] && Legal(site, start, actions) && Enabled(Run(site, start, actions), a)
    ensures longer == actions + [a] && Legal(site, start, longer)
    ensures Run(site, start, longer) == Step(site, Run(site, start, actions), a)
  {
    longer := actions + [a];
    assert longer[..|actions|] == actions;
  }

  /** Choose, build and append with nothing in between are the function Undisturbed. */
  lemma RunUndisturbed(site: Site, start: World, actions: seq<Action>, i: nat, random: (Hash, Hash))
    returns (longer: seq<Action>)
    requires start.chain != [] && Legal(site, start, actions)
    requires var w := Run(site, start, actions);
             && i < |w.callbacks| && w.callbacks[i].Waiting?
             && w.callbacks[i].time == ToI64(TimeOf(site.clock, w.callbacks[i].number))
    ensures Legal(site, start, longer) && Fires(longer) == Fires(actions)
    ensures var w, t := Run(site, start, actions), Run(site, start, longer);
            && t.chain == Undisturbed(site, w.chain, w.callbacks[i].number, random)
            && t.callbacks == Without(w.callbacks, i)
  {
    hide Run, Legal, ToI64, BuildBlock, ChooseSlot, Accepts, Fires;
    longer := Extend(site, start, actions, Choose(i));
    NoFire(actions, Choose(i));
    NoFire(longer, Build(i, random));
    longer := Extend(site, start, longer, Build(i, random));
    NoFire(longer, Append(i));
    longer := Extend(site, start, longer, Append(i));
  }

  lemma NoFire(actions: seq<Action>, a: Action)
    requires !a.Trigger?
    ensures Fires(actions + [a]) == Fires(actions)
  {
    assert (actions + [a])[..|actions|] == actions;
  }

  // ---------- the node ----------

  /** A block without transactions is executed whenever it is accepted. */
  lemma EmptyBlockAdded(sha: Sha, l: Execution.Ledger, b: Block)
    requires b.transactions == []
    ensures Execution.AddBlock(sha, l, b).1.Added? <==> Accepts(sha, l.tip, b)
    ensures Execution.AddBlock(sha, l, b).0.tip == if Accepts(sha, l.tip, b) then b else l.tip
    ensures Execution.AddBlock(sha, l, b).0.state == l.state
  {}

  class Node {
    const manager: M.Manager
    const timeController: TimeController
    const key: Key
    var isValidator: bool

    constructor (manager: M.Manager, timeController: TimeController, key: Key)
      ensures this.manager == manager && this.timeController == timeController && this.key == key && !isValidator
    {
      this.manager, this.timeController, this.key, isValidator := manager, timeController, key, false;
    }

    /** syncTimeControllerWithBlockchain: the clock takes block 0's timestamp if it differs, which
        rounds an odd one down, and the tip's height as offset. */
    method SyncTimeController() returns (ok: bool)
      requires manager.Valid() && (manager.currentBlock.Some? ==> 0 in manager.storage.store.blocks)
      modifies timeController
      ensures timeController.started == old(timeController.started)
      ensures manager.currentBlock.None? ==> ok && timeController.View() == old(timeController.View())
      ensures manager.currentBlock.Some? ==>
                var g := manager.storage.store.blocks[0].header.timestamp;
                && (ok <==> !old(timeController.started))
                && (ok ==> timeController.blockOffset == manager.currentBlock.value.header.number)
                && (ok ==> timeController.genesisTime
                           == if old(timeController.genesisTime) == g || g % 2 == 0 then g else g - 1)
                && (!ok ==> timeController.View() == old(timeController.View()))
    {
      hide Represents;
      if manager.currentBlock.None? {
        return true;
      }
      var genesis := manager.storage.GetBlock(0);
      if genesis.Some? && timeController.genesisTime != genesis.value.header.timestamp {
        ok := timeController.SetGenesisTime(genesis.value.header.timestamp);
        if !ok {
          return false;
        }
      }
      ok := timeController.SetBlockOffset(manager.currentBlock.value.header.number);
    }

    /** onBlockTime and produceEmptyBlock, undisturbed: the block to broadcast, if one was appended. */
    method OnBlockTime(blockTime: I64, blockNumber: U64, random: (Hash, Hash)) returns (produced: Option<Block>)
      requires manager.Valid()
      modifies manager, manager.storage, manager.currentState.Values
      ensures manager.Valid() && manager.isInitialized == old(manager.isInitialized)
      ensures !isValidator || !manager.isInitialized ==>
                produced == None && manager.currentBlock == old(manager.currentBlock)
      ensures isValidator && manager.isInitialized ==>
                var tip := old(manager.currentBlock);
                var blocks := old(manager.storage.store.blocks);
                var genesis := if 0 in blocks then Some(blocks[0]) else None;
                var (time, number) := ChooseSlot(tip, genesis, blockTime, blockNumber);
                var b := BuildBlock(manager.sha, key, tip, time, number, random);
                && manager.Abs() == Execution.AddBlock(manager.sha, old(manager.Abs()), b).0
                && produced == (if Accepts(manager.sha, tip.value, b) then Some(b) else None)
    {
      hide Represents, ValidateBlock, HeaderHash, ToI64;
      if !isValidator {
        return None;
      }
      var time, number := blockTime, blockNumber;
      if manager.currentBlock.Some? {
        var expectedNext := Wrap(manager.currentBlock.value.header.number + 1);
        if number != expectedNext {
          number := expectedNext;
          var genesis := manager.storage.GetBlock(0);
          if genesis.Some? {
            time := SlotTime(genesis.value.header.timestamp, number);
          }
        }
      }
      var block := BuildBlock(manager.sha, key, manager.currentBlock, time, number, random);
      if manager.isInitialized {
        EmptyBlockAdded(manager.sha, manager.Abs(), block);
      }
      var outcome := manager.AddBlock(block);
      produced := if outcome == M.Result(Execution.Added) then Some(block) else None;
    }
  }
}
