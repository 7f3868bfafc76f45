/** The slot clock: floor-division slot numbers, their exact times, and the ticker loop that fires
    each slot at most once; on unbounded integers first, then in 64 bits. */
module SlotClock {
  import opened Encoding
  import opened Types

  datatype Clock = Clock(genesis: int, offset: nat)

  /** calculateCurrentBlockNumber; the elapsed time is not negative, so truncation is floor. */
  function NumberAt(c: Clock, now: int): nat {
    if now < c.genesis then c.offset else c.offset + (now - c.genesis) / BLOCK_SECONDS
  }

  /** calculateBlockTime. */
  function TimeOf(c: Clock, number: nat): int {
    if number < c.offset then c.genesis else c.genesis + (number - c.offset) * BLOCK_SECONDS
  }

  // ---------- slot arithmetic ----------

  /** Slot number and slot time are adjoint: a slot has come exactly when its time has. */
  lemma SlotAdjunction(c: Clock, number: nat, now: int)
    requires number >= c.offset && now >= c.genesis
    ensures number <= NumberAt(c, now) <==> TimeOf(c, number) <= now
  {}

  /** Going to a slot's time and back is the identity from the offset on, and only there. */
  lemma SlotRoundTrip(c: Clock, number: nat)
    ensures NumberAt(c, TimeOf(c, number)) == number <==> number >= c.offset
  {}

  /** An instant lies in the two seconds of its own slot. */
  lemma InstantInSlot(c: Clock, now: int)
    requires now >= c.genesis
    ensures TimeOf(c, NumberAt(c, now)) <= now < TimeOf(c, NumberAt(c, now) + 1)
  {}

  // ---------- the ticker loop ----------

  /** A fired slot: the reading it fired at, its time and its number. */
  datatype Fire = Fire(at: int, time: int, number: nat)

  /** What the loop remembers after a list of ticker readings, and what it fired. */
  datatype Memory = Memory(last: nat, fires: seq<Fire>)

  function Tick(c: Clock, m: Memory, now: int): Memory {
    var number := NumberAt(c, now);
    if number > m.last && now >= TimeOf(c, number) then
      Memory(number, m.fires + [Fire(now, TimeOf(c, number), number)])
    else m
  }

  function Loop(c: Clock, readings: seq<int>): Memory {
    if readings == [] then Memory(c.offset, [])
    else Tick(c, Loop(c, readings[..|readings| - 1]), readings[|readings| - 1])
  }

  /** The number of the latest slot any reading fell in, at least the offset. */
  ghost predicate IsLatest(c: Clock, readings: seq<int>, last: nat) {
    && (forall i :: 0 <= i < |readings| ==> NumberAt(c, readings[i]) <= last)
    && (last == c.offset || exists i :: 0 <= i < |readings| && NumberAt(c, readings[i]) == last)
  }

  /** A reading whose slot is later than the offset and than that of every earlier reading. */
  ghost predicate IsRecord(c: Clock, readings: seq<int>, i: nat)
    requires i < |readings|
  {
    && NumberAt(c, readings[i]) > c.offset
    && forall j :: 0 <= j < i ==> NumberAt(c, readings[j]) < NumberAt(c, readings[i])
  }

  /** Whatever the readings do, the time guard inside the loop never holds a slot back. */
  lemma GuardIsRedundant(c: Clock, m: Memory, now: int)
    requires m.last >= c.offset && NumberAt(c, now) > m.last
    ensures now >= TimeOf(c, NumberAt(c, now))
  {
    if now < c.genesis { assert false; }
  }

  lemma {:induction false} LoopRemembersLatest(c: Clock, readings: seq<int>)
    ensures IsLatest(c, readings, Loop(c, readings).last) && Loop(c, readings).last >= c.offset
  {
    if readings != [] {
      var n := |readings| - 1;
      var init := readings[..n];
      LoopRemembersLatest(c, init);
      var m := Loop(c, init);
      if NumberAt(c, readings[n]) > m.last {
        GuardIsRedundant(c, m, readings[n]);
      }
      var last := Loop(c, readings).last;
      forall i | 0 <= i < |readings| ensures NumberAt(c, readings[i]) <= last {
        if i < n { assert init[i] == readings[i]; }
      }
      if last == m.last && last != c.offset {
        var i :| 0 <= i < |init| && NumberAt(c, init[i]) == last;
        assert readings[i] == init[i];
      }
    }
  }

  ghost predicate Fired(fires: seq<Fire>, number: nat) {
    exists k :: 0 <= k < |fires| && fires[k].number == number
  }

  ghost predicate Record(c: Clock, readings: seq<int>, number: nat) {
    exists i :: 0 <= i < |readings| && IsRecord(c, readings, i) && NumberAt(c, readings[i]) == number
  }

  /** A slot fires exactly when some reading falls in it and it lies past the offset and past the
      slot of every earlier reading. */
  lemma {:induction false} FiresAreRecords(c: Clock, readings: seq<int>, number: nat)
    ensures Fired(Loop(c, readings).fires, number) <==> Record(c, readings, number)
  {
    hide Fired, Record, IsRecord, NumberAt, TimeOf, IsLatest;
    if readings == [] {
      NoneFired(c, number);
    } else {
      var n := |readings| - 1;
      FiresAreRecords(c, readings[..n], number);
      LoopRemembersLatest(c, readings[..n]);
      var m := Loop(c, readings[..n]);
      LatestRecord(c, readings, m.last);
      RecordsOneMore(c, readings, number);
      if NumberAt(c, readings[n]) > m.last {
        GuardIsRedundant(c, m, readings[n]);
        FiredOneMore(m.fires, Fire(readings[n], TimeOf(c, NumberAt(c, readings[n])), NumberAt(c, readings[n])), number);
      }
    }
  }

  lemma NoneFired(c: Clock, number: nat)
    ensures !Fired([], number) && !Record(c, [], number)
  {}

  lemma FiredOneMore(fires: seq<Fire>, f: Fire, number: nat)
    ensures Fired(fires + [f], number) <==> Fired(fires, number) || f.number == number
  {
    var more := fires + [f];
    assert more[|fires|] == f;
    if k :| 0 <= k < |fires| && fires[k].number == number {
      assert more[k].number == number;
    }
  }

  lemma RecordPrefix(c: Clock, readings: seq<int>, n: nat, i: nat)
    requires i < n <= |readings|
    ensures IsRecord(c, readings[..n], i) == IsRecord(c, readings, i)
  {
    forall j | 0 <= j <= i ensures readings[..n][j] == readings[j] {}
  }

  lemma RecordsOneMore(c: Clock, readings: seq<int>, number: nat)
    requires readings != []
    ensures var n := |readings| - 1;
            Record(c, readings, number)
            <==> Record(c, readings[..n], number) || (IsRecord(c, readings, n) && NumberAt(c, readings[n]) == number)
  {
    var n := |readings| - 1;
    forall i | 0 <= i < n
      ensures IsRecord(c, readings[..n], i) == IsRecord(c, readings, i) && readings[..n][i] == readings[i]
    {
      RecordPrefix(c, readings, n, i);
    }
    hide IsRecord, NumberAt;
  }

  lemma LatestRecord(c: Clock, readings: seq<int>, last: nat)
    requires readings != [] && last >= c.offset && IsLatest(c, readings[..|readings| - 1], last)
    ensures IsRecord(c, readings, |readings| - 1) <==> NumberAt(c, readings[|readings| - 1]) > last
  {
    var n := |readings| - 1;
    forall j | 0 <= j < n ensures readings[..n][j] == readings[j] {}
    if last != c.offset {
      var i :| 0 <= i < n && NumberAt(c, readings[..n][i]) == last;
      assert readings[i] == readings[..n][i];
    }
  }

  ghost predicate Rising(fires: seq<Fire>) {
    forall j, k :: 0 <= j < k < |fires| ==> fires[j].number < fires[k].number
  }

  ghost predicate OnTime(c: Clock, f: Fire) {
    && f.number > c.offset && f.time == TimeOf(c, f.number) && f.number == NumberAt(c, f.at)
    && f.time <= f.at < TimeOf(c, f.number + 1)
  }

  /** For any readings, forwards or backwards: fired numbers rise strictly, each with its exact slot
      time, each at a reading within its own slot and so never early. */
  lemma {:induction false} FiresRiseOnTime(c: Clock, readings: seq<int>)
    ensures var m := Loop(c, readings);
            && Rising(m.fires) && (forall k :: 0 <= k < |m.fires| ==> OnTime(c, m.fires[k]))
            && m.last == (if m.fires == [] then c.offset else m.fires[|m.fires| - 1].number)
  {
    if readings != [] {
      var n := |readings| - 1;
      FiresRiseOnTime(c, readings[..n]);
      LoopRemembersLatest(c, readings[..n]);
      var m := Loop(c, readings[..n]);
      if NumberAt(c, readings[n]) > m.last {
        InstantInSlot(c, readings[n]);
      }
    }
  }

  /** Successive readings advance by at most one slot's length. */
  ghost predicate SmallSteps(readings: seq<int>) {
    forall i :: 0 < i < |readings| ==> readings[i] - readings[i - 1] <= BLOCK_SECONDS
  }

  ghost predicate Consecutive(fires: seq<Fire>) {
    forall k :: 0 < k < |fires| ==> fires[k].number == fires[k - 1].number + 1
  }

  lemma StepAtMostOneSlot(c: Clock, before: int, now: int)
    requires now - before <= BLOCK_SECONDS
    ensures NumberAt(c, now) <= NumberAt(c, before) + 1
  {}

  /** With readings that advance by at most two seconds, though they may go back by any amount, no
      number is skipped between the first and the last fire. */
  lemma {:induction false} NoSlotSkipped(c: Clock, readings: seq<int>)
    requires SmallSteps(readings)
    ensures Consecutive(Loop(c, readings).fires)
  {
    if readings != [] {
      var n := |readings| - 1;
      var init := readings[..n];
      assert SmallSteps(init) by {
        forall i | 0 < i < |init| ensures init[i] - init[i - 1] <= BLOCK_SECONDS {
          assert readings[i] - readings[i - 1] <= BLOCK_SECONDS;
        }
      }
      NoSlotSkipped(c, init);
      LoopRemembersLatest(c, init);
      FiresRiseOnTime(c, init);
      if n > 0 {
        assert init[n - 1] == readings[n - 1];
        StepAtMostOneSlot(c, readings[n - 1], readings[n]);
      }
    }
  }

  /** Two seconds is the limit: for every clock there are readings three seconds apart that skip a slot. */
  lemma ThreeSecondsSkip(c: Clock) returns (readings: seq<int>)
    ensures |readings| == 2 && readings[1] - readings[0] == BLOCK_SECONDS + 1
    ensures !Consecutive(Loop(c, readings).fires)
  {
    readings := [c.genesis + 3, c.genesis + 6];
    assert readings[..1] == [c.genesis + 3] && readings[..1][..0] == [];
    assert Loop(c, readings[..1]) == Tick(c, Memory(c.offset, []), c.genesis + 3);
    var m := Loop(c, readings);
    assert m.fires[0].number == c.offset + 1 && m.fires[1].number == c.offset + 3;
  }

  // ---------- 64 bits ----------

  ghost predicate MachineClock(c: Clock) {
    -0x8000_0000_0000_0000 <= c.genesis < 0x8000_0000_0000_0000 && c.offset < 0x1_0000_0000_0000_0000
  }

  /** Go's integer division by the block time truncates. */
  function Truncated(x: int): int { if x >= 0 then x / BLOCK_SECONDS else -(-x / BLOCK_SECONDS) }

  /** calculateCurrentBlockNumber on int64 and uint64. */
  function MachineNumber(c: Clock, now: int): U64 {
    if now < c.genesis then Wrap(c.offset) else Wrap(c.offset + Truncated(ToI64(now - c.genesis)))
  }

  /** calculateBlockTime on int64 and uint64. */
  function MachineTime(c: Clock, number: nat): I64 { ToI64(TimeOf(c, number)) }

  function MachineTick(c: Clock, m: Memory, now: int): Memory {
    var number := MachineNumber(c, now);
    if number > m.last && now >= MachineTime(c, number) then
      Memory(number, m.fires + [Fire(now, MachineTime(c, number), number)])
    else m
  }

  function MachineLoop(c: Clock, readings: seq<int>): Memory {
    if readings == [] then Memory(c.offset, [])
    else MachineTick(c, MachineLoop(c, readings[..|readings| - 1]), readings[|readings| - 1])
  }

  /** Elapsed seconds and slot numbers fit their words at every reading. */
  ghost predicate InRange(c: Clock, readings: seq<int>) {
    forall i :: 0 <= i < |readings| ==>
      -0x8000_0000_0000_0000 <= readings[i] < 0x8000_0000_0000_0000
      && readings[i] - c.genesis < 0x8000_0000_0000_0000 && NumberAt(c, readings[i]) < 0x1_0000_0000_0000_0000
  }

  lemma MachineTickExact(c: Clock, m: Memory, now: int)
    requires MachineClock(c) && InRange(c, [now]) && m.last >= c.offset
    ensures MachineTick(c, m, now) == Tick(c, m, now)
  {
    assert [now][0] == now;
    var number := NumberAt(c, now);
    NumberExact(c, now);
    if number > m.last {
      GuardIsRedundant(c, m, now);
      assert TimeOf(c, number) <= now;
      ToI64Exact(TimeOf(c, number));
    }
    hide ToI64, Wrap;
  }

  lemma NumberExact(c: Clock, now: int)
    requires MachineClock(c) && NumberAt(c, now) < 0x1_0000_0000_0000_0000
    requires -0x8000_0000_0000_0000 <= now < 0x8000_0000_0000_0000 && now - c.genesis < 0x8000_0000_0000_0000
    ensures MachineNumber(c, now) == NumberAt(c, now)
  {
    WrapSmall(NumberAt(c, now));
    if now >= c.genesis { ToI64Exact(now - c.genesis); }
    hide ToI64, Wrap;
  }

  /** While nothing overflows, the 64-bit loop is the loop. */
  lemma {:induction false} MachineLoopExact(c: Clock, readings: seq<int>)
    requires MachineClock(c) && InRange(c, readings)
    ensures MachineLoop(c, readings) == Loop(c, readings)
  {
    if readings != [] {
      var n := |readings| - 1;
      forall i | 0 <= i < n ensures readings[..n][i] == readings[i] {}
      assert InRange(c, [readings[n]]);
      MachineLoopExact(c, readings[..n]);
      LoopRemembersLatest(c, readings[..n]);
      hide InRange, Tick, MachineTick;
      MachineTickExact(c, Loop(c, readings[..n]), readings[n]);
    }
  }

  // ---------- sequences of blocks ----------

  predicate OnTimeAt(c: Clock, headers: seq<BlockHeader>, i: nat)
    requires i < |headers|
  {
    headers[i].timestamp == MachineTime(c, headers[i].number)
  }

  predicate SpacedAt(headers: seq<BlockHeader>, i: nat)
    requires i < |headers|
  {
    i > 0 ==> ToI64(headers[i].timestamp - headers[i - 1].timestamp) == BLOCK_SECONDS
  }

  /** Every timestamp is its slot's own. */
  ghost predicate Punctual(c: Clock, headers: seq<BlockHeader>) {
    forall i :: 0 <= i < |headers| ==> OnTimeAt(c, headers, i)
  }

  ghost predicate Spaced(headers: seq<BlockHeader>) {
    forall i :: 0 <= i < |headers| ==> SpacedAt(headers, i)
  }

  /** Slots since the offset. */
  function SlotOf(c: Clock, number: nat): nat { if number < c.offset then 0 else number - c.offset }

  predicate FollowsAt(c: Clock, headers: seq<BlockHeader>, i: nat)
    requires i < |headers|
  {
    i > 0 ==>
      (SlotOf(c, headers[i].number) - SlotOf(c, headers[i - 1].number) - 1) % 0x8000_0000_0000_0000 == 0
  }

  /** Each slot is the one after its predecessor's, as far as 64-bit times can tell: modulo 2^63. */
  ghost predicate Follows(c: Clock, headers: seq<BlockHeader>) {
    forall i :: 0 <= i < |headers| ==> FollowsAt(c, headers, i)
  }

  lemma SlotSpacing(c: Clock, m: nat, n: nat)
    ensures ToI64(MachineTime(c, n) - MachineTime(c, m)) == BLOCK_SECONDS
            <==> (SlotOf(c, n) - SlotOf(c, m) - 1) % 0x8000_0000_0000_0000 == 0
  {
    var d := SlotOf(c, n) - SlotOf(c, m);
    ToI64Difference(TimeOf(c, n), TimeOf(c, m));
    assert TimeOf(c, n) - TimeOf(c, m) == 2 * d;
    ToI64Exact(BLOCK_SECONDS);
    ToI64Modulo(2 * d, BLOCK_SECONDS);
    HalfModulus(d - 1);
    hide ToI64, Wrap;
  }

  lemma HalfModulus(x: int)
    ensures (2 * x) % 0x1_0000_0000_0000_0000 == 0 <==> x % 0x8000_0000_0000_0000 == 0
  {}

  /** Exact timestamps two seconds apart are exact timestamps on successive slots. */
  lemma PunctualSpacing(c: Clock, headers: seq<BlockHeader>)
    requires Punctual(c, headers)
    ensures Spaced(headers) <==> Follows(c, headers)
  {
    hide ToI64, MachineTime, SlotOf;
    forall i | 0 <= i < |headers| ensures SpacedAt(headers, i) <==> FollowsAt(c, headers, i) {
      if i > 0 {
        assert OnTimeAt(c, headers, i) && OnTimeAt(c, headers, i - 1);
        SlotSpacing(c, headers[i - 1].number, headers[i].number);
      }
    }
  }

  /** From the offset on, and short of 2^63 slots past it, that is plain succession. */
  lemma {:induction false} FollowsIsSuccession(c: Clock, headers: seq<BlockHeader>, i: nat)
    requires Follows(c, headers) && i < |headers| && headers[0].number >= c.offset
    requires headers[0].number + |headers| <= c.offset + 0x8000_0000_0000_0000
    requires forall k :: 0 <= k < |headers| ==> headers[k].number < c.offset + 0x8000_0000_0000_0000
    ensures headers[i].number == headers[0].number + i
  {
    if i > 0 {
      FollowsIsSuccession(c, headers, i - 1);
      assert FollowsAt(c, headers, i);
      NextSlot(SlotOf(c, headers[i - 1].number), SlotOf(c, headers[i].number));
    }
  }

  lemma NextSlot(m: nat, n: nat)
    requires m < 0x8000_0000_0000_0000 && n < 0x8000_0000_0000_0000 && (n - m - 1) % 0x8000_0000_0000_0000 == 0
    ensures n == m + 1 || (n == 0 && m + 1 == 0x8000_0000_0000_0000)
  {}

  class TimeController {
    var genesisTime: I64
    const blockTime: int := BLOCK_SECONDS
    var blockOffset: U64
    var started: bool

    constructor (genesisTime: I64)
      ensures View() == Clock(genesisTime, 0) && !started
    {
      this.genesisTime, blockOffset, started := genesisTime, 0, false;
    }

    function View(): Clock
      reads this
    {
      Clock(genesisTime, blockOffset)
    }

    /** SetGenesisTime: refused once started; an odd second is rounded down. */
    method SetGenesisTime(timestamp: I64) returns (ok: bool)
      modifies this
      ensures ok == !old(started) && started == old(started) && blockOffset == old(blockOffset)
      ensures ok ==> genesisTime % 2 == 0 && genesisTime <= timestamp < genesisTime + 2
      ensures !ok ==> genesisTime == old(genesisTime)
    {
      if started {
        return false;
      }
      var even := timestamp;
      if even % 2 != 0 {
        even := even - 1;
      }
      genesisTime := even;
      ok := true;
    }

    method SetBlockOffset(offset: U64) returns (ok: bool)
      modifies this
      ensures ok == !old(started) && started == old(started) && genesisTime == old(genesisTime)
      ensures blockOffset == if ok then offset else old(blockOffset)
    {
      if started {
        return false;
      }
      blockOffset := offset;
      ok := true;
    }

    method Start() returns (ok: bool)
      modifies this
      ensures ok <==> !old(started) && old(genesisTime) != 0
      ensures started == (old(started) || ok) && View() == old(View())
    {
      if started || genesisTime == 0 {
        return false;
      }
      started := true;
      ok := true;
    }

    method Stop()
      modifies this
      ensures !started && View() == old(View())
    {
      if !started {
        return;
      }
      started := false;
    }

    method CalculateCurrentBlockNumber(now: I64) returns (number: U64)
      ensures number == MachineNumber(View(), now)
    {
      if now < genesisTime {
        WrapSmall(blockOffset);
        return blockOffset;
      }
      var elapsed := ToI64(now - genesisTime);
      number := Wrap(blockOffset + Truncated(elapsed));
    }

    method CalculateBlockTime(number: U64) returns (time: I64)
      ensures time == MachineTime(View(), number)
    {
      if number < blockOffset {
        ToI64Exact(genesisTime);
        return genesisTime;
      }
      time := ToI64(genesisTime + (number - blockOffset) * blockTime);
    }

    /** timeControlLoop, fed the ticker's readings: the slots it triggers, in order. */
    method TimeControlLoop(readings: seq<I64>) returns (fires: seq<Fire>)
      ensures fires == MachineLoop(View(), readings).fires
      ensures InRange(View(), readings) ==> fires == Loop(View(), readings).fires
    {
      hide ToI64, Wrap, InRange;
      var last: U64 := blockOffset;
      fires := [];
      for i := 0 to |readings|
        invariant Memory(last, fires) == MachineLoop(View(), readings[..i])
      {
        assert readings[..i + 1][..i] == readings[..i];
        var now := readings[i];
        var number := CalculateCurrentBlockNumber(now);
        if number > last {
          var time := CalculateBlockTime(number);
          if now >= time {
            fires := fires + [Fire(now, time, number)];
            last := number;
          }
        }
      }
      assert readings[..|readings|] == readings;
      if InRange(View(), readings) { MachineLoopExact(View(), readings); }
    }

    /** ValidateSequence: accepted exactly when every timestamp is its slot's and the slots follow
        one another. */
    method ValidateSequence(headers: seq<BlockHeader>) returns (ok: bool)
      ensures ok <==> Punctual(View(), headers) && Follows(View(), headers)
    {
      hide Follows, TimeOf, ToI64;
      for i := 0 to |headers|
        invariant forall k :: 0 <= k < i ==> OnTimeAt(View(), headers, k) && SpacedAt(headers, k)
      {
        var expected := CalculateBlockTime(headers[i].number);
        if headers[i].timestamp != expected {
          assert !OnTimeAt(View(), headers, i);
          return false;
        }
        if i > 0 {
          if ToI64(headers[i].timestamp - headers[i - 1].timestamp) != BLOCK_SECONDS {
            assert !SpacedAt(headers, i);
            if Punctual(View(), headers) { PunctualSpacing(View(), headers); }
            return false;
          }
        }
      }
      PunctualSpacing(View(), headers);
      ok := true;
    }
  }
}
