/** The validator set: sorted by vote power, capped at 21, edited through slots that the next sort may
    hand to somebody else. */
module Dpos {
  import opened Encoding
  import opened Types

  datatype Validator = Validator(
    address: Address, publicKey: Bytes, stake: U64, delegated: U64, power: U64, active: bool, slashCount: U64)

  type Validators = seq<Validator>

  ghost predicate Sorted(vs: Validators) {
    forall i, j :: 0 <= i < j < |vs| ==> vs[i].power >= vs[j].power
  }

  ghost predicate DistinctAddresses(vs: Validators) {
    forall i, j :: 0 <= i < j < |vs| ==> vs[i].address != vs[j].address
  }

  /** Vote power is stake plus delegation, in 64 bits. */
  predicate PowerExact(v: Validator) { v.power == Wrap(v.stake + v.delegated) }

  ghost predicate AllExact(vs: Validators) { forall i :: 0 <= i < |vs| ==> PowerExact(vs[i]) }

  /** Which is the plain sum precisely where the sum fits. */
  lemma PlainSum(v: Validator)
    requires PowerExact(v)
    ensures v.power == v.stake + v.delegated <==> v.stake + v.delegated < 0x1_0000_0000_0000_0000
  {}

  /** What sort.Slice promises: the same validators, highest vote power first; ties in any order. */
  ghost predicate Resorted(before: Validators, after: Validators) {
    Sorted(after) && multiset(after) == multiset(before)
  }

  /** The slot GetValidator points at: the first with this address, or the length. */
  function SlotOf(vs: Validators, a: Address): (i: nat)
    ensures i <= |vs|
    ensures i < |vs| ==> vs[i].address == a
    ensures forall k :: 0 <= k < i ==> vs[k].address != a
  {
    if vs == [] then 0 else if vs[0].address == a then 0 else 1 + SlotOf(vs[1..], a)
  }

  // ---------- the edits ----------

  function Admitted(v: Validator): Validator { v.(power := Wrap(v.stake + v.delegated), active := true) }

  function Retired(v: Validator): Validator { v.(active := false) }

  function MoreDelegated(v: Validator, amount: U64): Validator {
    var d := Wrap(v.delegated + amount);
    v.(delegated := d, power := Wrap(v.stake + d))
  }

  function LessDelegated(v: Validator, amount: U64): Validator
    requires amount <= v.delegated
  {
    v.(delegated := v.delegated - amount, power := Wrap(v.stake + (v.delegated - amount)))
  }

  function Slashed(v: Validator): Validator {
    var c := Wrap(v.slashCount + 1);
    if c >= 3 then v.(slashCount := c, active := false)
    else
      var penalty := v.stake / 10;
      if v.stake > penalty then
        v.(slashCount := c, stake := v.stake - penalty, power := Wrap(v.stake - penalty + v.delegated))
      else v.(slashCount := c)
  }

  /** What the health checker reads of a node. */
  datatype Health = Health(lastHeartbeat: int, responsive: bool)

  function Adjusted(v: Validator, health: map<Address, Health>, now: int): Validator {
    if v.address !in health then v
    else
      var h := health[v.address];
      if v.active && !h.responsive && now - h.lastHeartbeat > 120 then v.(active := false)
      else if !v.active && h.responsive && now - h.lastHeartbeat <= 60 then v.(active := true)
      else v
  }

  function AdjustedAll(vs: Validators, health: map<Address, Health>, now: int): (r: Validators)
    ensures |r| == |vs|
    ensures forall i :: 0 <= i < |vs| ==> r[i] == Adjusted(vs[i], health, now)
  {
    if vs == [] then []
    else AdjustedAll(vs[..|vs| - 1], health, now) + [Adjusted(vs[|vs| - 1], health, now)]
  }

  /** The records the adjustment saves: the changed ones. */
  function AdjustedRecords(vs: Validators, health: map<Address, Health>, now: int): Validators {
    if vs == [] then []
    else
      var last := vs[|vs| - 1];
      AdjustedRecords(vs[..|vs| - 1], health, now)
      + if Adjusted(last, health, now) == last then [] else [Adjusted(last, health, now)]
  }

  function RetiredAll(vs: Validators): (r: Validators)
    ensures |r| == |vs|
    ensures forall i :: 0 <= i < |vs| ==> r[i] == Retired(vs[i])
  {
    if vs == [] then [] else RetiredAll(vs[..|vs| - 1]) + [Retired(vs[|vs| - 1])]
  }

  // ---------- the operations as a relation ----------

  /** The set, and every record ever saved, oldest first. */
  datatype State = State(validators: Validators, history: seq<Validator>)

  /** What storage holds: the latest record of each address. */
  function Records(history: seq<Validator>): map<Address, Validator> {
    if history == [] then map[]
    else Records(history[..|history| - 1])[history[|history| - 1].address := history[|history| - 1]]
  }

  datatype Op =
    | Add(validator: Validator)
    | Remove(address: Address)
    | Delegate(address: Address, amount: U64)
    | Undelegate(address: Address, amount: U64)
    | Slash(address: Address)
    | Adjust(health: map<Address, Health>, now: int)
    | Load(self: Address, publicKey: Bytes)

  /** An edit of slot i, then the sort, then a save of whatever slot i holds now. */
  ghost predicate EditSlot(s: State, i: nat, v: Validator, t: State) {
    && i < |s.validators| && Resorted(s.validators[i := v], t.validators)
    && |t.validators| == |s.validators| && t.history == s.history + [t.validators[i]]
  }

  function Cap(sorted: Validators): Validators {
    if |sorted| > VALIDATOR_COUNT then sorted[..VALIDATOR_COUNT] else sorted
  }

  function Evicted(sorted: Validators): Validators {
    if |sorted| > VALIDATOR_COUNT then sorted[VALIDATOR_COUNT..] else []
  }

  /** The newcomer appended and sorted in; everybody past the 21st saved as inactive; the newcomer saved. */
  ghost predicate Joins(s: State, v: Validator, sorted: Validators, t: State) {
    && Resorted(s.validators + [v], sorted)
    && t == State(Cap(sorted), s.history + RetiredAll(Evicted(sorted)) + [v])
  }

  ghost predicate Accepted(s: State, op: Op) {
    match op
    case Add(v) => SlotOf(s.validators, v.address) == |s.validators| && v.stake >= MIN_STAKE_AMOUNT
    case Remove(a) => SlotOf(s.validators, a) < |s.validators|
    case Delegate(a, _) => SlotOf(s.validators, a) < |s.validators|
    case Undelegate(a, amount) =>
      SlotOf(s.validators, a) < |s.validators| && amount <= s.validators[SlotOf(s.validators, a)].delegated
    case Slash(a) => SlotOf(s.validators, a) < |s.validators|
    case Adjust(_, _) => true
    case Load(_, _) => true
  }

  ghost predicate Effect(s: State, op: Op, t: State)
    requires Accepted(s, op)
  {
    match op
    case Add(v) => exists sorted :: Joins(s, Admitted(v), sorted, t)
    case Remove(a) =>
      var i := SlotOf(s.validators, a);
      var v := Retired(s.validators[i]);
      t == State(s.validators[i := v], s.history + [v])
    case Delegate(a, amount) =>
      var i := SlotOf(s.validators, a);
      EditSlot(s, i, MoreDelegated(s.validators[i], amount), t)
    case Undelegate(a, amount) =>
      var i := SlotOf(s.validators, a);
      EditSlot(s, i, LessDelegated(s.validators[i], amount), t)
    case Slash(a) =>
      var i := SlotOf(s.validators, a);
      EditSlot(s, i, Slashed(s.validators[i]), t)
    case Adjust(health, now) =>
      && Resorted(AdjustedAll(s.validators, health, now), t.validators)
      && t.history == s.history + AdjustedRecords(s.validators, health, now)
    case Load(self, publicKey) =>
      if Records(s.history) == map[] then
        t == State([DefaultValidator(self, publicKey)], s.history + [DefaultValidator(self, publicKey)])
      else Loaded(Records(s.history), t.validators) && t.history == s.history
  }

  /** The node's own record where none is stored. */
  function DefaultValidator(self: Address, publicKey: Bytes): Validator {
    Validator(self, publicKey, 1000000, 0, 1000000, true, 0)
  }

  /** Exactly the saved records, highest vote power first, whatever the cap says. */
  ghost predicate Loaded(saved: map<Address, Validator>, vs: Validators) {
    && Sorted(vs) && DistinctAddresses(vs)
    && forall v :: v in vs <==> v.address in saved && saved[v.address] == v
  }

  /** One call: its effect, or its error and no effect. */
  ghost predicate Next(s: State, op: Op, t: State, ok: bool) {
    ok == Accepted(s, op) && (if ok then Effect(s, op, t) else t == s)
  }

  // ---------- the invariant ----------

  ghost predicate Inv(s: State) {
    DistinctAddresses(s.validators) && Sorted(s.validators) && AllExact(s.validators) && AllExact(s.history)
  }

  lemma TwiceInMultiset(vs: Validators, i: nat, j: nat)
    requires i < j < |vs| && vs[i] == vs[j]
    ensures multiset(vs)[vs[i]] >= 2
  {
    assert vs == vs[..i] + [vs[i]] + vs[i + 1..j] + [vs[j]] + vs[j + 1..];
  }

  lemma OnceInMultiset(vs: Validators, k: nat)
    requires DistinctAddresses(vs) && k < |vs|
    ensures multiset(vs)[vs[k]] == 1
  {
    assert vs == vs[..k] + [vs[k]] + vs[k + 1..];
    assert vs[k] !in vs[..k] && vs[k] !in vs[k + 1..];
  }

  lemma PermutedMembers(before: Validators, after: Validators)
    requires multiset(before) == multiset(after)
    ensures |before| == |after|
    ensures forall v :: v in before <==> v in after
  {
    assert |multiset(before)| == |before| && |multiset(after)| == |after|;
    forall v ensures v in before <==> v in after {
      assert v in before <==> v in multiset(before);
      assert v in after <==> v in multiset(after);
    }
  }

  lemma PermutedDistinct(before: Validators, after: Validators)
    requires multiset(before) == multiset(after) && DistinctAddresses(before)
    ensures DistinctAddresses(after)
  {
    PermutedMembers(before, after);
    forall i, j | 0 <= i < j < |after| ensures after[i].address != after[j].address {
      assert after[i] in before && after[j] in before;
      var k :| 0 <= k < |before| && before[k] == after[i];
      if after[i] == after[j] {
        TwiceInMultiset(after, i, j);
        OnceInMultiset(before, k);
      } else {
        var m :| 0 <= m < |before| && before[m] == after[j];
        assert before[k].address != before[m].address by {
          if k < m {} else { assert m < k; }
        }
      }
    }
  }

  /** Sorting keeps addresses distinct and vote powers exact. */
  lemma ResortedKeeps(before: Validators, after: Validators)
    requires Resorted(before, after)
    ensures |before| == |after|
    ensures DistinctAddresses(before) ==> DistinctAddresses(after)
    ensures AllExact(before) ==> AllExact(after)
    ensures forall v :: v in before <==> v in after
  {
    PermutedMembers(before, after);
    if DistinctAddresses(before) {
      PermutedDistinct(before, after);
    }
    if AllExact(before) {
      forall i | 0 <= i < |after| ensures PowerExact(after[i]) {
        assert after[i] in before;
      }
    }
  }

  lemma EditSlotKeeps(s: State, i: nat, v: Validator, t: State)
    requires Inv(s) && EditSlot(s, i, v, t) && v.address == s.validators[i].address && PowerExact(v)
    ensures Inv(t)
  {
    ResortedKeeps(s.validators[i := v], t.validators);
  }

  lemma EditsExact(v: Validator)
    requires PowerExact(v)
    ensures forall amount: U64 :: PowerExact(MoreDelegated(v, amount)) && MoreDelegated(v, amount).address == v.address
    ensures forall amount: U64 :: amount <= v.delegated ==>
              PowerExact(LessDelegated(v, amount)) && LessDelegated(v, amount).address == v.address
    ensures PowerExact(Slashed(v)) && Slashed(v).address == v.address
  {}

  lemma AppendKeeps(vs: Validators, v: Validator)
    requires DistinctAddresses(vs) && AllExact(vs) && SlotOf(vs, v.address) == |vs| && PowerExact(v)
    ensures DistinctAddresses(vs + [v]) && AllExact(vs + [v])
  {
    hide PowerExact;
  }

  lemma CapKeeps(sorted: Validators)
    requires DistinctAddresses(sorted) && Sorted(sorted) && AllExact(sorted)
    ensures DistinctAddresses(Cap(sorted)) && Sorted(Cap(sorted)) && AllExact(Cap(sorted)) && AllExact(Evicted(sorted))
  {
    hide PowerExact;
  }

  lemma HistoryGrows(history: seq<Validator>, evicted: Validators, v: Validator)
    requires AllExact(history) && AllExact(evicted) && PowerExact(v)
    ensures AllExact(history + RetiredAll(evicted) + [v])
  {
    forall i | 0 <= i < |evicted| ensures PowerExact(RetiredAll(evicted)[i]) {}
    hide PowerExact;
  }

  lemma AddKeeps(s: State, v: Validator, sorted: Validators, t: State)
    requires Inv(s) && SlotOf(s.validators, v.address) == |s.validators| && PowerExact(v)
    requires Joins(s, v, sorted, t)
    ensures Inv(t)
  {
    hide PowerExact, DistinctAddresses, Sorted, AllExact, Cap, Evicted, RetiredAll;
    AppendKeeps(s.validators, v);
    ResortedKeeps(s.validators + [v], sorted);
    CapKeeps(sorted);
    HistoryGrows(s.history, Evicted(sorted), v);
  }

  lemma {:induction false} RecordsExact(vs: Validators, health: map<Address, Health>, now: int)
    requires AllExact(vs)
    ensures AllExact(AdjustedRecords(vs, health, now))
  {
    if vs != [] {
      RecordsExact(vs[..|vs| - 1], health, now);
    }
  }

  lemma AdjustKeeps(s: State, health: map<Address, Health>, now: int, t: State)
    requires Inv(s) && Effect(s, Adjust(health, now), t)
    ensures Inv(t)
  {
    RecordsExact(s.validators, health, now);
    ResortedKeeps(AdjustedAll(s.validators, health, now), t.validators);
  }

  /** The set's invariant, under every operation: distinct addresses, descending vote power, and vote
      power equal to stake plus delegation for every member and every record ever saved. */
  lemma NextKeepsInv(s: State, op: Op, t: State, ok: bool)
    requires Inv(s) && Next(s, op, t, ok)
    ensures Inv(t)
  {
    hide EditSlot, Inv, Joins, MoreDelegated, LessDelegated, Slashed, Admitted, PowerExact, Resorted, Records, Loaded;
    if ok {
      match op
      case Add(v) =>
        var sorted :| Joins(s, Admitted(v), sorted, t);
        AdmittedExact(v);
        AddKeeps(s, Admitted(v), sorted, t);
      case Remove(a) => RemoveKeeps(s, SlotOf(s.validators, a), t);
      case Delegate(a, amount) =>
        MemberExact(s, SlotOf(s.validators, a));
        EditsExact(s.validators[SlotOf(s.validators, a)]);
        EditSlotKeeps(s, SlotOf(s.validators, a), MoreDelegated(s.validators[SlotOf(s.validators, a)], amount), t);
      case Undelegate(a, amount) =>
        MemberExact(s, SlotOf(s.validators, a));
        EditsExact(s.validators[SlotOf(s.validators, a)]);
        EditSlotKeeps(s, SlotOf(s.validators, a), LessDelegated(s.validators[SlotOf(s.validators, a)], amount), t);
      case Slash(a) =>
        MemberExact(s, SlotOf(s.validators, a));
        EditsExact(s.validators[SlotOf(s.validators, a)]);
        EditSlotKeeps(s, SlotOf(s.validators, a), Slashed(s.validators[SlotOf(s.validators, a)]), t);
      case Adjust(health, now) => AdjustKeeps(s, health, now, t);
      case Load(self, publicKey) => LoadKeeps(s, self, publicKey, t);
    }
  }

  lemma {:induction false} SavedExact(history: seq<Validator>, a: Address)
    requires AllExact(history) && a in Records(history)
    ensures PowerExact(Records(history)[a])
  {
    if Records(history[..|history| - 1]) != map[] && history[|history| - 1].address != a {
      SavedExact(history[..|history| - 1], a);
    }
  }

  lemma LoadKeeps(s: State, self: Address, publicKey: Bytes, t: State)
    requires Inv(s) && Effect(s, Load(self, publicKey), t)
    ensures Inv(t)
  {
    if Records(s.history) != map[] {
      forall i | 0 <= i < |t.validators| ensures PowerExact(t.validators[i]) {
        assert t.validators[i] in t.validators;
        SavedExact(s.history, t.validators[i].address);
      }
    }
  }

  lemma MemberExact(s: State, i: nat)
    requires Inv(s) && i < |s.validators|
    ensures PowerExact(s.validators[i])
  {}

  lemma AdmittedExact(v: Validator)
    ensures PowerExact(Admitted(v)) && Admitted(v).address == v.address
  {}

  lemma RemoveKeeps(s: State, i: nat, t: State)
    requires Inv(s) && i < |s.validators|
    requires t == State(s.validators[i := Retired(s.validators[i])], s.history + [Retired(s.validators[i])])
    ensures Inv(t)
  {}

  // ---------- leaders ----------

  /** The active validators, in order. */
  function Active(vs: Validators): (r: Validators)
    ensures |r| <= |vs|
    ensures forall v :: v in r <==> v in vs && v.active
  {
    if vs == [] then []
    else Active(vs[..|vs| - 1]) + if vs[|vs| - 1].active then [vs[|vs| - 1]] else []
  }

  datatype Leader = NoLeader | Leader(validator: Validator)

  function CurrentLeader(vs: Validators, height: U64): Leader {
    var active := Active(vs);
    if active == [] then NoLeader else Leader(active[height % |active|])
  }

  predicate IsCurrent(vs: Validators, a: Address, height: U64) {
    CurrentLeader(vs, height).Leader? && CurrentLeader(vs, height).validator.address == a
  }

  predicate IsMember(vs: Validators, a: Address) {
    SlotOf(vs, a) < |vs| && vs[SlotOf(vs, a)].active
  }

  // ---------- the consensus object ----------

  class DPoSConsensus {
    var validators: Validators
    var saved: map<Address, Validator>
    ghost var history: seq<Validator>

    ghost predicate Valid()
      reads this
    {
      saved == Records(history)
    }

    ghost function View(): State
      reads this
    {
      State(validators, history)
    }

    constructor ()
      ensures Valid() && View() == State([], [])
    {
      validators, saved, history := [], map[], [];
    }

    method SaveValidator(v: Validator)
      requires Valid()
      modifies this`saved, this`history
      ensures Valid() && history == old(history) + [v] && saved == old(saved)[v.address := v]
    {
      assert (history + [v])[..|history|] == history;
      saved := saved[v.address := v];
      history := history + [v];
    }

    /** sortValidators; the order of ties is not promised. */
    method SortValidators()
      modifies this`validators
      ensures Resorted(old(validators), validators)
    {
      hide Sorted, Resorted;
      NoneSorted();
      ghost var before := validators;
      var sorted: Validators := [];
      for i := 0 to |validators|
        invariant validators == before
        invariant Resorted(before[..i], sorted)
      {
        var k := 0;
        while k < |sorted| && sorted[k].power >= validators[i].power
          invariant k <= |sorted|
          invariant forall j :: 0 <= j < k ==> sorted[j].power >= validators[i].power
        {
          k := k + 1;
        }
        Inserted(before[..i], sorted, validators[i], k);
        assert before[..i + 1] == before[..i] + [before[i]];
        sorted := sorted[..k] + [validators[i]] + sorted[k..];
      }
      assert before[..|before|] == before;
      validators := sorted;
    }

    /** The slot of an address, or the length; ValidatorSet.GetValidator's loop. */
    method FindSlot(a: Address) returns (i: nat)
      ensures i == SlotOf(validators, a)
    {
      i := 0;
      while i < |validators|
        invariant i <= |validators|
        invariant SlotOf(validators, a) == i + SlotOf(validators[i..], a)
      {
        if validators[i].address == a {
          return;
        }
        i := i + 1;
      }
    }

    /** AddValidator. */
    method AddValidator(v: Validator) returns (ok: bool)
      requires Valid()
      modifies this
      ensures Valid() && Next(old(View()), Add(v), View(), ok)
    {
      hide Records, Resorted, RetiredAll, Evicted, Cap;
      var slot := FindSlot(v.address);
      if slot < |validators| {
        return false;
      }
      if v.stake < MIN_STAKE_AMOUNT {
        return false;
      }
      ghost var s := View();
      var admitted := v.(power := Wrap(v.stake + v.delegated), active := true);
      validators := validators + [admitted];
      SortValidators();
      ghost var sorted := validators;
      RetireSurplus();
      SaveValidator(admitted);
      assert Joins(s, Admitted(v), sorted, View());
      ok := true;
    }

    /** The cut to 21; everybody past it is saved as inactive. */
    method RetireSurplus()
      requires Valid()
      modifies this
      ensures Valid() && validators == Cap(old(validators))
      ensures history == old(history) + RetiredAll(Evicted(old(validators)))
    {
      hide Records;
      if |validators| > VALIDATOR_COUNT {
        var removed := validators[VALIDATOR_COUNT..];
        validators := validators[..VALIDATOR_COUNT];
        for i := 0 to |removed|
          invariant Valid() && validators == Cap(old(validators))
          invariant history == old(history) + RetiredAll(removed[..i])
        {
          assert removed[..i + 1][..i] == removed[..i];
          SaveValidator(removed[i].(active := false));
        }
        assert removed[..|removed|] == removed;
      }
    }

    method RemoveValidator(a: Address) returns (ok: bool)
      requires Valid()
      modifies this
      ensures Valid() && Next(old(View()), Remove(a), View(), ok)
    {
      hide Records;
      var i := FindSlot(a);
      if i == |validators| {
        return false;
      }
      validators := validators[i := validators[i].(active := false)];
      SaveValidator(validators[i]);
      ok := true;
    }

    /** Writes slot i, sorts, saves slot i. */
    method Rewrite(i: nat, v: Validator)
      requires Valid() && i < |validators|
      modifies this
      ensures Valid() && EditSlot(old(View()), i, v, View())
    {
      hide Records, Sorted;
      validators := validators[i := v];
      SortValidators();
      PermutedMembers(old(validators)[i := v], validators);
      SaveValidator(validators[i]);
    }

    method DelegateTo(a: Address, amount: U64) returns (ok: bool)
      requires Valid()
      modifies this
      ensures Valid() && Next(old(View()), Delegate(a, amount), View(), ok)
    {
      hide Records, EditSlot;
      var i := FindSlot(a);
      if i == |validators| {
        return false;
      }
      var v := validators[i];
      v := v.(delegated := Wrap(v.delegated + amount));
      v := v.(power := Wrap(v.stake + v.delegated));
      Rewrite(i, v);
      ok := true;
    }

    method UndelegateFrom(a: Address, amount: U64) returns (ok: bool)
      requires Valid()
      modifies this
      ensures Valid() && Next(old(View()), Undelegate(a, amount), View(), ok)
    {
      hide Records, EditSlot;
      var i := FindSlot(a);
      if i == |validators| {
        return false;
      }
      var v := validators[i];
      if v.delegated < amount {
        return false;
      }
      v := v.(delegated := v.delegated - amount);
      v := v.(power := Wrap(v.stake + v.delegated));
      Rewrite(i, v);
      ok := true;
    }

    method SlashValidator(a: Address) returns (ok: bool)
      requires Valid()
      modifies this
      ensures Valid() && Next(old(View()), Slash(a), View(), ok)
    {
      hide Records, EditSlot;
      var i := FindSlot(a);
      if i == |validators| {
        return false;
      }
      var v := validators[i];
      v := v.(slashCount := Wrap(v.slashCount + 1));
      if v.slashCount >= 3 {
        v := v.(active := false);
      } else {
        var penalty := v.stake / 10;
        if v.stake > penalty {
          v := v.(stake := v.stake - penalty);
          v := v.(power := Wrap(v.stake + v.delegated));
        }
      }
      Rewrite(i, v);
      ok := true;
    }

    /** autoAdjustValidators, given one clock reading. */
    method AutoAdjust(health: map<Address, Health>, now: int)
      requires Valid()
      modifies this
      ensures Valid() && Next(old(View()), Adjust(health, now), View(), true)
    {
      hide Records, Resorted, Adjusted, AdjustedAll, AdjustedRecords;
      ghost var s := View();
      NoneAdjusted(health, now);
      for i := 0 to |validators|
        invariant Valid() && |validators| == |s.validators|
        invariant validators[i..] == s.validators[i..]
        invariant validators[..i] == AdjustedAll(s.validators[..i], health, now)
        invariant history == s.history + AdjustedRecords(s.validators[..i], health, now)
      {
        assert validators[i] == validators[i..][0] == s.validators[i];
        OneMoreAdjusted(s.validators, i, health, now);
        ghost var before := validators;
        AdjustSlot(i, health, now);
        assert validators[..i + 1] == before[..i] + [validators[i]];
        assert validators[i + 1..] == before[i..][1..] == s.validators[i..][1..];
      }
      assert s.validators[..|validators|] == s.validators && validators[..|validators|] == validators;
      SortValidators();
    }

    /** The loop's body for one slot. */
    method AdjustSlot(i: nat, health: map<Address, Health>, now: int)
      requires Valid() && i < |validators|
      modifies this
      ensures Valid()
      ensures var v := old(validators)[i];
              && validators == old(validators)[i := Adjusted(v, health, now)]
              && history == old(history) + if Adjusted(v, health, now) == v then [] else [Adjusted(v, health, now)]
    {
      hide Records;
      var v := validators[i];
      if v.address in health {
        var h := health[v.address];
        if v.active && !h.responsive && now - h.lastHeartbeat > 120 {
          validators := validators[i := v.(active := false)];
          SaveValidator(validators[i]);
        }
        v := validators[i];
        if !v.active && h.responsive && now - h.lastHeartbeat <= 60 {
          validators := validators[i := v.(active := true)];
          SaveValidator(validators[i]);
        }
      }
    }

    method GetActiveValidators() returns (active: Validators)
      ensures active == Active(validators)
    {
      active := [];
      for i := 0 to |validators|
        invariant active == Active(validators[..i])
      {
        assert validators[..i + 1][..i] == validators[..i];
        if validators[i].active {
          active := active + [validators[i]];
        }
      }
      assert validators[..|validators|] == validators;
    }

    method GetCurrentValidator(height: U64) returns (leader: Leader)
      ensures leader == CurrentLeader(validators, height)
    {
      var active := GetActiveValidators();
      if |active| == 0 {
        return NoLeader;
      }
      leader := Leader(active[height % |active|]);
    }

    method IsValidator(a: Address) returns (yes: bool)
      ensures yes == IsMember(validators, a)
    {
      var i := FindSlot(a);
      yes := i < |validators| && validators[i].active;
    }

    method IsCurrentValidator(a: Address, height: U64) returns (yes: bool)
      ensures yes == IsCurrent(validators, a, height)
    {
      var leader := GetCurrentValidator(height);
      yes := leader.Leader? && leader.validator.address == a;
    }

    /** loadValidatorSet: every saved record whatever the cap says, or this node alone if there is none. */
    method LoadValidatorSet(self: Address, publicKey: Bytes)
      requires Valid()
      modifies this
      ensures Valid() && Next(old(View()), Load(self, publicKey), View(), true)
    {
      hide Records;
      if saved == map[] {
        var v := Validator(self, publicKey, 1000000, 0, 1000000, true, 0);
        SaveValidator(v);
        validators := [v];
        return;
      }
      RecordsKeyed(history);
      var pending := saved.Keys;
      var loaded: Validators := [];
      while pending != {}
        invariant pending <= saved.Keys
        invariant DistinctAddresses(loaded)
        invariant forall v :: v in loaded <==> v.address in saved && v.address !in pending && saved[v.address] == v
      {
        var a :| a in pending;
        pending := pending - {a};
        loaded := loaded + [saved[a]];
      }
      validators := loaded;
      SortValidators();
      ResortedKeeps(loaded, validators);
    }
  }

  lemma {:induction false} RecordsKeyed(history: seq<Validator>)
    ensures forall a :: a in Records(history) ==> Records(history)[a].address == a
  {
    if history != [] { RecordsKeyed(history[..|history| - 1]); }
  }

  lemma NoneSorted()
    ensures Resorted([], [])
  {}

  lemma NoneAdjusted(health: map<Address, Health>, now: int)
    ensures AdjustedAll([], health, now) == [] && AdjustedRecords([], health, now) == []
  {}

  lemma OneMoreAdjusted(vs: Validators, i: nat, health: map<Address, Health>, now: int)
    requires i < |vs|
    ensures AdjustedAll(vs[..i + 1], health, now) == AdjustedAll(vs[..i], health, now) + [Adjusted(vs[i], health, now)]
    ensures AdjustedRecords(vs[..i + 1], health, now) == AdjustedRecords(vs[..i], health, now)
            + if Adjusted(vs[i], health, now) == vs[i] then [] else [Adjusted(vs[i], health, now)]
  {
    assert vs[..i + 1][..i] == vs[..i];
  }

  lemma Inserted(before: Validators, sorted: Validators, v: Validator, k: nat)
    requires Resorted(before, sorted) && k <= |sorted|
    requires forall j :: 0 <= j < k ==> sorted[j].power >= v.power
    requires k < |sorted| ==> sorted[k].power < v.power
    ensures Resorted(before + [v], sorted[..k] + [v] + sorted[k..])
  {
    InsertedSorted(sorted, v, k);
    InsertedSame(sorted, v, k);
    hide Sorted;
  }

  lemma InsertedSame(sorted: Validators, v: Validator, k: nat)
    requires k <= |sorted|
    ensures multiset(sorted[..k] + [v] + sorted[k..]) == multiset(sorted) + multiset{v}
  {
    assert sorted == sorted[..k] + sorted[k..];
  }

  lemma InsertedSorted(sorted: Validators, v: Validator, k: nat)
    requires Sorted(sorted) && k <= |sorted|
    requires forall j :: 0 <= j < k ==> sorted[j].power >= v.power
    requires k < |sorted| ==> sorted[k].power < v.power
    ensures Sorted(sorted[..k] + [v] + sorted[k..])
  {
    var r := sorted[..k] + [v] + sorted[k..];
    forall i, j | 0 <= i < j < |r| ensures r[i].power >= r[j].power {
      assert r[i] == if i < k then sorted[i] else if i == k then v else sorted[i - 1];
      assert r[j] == if j < k then sorted[j] else if j == k then v else sorted[j - 1];
    }
  }
}
