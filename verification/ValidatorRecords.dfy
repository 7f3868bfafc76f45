/** What each operation does to each validator's record, field by field, who is active after a run, and
    who leads by rank. */
module ValidatorRecords {
  import opened Encoding
  import opened Types
  import opened Dpos
  import opened DposRuns

  // ---------- one operation ----------

  /** Everybody but `a` is in the set exactly as before. */
  ghost predicate OthersAlone(s: State, t: State, a: Address) {
    forall b: Address :: b != a ==> (Has(t, b) <==> Has(s, b)) && (Has(s, b) ==> RecordOf(t, b) == RecordOf(s, b))
  }

  /** Two records of one validator that differ at most in stake, delegation, power, activity and slash count. */
  predicate SamePerson(v: Validator, w: Validator) { v.address == w.address && v.publicKey == w.publicKey }

  predicate PowerIsSum(v: Validator) { v.power == (v.stake + v.delegated) % 0x1_0000_0000_0000_0000 }

  lemma {:induction false} SlotExists(vs: Validators, k: nat)
    requires k < |vs|
    ensures SlotOf(vs, vs[k].address) < |vs|
  {
    if k > 0 && vs[0].address != vs[k].address { SlotExists(vs[1..], k - 1); }
  }

  /** Nobody new comes in by an edit that keeps addresses. */
  lemma NobodyNew(vs: Validators, edited: Validators, after: Validators, b: Address)
    requires |edited| == |vs| && multiset(after) == multiset(edited)
    requires forall k :: 0 <= k < |vs| ==> edited[k].address == vs[k].address
    ensures SlotOf(after, b) < |after| ==> SlotOf(vs, b) < |vs|
  {
    if SlotOf(after, b) < |after| {
      PermutedMembers(edited, after);
      var r := after[SlotOf(after, b)];
      assert r in after;
      var k :| 0 <= k < |edited| && edited[k] == r;
      SlotExists(vs, k);
    }
  }

  /** The same addresses before and after, and every other record the same. */
  lemma Replaced(s: State, i: nat, v: Validator, t: State, a: Address)
    requires DistinctAddresses(s.validators) && DistinctAddresses(t.validators) && Has(s, a)
    requires i == SlotOf(s.validators, a) && v.address == a
    requires multiset(t.validators) == multiset(s.validators[i := v])
    ensures Has(t, a) && RecordOf(t, a) == v && OthersAlone(s, t, a)
  {
    var edited := s.validators[i := v];
    EditedMember(s.validators, i, v, t.validators, a);
    forall b: Address | b != a
      ensures (Has(t, b) <==> Has(s, b)) && (Has(s, b) ==> RecordOf(t, b) == RecordOf(s, b))
    {
      NobodyNew(s.validators, edited, t.validators, b);
      if Has(s, b) { EditedMember(s.validators, i, v, t.validators, b); }
    }
  }

  lemma Rewritten(s: State, v: Validator, t: State, a: Address)
    requires Inv(s) && Has(s, a) && v.address == a && PowerExact(v)
    requires EditSlot(s, SlotOf(s.validators, a), v, t)
    ensures Inv(t) && Has(t, a) && RecordOf(t, a) == v && OthersAlone(s, t, a)
  {
    var i := SlotOf(s.validators, a);
    EditSlotKeeps(s, i, v, t);
    hide OthersAlone;
    Replaced(s, i, v, t, a);
  }

  /** A slash: one count more; below three a tenth of the stake goes, from three on the validator is out. */
  lemma AfterSlash(s: State, a: Address, t: State)
    requires Inv(s) && Next(s, Slash(a), t, true)
    ensures Has(s, a) && Has(t, a) && OthersAlone(s, t, a)
    ensures var v, w := RecordOf(s, a), RecordOf(t, a);
            var count := (v.slashCount + 1) % 0x1_0000_0000_0000_0000;
            && SamePerson(v, w) && w.slashCount == count && w.delegated == v.delegated && PowerIsSum(w)
            && (w.active <==> v.active && count < 3)
            && w.stake == (if count < 3 then v.stake - v.stake / 10 else v.stake)
  {
    hide OthersAlone, EditSlot;
    MemberExact(s, SlotOf(s.validators, a));
    EditsExact(RecordOf(s, a));
    Rewritten(s, Slashed(RecordOf(s, a)), t, a);
  }

  /** A delegation adds its amount, in 64 bits, and touches nothing else. */
  lemma AfterDelegate(s: State, a: Address, amount: U64, t: State)
    requires Inv(s) && Next(s, Delegate(a, amount), t, true)
    ensures Has(s, a) && Has(t, a) && OthersAlone(s, t, a)
    ensures var v, w := RecordOf(s, a), RecordOf(t, a);
            && SamePerson(v, w) && w.stake == v.stake && w.active == v.active && w.slashCount == v.slashCount
            && w.delegated == (v.delegated + amount) % 0x1_0000_0000_0000_0000 && PowerIsSum(w)
  {
    hide OthersAlone, EditSlot;
    MemberExact(s, SlotOf(s.validators, a));
    EditsExact(RecordOf(s, a));
    Rewritten(s, MoreDelegated(RecordOf(s, a), amount), t, a);
  }

  /** An undelegation takes its amount off, and is refused beyond what is delegated. */
  lemma AfterUndelegate(s: State, a: Address, amount: U64, t: State, ok: bool)
    requires Inv(s) && Next(s, Undelegate(a, amount), t, ok)
    ensures ok <==> Has(s, a) && amount <= RecordOf(s, a).delegated
    ensures ok ==> Has(t, a) && OthersAlone(s, t, a)
    ensures ok ==>
              var v, w := RecordOf(s, a), RecordOf(t, a);
              && SamePerson(v, w) && w.stake == v.stake && w.active == v.active && w.slashCount == v.slashCount
              && w.delegated == v.delegated - amount && PowerIsSum(w)
  {
    hide OthersAlone, EditSlot;
    if ok {
      MemberExact(s, SlotOf(s.validators, a));
      EditsExact(RecordOf(s, a));
      Rewritten(s, LessDelegated(RecordOf(s, a), amount), t, a);
    }
  }

  /** A removal only ends a validator's activity; the record stays in the set, and is saved so. */
  lemma AfterRemove(s: State, a: Address, t: State)
    requires Inv(s) && Next(s, Remove(a), t, true)
    ensures Has(s, a) && Has(t, a) && OthersAlone(s, t, a)
    ensures var v, w := RecordOf(s, a), RecordOf(t, a);
            && SamePerson(v, w) && !w.active && w.stake == v.stake && w.delegated == v.delegated
            && w.power == v.power && w.slashCount == v.slashCount && t.history == s.history + [w]
  {
    NextKeepsInv(s, Remove(a), t, true);
    hide OthersAlone;
    Replaced(s, SlotOf(s.validators, a), Retired(RecordOf(s, a)), t, a);
  }

  /** An adjustment makes no difference but in activity: an active validator goes when unresponsive for
      more than 120 seconds, an inactive one comes back when responsive within 60. */
  lemma AfterAdjust(s: State, health: map<Address, Health>, now: int, t: State, a: Address)
    requires Inv(s) && Next(s, Adjust(health, now), t, true)
    ensures Has(t, a) <==> Has(s, a)
    ensures Has(s, a) ==>
              var v, w := RecordOf(s, a), RecordOf(t, a);
              && w == v.(active := w.active)
              && (a !in health ==> w.active == v.active)
              && (a in health ==>
                    var silent := now - health[a].lastHeartbeat;
                    w.active <==> if v.active then health[a].responsive || silent <= 120
                                  else health[a].responsive && silent <= 60)
  {
    NextKeepsInv(s, Adjust(health, now), t, true);
    NobodyNew(s.validators, AdjustedAll(s.validators, health, now), t.validators, a);
    if Has(s, a) { AdjustedMember(s, health, now, t, a); }
  }

  /** It saves exactly the records it changed, each once. */
  lemma AdjustSaves(s: State, health: map<Address, Health>, now: int, t: State) returns (changed: Validators)
    requires Inv(s) && Next(s, Adjust(health, now), t, true)
    ensures t.history == s.history + changed && DistinctAddresses(changed)
    ensures forall w :: w in changed <==>
              w in t.validators && Has(s, w.address) && RecordOf(s, w.address) != w
  {
    NextKeepsInv(s, Adjust(health, now), t, true);
    changed := AdjustedRecords(s.validators, health, now);
    var edited := AdjustedAll(s.validators, health, now);
    AdjustedDistinct(s.validators, health, now);
    PermutedMembers(edited, t.validators);
    hide AdjustedRecords, Adjusted, Sorted;
    forall w ensures w in changed <==> w in t.validators && Has(s, w.address) && RecordOf(s, w.address) != w {
      AdjustedMembers(s.validators, health, now, w);
      if w in changed {
        var v :| v in s.validators && w == Adjusted(v, health, now) && w != v;
        ChangedMember(s, health, now, edited, v);
      }
      if w in t.validators && Has(s, w.address) && RecordOf(s, w.address) != w {
        var k :| 0 <= k < |edited| && edited[k] == w;
        SameAddress(s.validators[k], health, now);
        MemberSlot(s.validators, s.validators[k]);
      }
    }
  }

  lemma ChangedMember(s: State, health: map<Address, Health>, now: int, edited: Validators, v: Validator)
    requires DistinctAddresses(s.validators) && v in s.validators
    requires edited == AdjustedAll(s.validators, health, now)
    ensures var w := Adjusted(v, health, now); w in edited && Has(s, w.address) && RecordOf(s, w.address) == v
  {
    SameAddress(v, health, now);
    MemberSlot(s.validators, v);
    var k :| 0 <= k < |s.validators| && s.validators[k] == v;
    assert edited[k] == Adjusted(v, health, now);
  }

  lemma {:induction false} AdjustedDistinct(vs: Validators, health: map<Address, Health>, now: int)
    requires DistinctAddresses(vs)
    ensures DistinctAddresses(AdjustedRecords(vs, health, now))
  {
    if vs != [] {
      var n := |vs| - 1;
      AdjustedDistinct(vs[..n], health, now);
      var fewer := AdjustedRecords(vs[..n], health, now);
      SameAddress(vs[n], health, now);
      forall i | 0 <= i < |fewer| ensures fewer[i].address != vs[n].address {
        AdjustedMembers(vs[..n], health, now, fewer[i]);
        var v :| v in vs[..n] && fewer[i] == Adjusted(v, health, now) && fewer[i] != v;
        SameAddress(v, health, now);
      }
      hide Adjusted;
    }
  }

  /** An addition is refused below a stake of 10000 or when already there. The newcomer is active whatever
      it says, with the power of its stake and delegation; nobody's record changes, and at most 21 stay. */
  lemma AfterAdd(s: State, v: Validator, t: State, ok: bool)
    requires Inv(s) && Next(s, Add(v), t, ok)
    ensures ok <==> !Has(s, v.address) && v.stake >= 10000
    ensures ok ==> |t.validators| == if |s.validators| < 21 then |s.validators| + 1 else 21
    ensures ok && Has(t, v.address) ==>
              var w := RecordOf(t, v.address);
              && SamePerson(v, w) && w.active && w.stake == v.stake && w.delegated == v.delegated
              && w.slashCount == v.slashCount && PowerIsSum(w)
    ensures ok ==> forall b: Address :: b != v.address && Has(t, b) ==> Has(s, b) && RecordOf(t, b) == RecordOf(s, b)
  {
    if ok {
      NextKeepsInv(s, Add(v), t, true);
      forall b: Address | Has(t, b)
        ensures if b == v.address then RecordOf(t, b) == Admitted(v) else Has(s, b) && RecordOf(t, b) == RecordOf(s, b)
      {
        AddedRecord(s, v, t, b);
      }
      hide Inv, Next, Has, RecordOf, Sorted;
      var out := AddKeepsTop(s, v, t);
    }
  }

  lemma AddedRecord(s: State, v: Validator, t: State, b: Address)
    requires Inv(s) && Inv(t) && Next(s, Add(v), t, true) && Has(t, b)
    ensures if b == v.address then RecordOf(t, b) == Admitted(v) else Has(s, b) && RecordOf(t, b) == RecordOf(s, b)
  {
    var m := Admitted(v);
    hide Records, RetiredAll, Sorted;
    var sorted: Validators :| Joins(s, m, sorted, t);
    PermutedMembers(s.validators + [m], sorted);
    var r := RecordOf(t, b);
    assert r in sorted;
    assert r in s.validators + [m];
    if r in s.validators {
      MemberSlot(s.validators, r);
    }
  }

  /** The first load of an empty storage leaves this node alone, active, with a stake of a million. */
  lemma AfterFirstLoad(self: Address, publicKey: Bytes, s: State, t: State)
    requires s.history == [] && Next(s, Load(self, publicKey), t, true)
    ensures t.validators == [Validator(self, publicKey, 1000000, 0, 1000000, true, 0)] && t.history == t.validators
  {}

  // ---------- who is active after a run ----------

  ghost predicate NoRecovery(ops: seq<Op>) { forall k :: 0 <= k < |ops| ==> !ops[k].Load? && !ops[k].Adjust? }

  function RemovalsOf(ops: seq<Op>, a: Address): nat {
    if ops == [] then 0 else RemovalsOf(ops[..|ops| - 1], a) + if ops[|ops| - 1] == Remove(a) then 1 else 0
  }

  /** One operation other than a load or an adjustment, seen by one member. */
  lemma ActivityStep(s: State, op: Op, t: State, ok: bool, a: Address)
    requires Inv(s) && Next(s, op, t, ok) && !op.Load? && !op.Adjust? && Has(s, a) && Has(t, a)
    ensures var v, w := RecordOf(s, a), RecordOf(t, a);
            && (w.slashCount == if op == Slash(a) then (v.slashCount + 1) % 0x1_0000_0000_0000_0000 else v.slashCount)
            && (w.active <==> v.active && op != Remove(a) && (op == Slash(a) ==> w.slashCount < 3))
  {
    hide Inv, Has, RecordOf, Effect;
    if ok {
      match op
      case Add(v) => AddRefusesMember(s, v, t, a); AfterAdd(s, v, t, ok);
      case Remove(b) => AfterRemove(s, b, t); OtherAlone(s, t, b, a);
      case Delegate(b, amount) => AfterDelegate(s, b, amount, t); OtherAlone(s, t, b, a);
      case Undelegate(b, amount) => AfterUndelegate(s, b, amount, t, ok); OtherAlone(s, t, b, a);
      case Slash(b) => AfterSlash(s, b, t); OtherAlone(s, t, b, a);
    } else {
      AlwaysServed(s, op, t, a);
    }
  }

  lemma OtherAlone(s: State, t: State, b: Address, a: Address)
    requires OthersAlone(s, t, b) && Has(s, a)
    ensures a != b ==> Has(t, a) && RecordOf(t, a) == RecordOf(s, a)
  {}

  lemma AddRefusesMember(s: State, v: Validator, t: State, a: Address)
    requires Next(s, Add(v), t, true) && Has(s, a)
    ensures v.address != a
  {}

  /** A member's slash or removal is never refused. */
  lemma AlwaysServed(s: State, op: Op, t: State, a: Address)
    requires Next(s, op, t, false) && Has(s, a)
    ensures t == s && op != Slash(a) && op != Remove(a)
  {}

  /** Who is active: over any run without loads and adjustments, a member is active exactly when it was at
      the start, was not removed, and was not slashed or its count is still below three. */
  lemma {:induction false} ActiveAfterRun(states: seq<State>, ops: seq<Op>, answers: seq<bool>, a: Address, n: nat)
    requires Trace(states, ops, answers) && Inv(states[0]) && NoRecovery(ops) && n < |states|
    requires forall k :: 0 <= k <= n ==> Has(states[k], a)
    requires RecordOf(states[0], a).slashCount + SlashesOf(ops[..n], a) < 0x1_0000_0000_0000_0000
    ensures var v, w, slashes := RecordOf(states[0], a), RecordOf(states[n], a), SlashesOf(ops[..n], a);
            && w.slashCount == v.slashCount + slashes
            && (w.active <==> v.active && RemovalsOf(ops[..n], a) == 0 && (slashes > 0 ==> v.slashCount + slashes < 3))
    decreases n
  {
    hide Next, Inv, Has, RecordOf;
    if n == 0 {
      assert ops[..0] == [];
    } else {
      assert ops[..n][..n - 1] == ops[..n - 1] && ops[..n][n - 1] == ops[n - 1];
      ActiveAfterRun(states, ops, answers, a, n - 1);
      RunKeepsInv(states, ops, answers, n - 1);
      assert Has(states[n - 1], a) && Has(states[n], a);
      assert Next(states[n - 1], ops[n - 1], states[n], answers[n - 1]);
      ActivityStep(states[n - 1], ops[n - 1], states[n], answers[n - 1], a);
    }
  }

  /** So the third slash is the last turn: from then on a validator is no active member and leads nothing,
      until a load or an adjustment. */
  lemma SlashedOut(states: seq<State>, ops: seq<Op>, answers: seq<bool>, a: Address, n: nat)
    requires Trace(states, ops, answers) && Inv(states[0]) && NoRecovery(ops) && n < |states|
    requires forall k :: 0 <= k <= n ==> Has(states[k], a)
    requires SlashesOf(ops[..n], a) > 0
    requires 3 <= RecordOf(states[0], a).slashCount + SlashesOf(ops[..n], a) < 0x1_0000_0000_0000_0000
    ensures !IsMember(states[n].validators, a)
    ensures forall height: U64 :: !IsCurrent(states[n].validators, a, height)
  {
    ActiveAfterRun(states, ops, answers, a, n);
    RunKeepsInv(states, ops, answers, n);
    assert Has(states[n], a);
    forall height: U64 ensures !IsCurrent(states[n].validators, a, height) {
      if IsCurrent(states[n].validators, a, height) { var b := OneLeader(states[n].validators, height); }
    }
  }

  // ---------- who leads, by rank ----------

  function CountActive(vs: Validators): nat {
    if vs == [] then 0 else CountActive(vs[..|vs| - 1]) + if vs[|vs| - 1].active then 1 else 0
  }

  lemma ActiveNext(vs: Validators)
    ensures vs == [] ==> Active(vs) == []
    ensures vs != [] ==>
              var n := |vs| - 1;
              && (vs[n].active ==> |Active(vs)| == |Active(vs[..n])| + 1 && Active(vs)[|Active(vs)| - 1] == vs[n])
              && (!vs[n].active ==> Active(vs) == Active(vs[..n]))
              && forall r :: 0 <= r < |Active(vs[..n])| ==> Active(vs)[r] == Active(vs[..n])[r]
  {}

  /** The r-th active validator is the one with r active ones before it. */
  lemma {:induction false} ActiveByRank(vs: Validators, r: nat) returns (i: nat)
    requires r < |Active(vs)|
    ensures i < |vs| && vs[i].active && vs[i] == Active(vs)[r] && CountActive(vs[..i]) == r
  {
    hide Active, CountActive;
    ActiveNext(vs);
    var n := |vs| - 1;
    ActiveCount(vs[..n]);
    if r < |Active(vs[..n])| {
      i := ActiveByRank(vs[..n], r);
      assert vs[..n][..i] == vs[..i];
    } else {
      i := n;
    }
  }

  lemma {:induction false} ActiveCount(vs: Validators)
    ensures |Active(vs)| == CountActive(vs)
  {
    if vs != [] { ActiveCount(vs[..|vs| - 1]); }
  }

  /** The leader of a height is the active validator with exactly height mod n active ones ranked before it. */
  lemma LeaderByRank(vs: Validators, height: U64) returns (i: nat)
    requires CountActive(vs) > 0
    ensures i < |vs| && vs[i].active && CurrentLeader(vs, height) == Leader(vs[i])
    ensures CountActive(vs[..i]) == height % CountActive(vs)
    ensures forall a: Address :: IsCurrent(vs, a, height) <==> a == vs[i].address
  {
    ActiveCount(vs);
    i := ActiveByRank(vs, height % CountActive(vs));
  }

  /** And an address is a member exactly when an active record of the set carries it. */
  lemma MemberIsActive(vs: Validators, a: Address)
    requires DistinctAddresses(vs)
    ensures IsMember(vs, a) <==> exists v :: v in vs && v.address == a && v.active
  {
    if v :| v in vs && v.address == a && v.active { MemberSlot(vs, v); }
    if IsMember(vs, a) { assert vs[SlotOf(vs, a)] in vs; }
  }
}
