/** What the validator set's operations amount to: who is admitted, whose record is saved, who leads,
    and how much slashing can take. */
module DposRuns {
  import opened Encoding
  import opened Types
  import opened Dpos

  /** A run: states, the operation between each two, and its answer. */
  ghost predicate Trace(states: seq<State>, ops: seq<Op>, answers: seq<bool>) {
    && |states| == |ops| + 1 && |answers| == |ops|
    && forall k :: 0 <= k < |ops| ==> Next(states[k], ops[k], states[k + 1], answers[k])
  }

  /** The invariant at every state of every run that starts with it. */
  lemma {:induction false} RunKeepsInv(states: seq<State>, ops: seq<Op>, answers: seq<bool>, k: nat)
    requires Trace(states, ops, answers) && Inv(states[0]) && k < |states|
    ensures Inv(states[k])
  {
    hide Next, Inv;
    if k > 0 {
      RunKeepsInv(states, ops, answers, k - 1);
      assert Next(states[k - 1], ops[k - 1], states[k], answers[k - 1]);
      NextKeepsInv(states[k - 1], ops[k - 1], states[k], answers[k - 1]);
    }
  }

  // ---------- ranks in a sorted set ----------

  function CountAtLeast(vs: Validators, p: int): (n: nat)
    ensures n <= |vs|
  {
    if vs == [] then 0 else CountAtLeast(vs[..|vs| - 1], p) + if vs[|vs| - 1].power >= p then 1 else 0
  }

  lemma {:induction false} CountWithout(vs: Validators, k: nat, p: int)
    requires k < |vs|
    ensures CountAtLeast(vs, p) == CountAtLeast(vs[..k] + vs[k + 1..], p) + if vs[k].power >= p then 1 else 0
    decreases |vs|
  {
    var n := |vs| - 1;
    var without := vs[..k] + vs[k + 1..];
    if k == n {
      assert without == vs[..n];
    } else {
      CountWithout(vs[..n], k, p);
      assert without[..n - 1] == vs[..n][..k] + vs[..n][k + 1..];
      assert without[n - 1] == vs[n];
    }
  }

  lemma PermutedWithout(a: Validators, b: Validators) returns (k: nat)
    requires a != [] && multiset(a) == multiset(b)
    ensures k < |b| && b[k] == a[|a| - 1]
    ensures multiset(a[..|a| - 1]) == multiset(b[..k] + b[k + 1..])
  {
    var x := a[|a| - 1];
    assert x in multiset(b);
    k :| 0 <= k < |b| && b[k] == x;
    assert a == a[..|a| - 1] + [x];
    assert b == b[..k] + [x] + b[k + 1..];
    assert multiset(a) == multiset(a[..|a| - 1]) + multiset{x};
    assert multiset(b) == multiset(b[..k] + b[k + 1..]) + multiset{x};
    assert multiset(a[..|a| - 1]) == multiset(a) - multiset{x};
  }

  lemma {:induction false} CountPermuted(a: Validators, b: Validators, p: int)
    requires multiset(a) == multiset(b)
    ensures CountAtLeast(a, p) == CountAtLeast(b, p)
    decreases |a|
  {
    PermutedMembers(a, b);
    if a != [] {
      var k := PermutedWithout(a, b);
      CountPermuted(a[..|a| - 1], b[..k] + b[k + 1..], p);
      CountWithout(b, k, p);
    }
  }

  /** In a sorted set the members of power at least p are those of rank below their count. */
  lemma {:induction false} CountSorted(vs: Validators, p: int, j: nat)
    requires Sorted(vs) && j < |vs|
    ensures vs[j].power >= p <==> j < CountAtLeast(vs, p)
    decreases |vs|
  {
    var n := |vs| - 1;
    if vs[n].power >= p {
      AllAtLeast(vs, p);
    } else if j < n {
      CountSorted(vs[..n], p, j);
    }
  }

  lemma {:induction false} AllAtLeast(vs: Validators, p: int)
    requires forall i :: 0 <= i < |vs| ==> vs[i].power >= p
    ensures CountAtLeast(vs, p) == |vs|
  {
    if vs != [] { AllAtLeast(vs[..|vs| - 1], p); }
  }

  lemma CountUpdated(vs: Validators, i: nat, v: Validator, p: int)
    requires i < |vs|
    ensures CountAtLeast(vs[i := v], p) - (if v.power >= p then 1 else 0)
            == CountAtLeast(vs, p) - if vs[i].power >= p then 1 else 0
  {
    CountWithout(vs, i, p);
    CountWithout(vs[i := v], i, p);
    assert vs[i := v][..i] + vs[i := v][i + 1..] == vs[..i] + vs[i + 1..];
  }

  /** Where a record whose power changed ends up after the sort: strictly between its old neighbours'
      powers it keeps its slot; strictly past one of them it loses it. Ties are the sort's choice. */
  lemma EditedSlot(vs: Validators, i: nat, v: Validator, after: Validators, j: nat)
    requires Sorted(vs) && i < |vs| && Resorted(vs[i := v], after) && j < |after| && after[j] == v
    ensures (i > 0 ==> vs[i - 1].power > v.power) && (i + 1 < |vs| ==> v.power > vs[i + 1].power) ==> j == i
    ensures (i > 0 && v.power > vs[i - 1].power) || (i + 1 < |vs| && v.power < vs[i + 1].power) ==> j != i
  {
    RankAt(vs, i, v, after, j, v.power);
    RankAt(vs, i, v, after, j, v.power + 1);
    hide Sorted, CountAtLeast;
    if i > 0 { CountSorted(vs, v.power, i - 1); CountSorted(vs, v.power + 1, i - 1); }
    if i + 1 < |vs| { CountSorted(vs, v.power, i + 1); CountSorted(vs, v.power + 1, i + 1); }
    CountSorted(vs, v.power, i);
    CountSorted(vs, v.power + 1, i);
  }

  lemma RankAt(vs: Validators, i: nat, v: Validator, after: Validators, j: nat, p: int)
    requires i < |vs| && Resorted(vs[i := v], after) && j < |after| && after[j] == v
    ensures v.power >= p <==> j < CountAtLeast(after, p)
    ensures CountAtLeast(after, p)
            == CountAtLeast(vs, p) + (if v.power >= p then 1 else 0) - (if vs[i].power >= p then 1 else 0)
  {
    CountPermuted(vs[i := v], after, p);
    CountUpdated(vs, i, v, p);
    CountSorted(after, p, j);
  }

  ghost predicate Has(s: State, a: Address) { SlotOf(s.validators, a) < |s.validators| }

  function RecordOf(s: State, a: Address): Validator
    requires Has(s, a)
  {
    s.validators[SlotOf(s.validators, a)]
  }

  // ---------- which record is saved ----------

  lemma SavedLast(history: seq<Validator>, v: Validator)
    ensures Records(history + [v]) == Records(history)[v.address := v]
  {
    assert (history + [v])[..|history|] == history;
  }

  /** An edit that changes a record saves whatever the slot holds after the sort. With storage in step
      before, the edited validator's saved record is its new one if its power stays strictly between
      its neighbours', and stays the old one if it passes either of them. */
  lemma EditedRecord(s: State, i: nat, v: Validator, t: State)
    requires Inv(s) && EditSlot(s, i, v, t) && v.address == s.validators[i].address && PowerExact(v)
    requires v.address in Records(s.history) && Records(s.history)[v.address] == s.validators[i]
    ensures v in t.validators && v.address in Records(t.history)
    ensures (i > 0 ==> s.validators[i - 1].power > v.power)
            && (i + 1 < |s.validators| ==> v.power > s.validators[i + 1].power) ==>
              Records(t.history)[v.address] == v
    ensures i > 0 && v.power > s.validators[i - 1].power ==> Records(t.history)[v.address] == s.validators[i]
    ensures i + 1 < |s.validators| && v.power < s.validators[i + 1].power ==>
              Records(t.history)[v.address] == s.validators[i]
  {
    hide Records, PowerExact, Sorted, Resorted;
    InvParts(s);
    EditSlotKeeps(s, i, v, t);
    InvParts(t);
    SavedLast(s.history, t.validators[i]);
    var j := EditedPlace(s.validators, i, v, t.validators);
    if j < i { assert t.validators[j].address != t.validators[i].address; }
    if i < j { assert t.validators[i].address != t.validators[j].address; }
  }

  lemma InvParts(s: State)
    requires Inv(s)
    ensures Sorted(s.validators) && DistinctAddresses(s.validators)
    ensures forall i :: 0 < i < |s.validators| ==> s.validators[i - 1].power >= s.validators[i].power
  {}

  /** A delegation without wrap-around only rises: its record goes stale exactly by passing the
      predecessor, ties aside. */
  lemma DelegateRecord(s: State, a: Address, amount: U64, t: State)
    requires Inv(s) && Next(s, Delegate(a, amount), t, true)
    requires var v := s.validators[SlotOf(s.validators, a)];
             && a in Records(s.history) && Records(s.history)[a] == v
             && amount > 0 && v.stake + v.delegated + amount < 0x1_0000_0000_0000_0000
    ensures var i := SlotOf(s.validators, a);
            var v := MoreDelegated(s.validators[i], amount);
            && v in t.validators && v != s.validators[i] && a in Records(t.history)
            && (i == 0 || v.power < s.validators[i - 1].power ==> Records(t.history)[a] == v)
            && (i > 0 && v.power > s.validators[i - 1].power ==> Records(t.history)[a] == s.validators[i])
  {
    var i := SlotOf(s.validators, a);
    MemberExact(s, i);
    MoreIsMore(s.validators[i], amount);
    hide MoreDelegated, PowerExact, Records, EditSlot;
    InvParts(s);
    EditedRecord(s, i, MoreDelegated(s.validators[i], amount), t);
  }

  lemma MoreIsMore(v: Validator, amount: U64)
    requires PowerExact(v) && amount > 0 && v.stake + v.delegated + amount < 0x1_0000_0000_0000_0000
    ensures MoreDelegated(v, amount).power > v.power && MoreDelegated(v, amount).address == v.address
    ensures PowerExact(MoreDelegated(v, amount))
  {}

  /** An undelegation only falls: its record goes stale exactly by dropping past the successor. */
  lemma UndelegateRecord(s: State, a: Address, amount: U64, t: State)
    requires Inv(s) && Next(s, Undelegate(a, amount), t, true)
    requires var v := s.validators[SlotOf(s.validators, a)];
             && a in Records(s.history) && Records(s.history)[a] == v
             && amount > 0 && v.stake + v.delegated < 0x1_0000_0000_0000_0000
    ensures var i := SlotOf(s.validators, a);
            var v := LessDelegated(s.validators[i], amount);
            && v in t.validators && v != s.validators[i] && a in Records(t.history)
            && (i + 1 == |s.validators| || v.power > s.validators[i + 1].power ==> Records(t.history)[a] == v)
            && (i + 1 < |s.validators| && v.power < s.validators[i + 1].power ==>
                  Records(t.history)[a] == s.validators[i])
  {
    var i := SlotOf(s.validators, a);
    MemberExact(s, i);
    LessIsLess(s.validators[i], amount);
    hide LessDelegated, PowerExact, Records, EditSlot;
    InvParts(s);
    EditedRecord(s, i, LessDelegated(s.validators[i], amount), t);
  }

  lemma LessIsLess(v: Validator, amount: U64)
    requires PowerExact(v) && 0 < amount <= v.delegated && v.stake + v.delegated < 0x1_0000_0000_0000_0000
    ensures LessDelegated(v, amount).power < v.power && LessDelegated(v, amount).address == v.address
    ensures PowerExact(LessDelegated(v, amount))
  {}

  /** So does a slash that reduces the stake; past the successor, the next load brings the unslashed
      record back. */
  lemma SlashRecord(s: State, a: Address, t: State)
    requires Inv(s) && Next(s, Slash(a), t, true)
    requires var v := s.validators[SlotOf(s.validators, a)];
             && a in Records(s.history) && Records(s.history)[a] == v
             && v.stake >= 10 && v.slashCount < 2 && v.stake + v.delegated < 0x1_0000_0000_0000_0000
    ensures var i := SlotOf(s.validators, a);
            var v := Slashed(s.validators[i]);
            && v in t.validators && v.slashCount == s.validators[i].slashCount + 1 && a in Records(t.history)
            && (i + 1 == |s.validators| || v.power > s.validators[i + 1].power ==> Records(t.history)[a] == v)
            && (i + 1 < |s.validators| && v.power < s.validators[i + 1].power ==>
                  Records(t.history)[a] == s.validators[i])
  {
    var i := SlotOf(s.validators, a);
    MemberExact(s, i);
    SlashIsLess(s.validators[i]);
    hide Slashed, PowerExact, Records, EditSlot;
    InvParts(s);
    EditedRecord(s, i, Slashed(s.validators[i]), t);
  }

  lemma SlashIsLess(v: Validator)
    requires PowerExact(v) && v.stake >= 10 && v.slashCount < 2 && v.stake + v.delegated < 0x1_0000_0000_0000_0000
    ensures Slashed(v).power < v.power && Slashed(v).address == v.address && Slashed(v).slashCount == v.slashCount + 1
    ensures PowerExact(Slashed(v))
  {
    WrapSmall(v.slashCount + 1);
    WrapSmall(v.stake + v.delegated);
    WrapSmall(v.stake - v.stake / 10 + v.delegated);
    hide Wrap;
  }

  lemma EditedPlace(vs: Validators, i: nat, v: Validator, after: Validators) returns (j: nat)
    requires Sorted(vs) && i < |vs| && Resorted(vs[i := v], after)
    ensures j < |after| && after[j] == v && v in after
    ensures (i > 0 ==> vs[i - 1].power > v.power) && (i + 1 < |vs| ==> v.power > vs[i + 1].power) ==> j == i
    ensures (i > 0 && v.power > vs[i - 1].power) || (i + 1 < |vs| && v.power < vs[i + 1].power) ==> j != i
  {
    var edited := vs[i := v];
    PermutedMembers(edited, after);
    assert edited[i] == v;
    assert v in after;
    j :| 0 <= j < |after| && after[j] == v;
    EditedSlot(vs, i, v, after, j);
  }

  // ---------- admission ----------

  /** A successful AddValidator keeps exactly the top min(21, n) by vote power of the old set plus the
      newcomer: nothing is invented or lost, and nobody left out outranks anybody kept. */
  lemma AddKeepsTop(s: State, v: Validator, t: State) returns (out: Validators)
    requires Inv(s) && Next(s, Add(v), t, true)
    ensures multiset(t.validators) + multiset(out) == multiset(s.validators + [Admitted(v)])
    ensures |t.validators| == if |s.validators| + 1 <= VALIDATOR_COUNT then |s.validators| + 1 else VALIDATOR_COUNT
    ensures forall i, j :: 0 <= i < |t.validators| && 0 <= j < |out| ==> t.validators[i].power >= out[j].power
    ensures t.history == s.history + RetiredAll(out) + [Admitted(v)]
  {
    hide Admitted, Resorted, Cap, Evicted, RetiredAll, Inv, Sorted;
    var sorted: Validators :| Joins(s, Admitted(v), sorted, t);
    ResortedIs(s.validators + [Admitted(v)], sorted);
    PermutedMembers(s.validators + [Admitted(v)], sorted);
    CutAtCap(sorted);
    out := Evicted(sorted);
  }

  lemma ResortedIs(before: Validators, after: Validators)
    requires Resorted(before, after)
    ensures Sorted(after) && multiset(after) == multiset(before)
  {}

  lemma CutAtCap(sorted: Validators)
    requires Sorted(sorted)
    ensures multiset(Cap(sorted)) + multiset(Evicted(sorted)) == multiset(sorted)
    ensures |Cap(sorted)| == if |sorted| <= VALIDATOR_COUNT then |sorted| else VALIDATOR_COUNT
    ensures forall i, j :: 0 <= i < |Cap(sorted)| && 0 <= j < |Evicted(sorted)| ==>
              Cap(sorted)[i].power >= Evicted(sorted)[j].power
  {
    assert sorted == Cap(sorted) + Evicted(sorted);
  }

  /** Whether a newcomer to a full set gets in is decided by the 21st place; a tie there is the sort's
      choice. Either way its saved record says active. */
  lemma NewcomerRank(s: State, v: Validator, t: State)
    requires Inv(s) && Next(s, Add(v), t, true)
    ensures |s.validators| < VALIDATOR_COUNT ==> Admitted(v) in t.validators
    ensures |s.validators| >= VALIDATOR_COUNT && Admitted(v).power > s.validators[VALIDATOR_COUNT - 1].power ==>
              Admitted(v) in t.validators
    ensures |s.validators| >= VALIDATOR_COUNT && Admitted(v).power < s.validators[VALIDATOR_COUNT - 1].power ==>
              SlotOf(t.validators, v.address) == |t.validators|
    ensures v.address in Records(t.history) && Records(t.history)[v.address] == Admitted(v)
  {
    var m := Admitted(v);
    hide Records, RetiredAll, Admitted, Sorted;
    var sorted: Validators :| Joins(s, m, sorted, t);
    AdmittedExact(v);
    SavedLast(s.history + RetiredAll(Evicted(sorted)), m);
    AppendKeeps(s.validators, m);
    ResortedKeeps(s.validators + [m], sorted);
    assert (s.validators + [m])[|s.validators|] == m;
    assert m in sorted;
    var j :| 0 <= j < |sorted| && sorted[j] == m;
    JoinRank(s, m, sorted, j);
    KeptByCap(sorted, j);
  }

  lemma KeptByCap(sorted: Validators, j: nat)
    requires DistinctAddresses(sorted) && j < |sorted|
    ensures j < VALIDATOR_COUNT ==> sorted[j] in Cap(sorted)
    ensures j >= VALIDATOR_COUNT ==> SlotOf(Cap(sorted), sorted[j].address) == |Cap(sorted)|
  {
    var kept := Cap(sorted);
    forall i | 0 <= i < |kept| ensures kept[i] == sorted[i] {}
    if j < VALIDATOR_COUNT {
      assert kept[j] == sorted[j];
    }
  }

  lemma JoinRank(s: State, m: Validator, sorted: Validators, j: nat)
    requires Sorted(s.validators) && Resorted(s.validators + [m], sorted) && j < |sorted| && sorted[j] == m
    ensures |s.validators| >= VALIDATOR_COUNT && m.power > s.validators[VALIDATOR_COUNT - 1].power ==>
              j < VALIDATOR_COUNT
    ensures |s.validators| >= VALIDATOR_COUNT && m.power < s.validators[VALIDATOR_COUNT - 1].power ==>
              j >= VALIDATOR_COUNT
  {
    var all := s.validators + [m];
    assert all[..|s.validators|] == s.validators;
    CountPermuted(all, sorted, m.power);
    CountPermuted(all, sorted, m.power + 1);
    CountSorted(sorted, m.power, j);
    CountSorted(sorted, m.power + 1, j);
    if |s.validators| >= VALIDATOR_COUNT {
      CountSorted(s.validators, m.power, VALIDATOR_COUNT - 1);
      CountSorted(s.validators, m.power + 1, VALIDATOR_COUNT - 1);
    }
  }

  /** What loading makes of the saved records: each address has its saved one, and the members are the
      active ones. */
  lemma LoadedRecord(t: State, self: Address, publicKey: Bytes, u: State, a: Address)
    requires Next(t, Load(self, publicKey), u, true) && a in Records(t.history)
    ensures Has(u, a) && RecordOf(u, a) == Records(t.history)[a]
    ensures IsMember(u.validators, a) <==> Records(t.history)[a].active
  {
    RecordsKeyed(t.history);
    assert Records(t.history)[a] in u.validators;
    MemberSlot(u.validators, Records(t.history)[a]);
  }

  lemma MemberSlot(vs: Validators, v: Validator)
    requires DistinctAddresses(vs) && v in vs
    ensures SlotOf(vs, v.address) < |vs| && vs[SlotOf(vs, v.address)] == v
  {
    var i :| 0 <= i < |vs| && vs[i] == v;
    var k := SlotOf(vs, v.address);
    assert k <= i;
  }

  /** So a newcomer turned away from a full set is active again after the next load. */
  lemma EvictedNewcomerReturns(s: State, v: Validator, t: State, self: Address, publicKey: Bytes, u: State)
    requires Inv(s) && Next(s, Add(v), t, true) && Next(t, Load(self, publicKey), u, true)
    requires |s.validators| >= VALIDATOR_COUNT && Admitted(v).power < s.validators[VALIDATOR_COUNT - 1].power
    ensures !IsMember(t.validators, v.address) && IsMember(u.validators, v.address)
  {
    NewcomerRank(s, v, t);
    hide Inv, Next, Records;
    LoadedRecord(t, self, publicKey, u, v.address);
  }

  /** And a slash that drops a validator past its successor is undone by the next load. */
  lemma SlashUndoneByLoad(s: State, a: Address, t: State, self: Address, publicKey: Bytes, u: State)
    requires Inv(s) && Next(s, Slash(a), t, true) && Next(t, Load(self, publicKey), u, true) && Has(s, a)
    requires var i := SlotOf(s.validators, a);
             var v := s.validators[i];
             && a in Records(s.history) && Records(s.history)[a] == v
             && v.stake >= 10 && v.slashCount < 2 && v.stake + v.delegated < 0x1_0000_0000_0000_0000
             && i + 1 < |s.validators| && Slashed(v).power < s.validators[i + 1].power
    ensures Has(u, a) && RecordOf(u, a) == RecordOf(s, a)
  {
    SlashRecord(s, a, t);
    hide Inv, Next, Records, Slashed;
    LoadedRecord(t, self, publicKey, u, a);
  }

  // ---------- storage in step with the set ----------

  /** Every member's saved record is its current one. */
  ghost predicate InStep(s: State) {
    forall i :: 0 <= i < |s.validators| ==> SavedAs(s, s.validators[i])
  }

  ghost predicate SavedAs(s: State, v: Validator) {
    v.address in Records(s.history) && Records(s.history)[v.address] == v
  }

  /** The slot an operation edits and the record it writes there. */
  function EditOf(s: State, op: Op): (nat, Validator)
    requires Accepted(s, op) && (op.Delegate? || op.Undelegate? || op.Slash?)
  {
    var i := SlotOf(s.validators, op.address);
    (i, if op.Delegate? then MoreDelegated(s.validators[i], op.amount)
        else if op.Undelegate? then LessDelegated(s.validators[i], op.amount)
        else Slashed(s.validators[i]))
  }

  /** An edit that changes nothing, or whose sort leaves the edited record in its slot. */
  ghost predicate KeepsSlot(s: State, op: Op, t: State)
    requires Accepted(s, op)
  {
    op.Delegate? || op.Undelegate? || op.Slash? ==>
      var (i, v) := EditOf(s, op);
      v == s.validators[i] || (i < |t.validators| && t.validators[i] == v)
  }

  lemma EditInStep(s: State, i: nat, v: Validator, t: State)
    requires Inv(s) && InStep(s) && EditSlot(s, i, v, t) && v.address == s.validators[i].address
    ensures InStep(t) <==> v == s.validators[i] || t.validators[i] == v
  {
    var edited := s.validators[i := v];
    ResortedKeeps(edited, t.validators);
    SavedLast(s.history, t.validators[i]);
    assert edited[i] == v;
    assert v in t.validators;
    hide Records, Resorted;
    forall k | 0 <= k < |t.validators| && t.validators[k] != v
      ensures SavedAs(s, t.validators[k]) && t.validators[k].address != v.address
    {
      MemberOfEdit(s, i, v, t.validators[k]);
    }
    if v != s.validators[i] && t.validators[i] != v {
      var j :| 0 <= j < |t.validators| && t.validators[j] == v;
      assert SavedAs(s, s.validators[i]);
      assert !SavedAs(t, t.validators[j]);
    } else {
      assert SavedAs(s, s.validators[i]);
      forall k | 0 <= k < |t.validators| ensures SavedAs(t, t.validators[k]) {}
    }
  }

  /** The other members of an edited set are members of the old one, under other addresses. */
  lemma MemberOfEdit(s: State, i: nat, v: Validator, w: Validator)
    requires Inv(s) && InStep(s) && i < |s.validators| && v.address == s.validators[i].address
    requires w in s.validators[i := v] && w != v
    ensures SavedAs(s, w) && w.address != v.address
  {
    var k :| 0 <= k < |s.validators| && s.validators[i := v][k] == w;
    assert k != i && w == s.validators[k];
    if k < i { assert s.validators[k].address != s.validators[i].address; }
    else { assert s.validators[i].address != s.validators[k].address; }
    hide Records;
  }

  lemma {:induction false} SavedAmong(history: seq<Validator>, more: seq<Validator>, v: Validator)
    requires v in more && forall w :: w in more && w.address == v.address ==> w == v
    ensures v.address in Records(history + more) && Records(history + more)[v.address] == v
    decreases |more|
  {
    var n := |more| - 1;
    assert (history + more)[..|history + more| - 1] == history + more[..n];
    if more[n].address == v.address {
    } else {
      assert more == more[..n] + [more[n]];
      SavedAmong(history, more[..n], v);
    }
  }

  lemma {:induction false} SavedBefore(history: seq<Validator>, more: seq<Validator>, a: Address)
    requires forall w :: w in more ==> w.address != a
    ensures a in Records(history + more) <==> a in Records(history)
    ensures a in Records(history) ==> Records(history + more)[a] == Records(history)[a]
    decreases |more|
  {
    if more == [] {
      assert history + more == history;
    } else {
      var n := |more| - 1;
      assert (history + more)[..|history + more| - 1] == history + more[..n];
      assert more[n] in more && forall w :: w in more[..n] ==> w in more;
      SavedBefore(history, more[..n], a);
    }
  }

  lemma RemoveInStep(s: State, a: Address, t: State)
    requires Inv(s) && InStep(s) && Next(s, Remove(a), t, true)
    ensures InStep(t)
  {
    var i := SlotOf(s.validators, a);
    SavedLast(s.history, Retired(s.validators[i]));
    hide Records;
    forall k | 0 <= k < |t.validators| ensures SavedAs(t, t.validators[k]) {
      assert SavedAs(s, s.validators[k]);
      if k < i { assert s.validators[k].address != s.validators[i].address; }
      if i < k { assert s.validators[i].address != s.validators[k].address; }
    }
  }

  lemma {:induction false} RetiredMembers(vs: Validators, w: Validator)
    requires w in RetiredAll(vs)
    ensures exists v :: v in vs && w == Retired(v)
  {
    var k :| 0 <= k < |RetiredAll(vs)| && RetiredAll(vs)[k] == w;
    assert vs[k] in vs && w == Retired(vs[k]);
  }

  lemma AddInStep(s: State, v: Validator, t: State)
    requires Inv(s) && InStep(s) && Next(s, Add(v), t, true)
    ensures InStep(t)
  {
    var m := Admitted(v);
    var sorted: Validators :| Joins(s, m, sorted, t);
    AdmittedExact(v);
    AppendKeeps(s.validators, m);
    ResortedKeeps(s.validators + [m], sorted);
    hide Admitted, Records, RetiredAll, Resorted, Evicted, Sorted, AllExact, InStep;
    assert DistinctAddresses(sorted) && |sorted| == |s.validators + [m]|;
    forall k | 0 <= k < |t.validators| ensures SavedAs(t, t.validators[k]) {
      assert t.validators[k] in sorted;
      KeptSaved(s, m, sorted, k);
    }
    AllSaved(t);
  }

  lemma AllSaved(t: State)
    requires forall k :: 0 <= k < |t.validators| ==> SavedAs(t, t.validators[k])
    ensures InStep(t)
  {}

  lemma KeptSaved(s: State, m: Validator, sorted: Validators, k: nat)
    requires InStep(s) && DistinctAddresses(sorted) && SlotOf(s.validators, m.address) == |s.validators|
    requires k < |Cap(sorted)| && Cap(sorted)[k] in s.validators + [m]
    ensures SavedAs(State(Cap(sorted), s.history + RetiredAll(Evicted(sorted)) + [m]), Cap(sorted)[k])
  {
    hide Records, RetiredAll, Evicted, Cap;
    var w := Cap(sorted)[k];
    SavedLast(s.history + RetiredAll(Evicted(sorted)), m);
    if w != m {
      assert w in s.validators;
      assert SavedAs(s, w);
      EvictedElsewhere(sorted, k);
      SavedBefore(s.history, RetiredAll(Evicted(sorted)), w.address);
      OtherThanNewcomer(s.validators, m, w);
    }
  }

  lemma OtherThanNewcomer(vs: Validators, m: Validator, w: Validator)
    requires w in vs && SlotOf(vs, m.address) == |vs|
    ensures w.address != m.address
  {}

  lemma EvictedPlace(sorted: Validators, v: Validator, k: nat)
    requires v in Evicted(sorted) && k < |Cap(sorted)|
    ensures exists j :: k < j < |sorted| && sorted[j] == v
    ensures Cap(sorted)[k] == sorted[k]
  {
    var j :| 0 <= j < |Evicted(sorted)| && Evicted(sorted)[j] == v;
    assert v == sorted[VALIDATOR_COUNT + j];
  }

  lemma EvictedElsewhere(sorted: Validators, k: nat)
    requires DistinctAddresses(sorted) && k < |Cap(sorted)|
    ensures forall w :: w in RetiredAll(Evicted(sorted)) ==> w.address != Cap(sorted)[k].address
  {
    hide RetiredAll, Evicted, Cap;
    forall w | w in RetiredAll(Evicted(sorted)) ensures w.address != Cap(sorted)[k].address {
      RetiredMembers(Evicted(sorted), w);
      var v :| v in Evicted(sorted) && w == Retired(v);
      EvictedPlace(sorted, v, k);
    }
  }

  lemma {:induction false} AdjustedMembers(vs: Validators, health: map<Address, Health>, now: int, w: Validator)
    ensures w in AdjustedRecords(vs, health, now)
            <==> exists v :: v in vs && w == Adjusted(v, health, now) && w != v
  {
    if vs != [] {
      var n := |vs| - 1;
      hide Adjusted;
      assert vs == vs[..n] + [vs[n]];
      AdjustedMembers(vs[..n], health, now, w);
    }
  }

  lemma SameAddress(v: Validator, health: map<Address, Health>, now: int)
    ensures Adjusted(v, health, now).address == v.address
  {}

  lemma DistinctMembers(vs: Validators, v: Validator, w: Validator)
    requires DistinctAddresses(vs) && v in vs && w in vs && v.address == w.address
    ensures v == w
  {
    MemberSlot(vs, v);
    MemberSlot(vs, w);
  }

  lemma AdjustOneInStep(s: State, health: map<Address, Health>, now: int, v: Validator)
    requires Inv(s) && InStep(s) && v in s.validators
    ensures var w := Adjusted(v, health, now);
            var history := s.history + AdjustedRecords(s.validators, health, now);
            w.address in Records(history) && Records(history)[w.address] == w
  {
    var w := Adjusted(v, health, now);
    var more := AdjustedRecords(s.validators, health, now);
    assert SavedAs(s, v);
    SameAddress(v, health, now);
    forall u | u in more && u.address == w.address ensures u == w {
      AdjustedMembers(s.validators, health, now, u);
      var x :| x in s.validators && u == Adjusted(x, health, now) && u != x;
      SameAddress(x, health, now);
      DistinctMembers(s.validators, v, x);
    }
    hide Adjusted, AdjustedRecords, Inv, Records;
    AdjustedMembers(s.validators, health, now, w);
    if w in more {
      SavedAmong(s.history, more, w);
    } else {
      SavedBefore(s.history, more, w.address);
    }
  }

  lemma AdjustInStep(s: State, health: map<Address, Health>, now: int, t: State)
    requires Inv(s) && InStep(s) && Next(s, Adjust(health, now), t, true)
    ensures InStep(t)
  {
    var edited := AdjustedAll(s.validators, health, now);
    PermutedMembers(edited, t.validators);
    hide Adjusted, AdjustedRecords, Inv, Records;
    forall k | 0 <= k < |t.validators| ensures SavedAs(t, t.validators[k]) {
      assert t.validators[k] in edited;
      var j :| 0 <= j < |edited| && edited[j] == t.validators[k];
      AdjustOneInStep(s, health, now, s.validators[j]);
    }
  }

  lemma LoadInStep(s: State, self: Address, publicKey: Bytes, t: State)
    requires Next(s, Load(self, publicKey), t, true)
    ensures InStep(t)
  {
    if Records(s.history) == map[] {
      SavedLast(s.history, DefaultValidator(self, publicKey));
    } else {
      forall k | 0 <= k < |t.validators| ensures SavedAs(t, t.validators[k]) {
        assert t.validators[k] in t.validators;
      }
    }
  }

  /** One operation keeps storage in step exactly when it keeps its slot. */
  lemma StepInStep(s: State, op: Op, t: State, ok: bool)
    requires Inv(s) && InStep(s) && Next(s, op, t, ok)
    ensures InStep(t) <==> !ok || KeepsSlot(s, op, t)
  {
    if ok {
      hide Inv, InStep, EditSlot;
      match op
      case Add(v) => AddInStep(s, v, t);
      case Remove(a) => RemoveInStep(s, a, t);
      case Delegate(a, amount) => EditOpInStep(s, op, t);
      case Undelegate(a, amount) => EditOpInStep(s, op, t);
      case Slash(a) => EditOpInStep(s, op, t);
      case Adjust(health, now) => AdjustInStep(s, health, now, t);
      case Load(self, publicKey) => LoadInStep(s, self, publicKey, t);
    }
  }

  lemma EditOpInStep(s: State, op: Op, t: State)
    requires Inv(s) && InStep(s) && Next(s, op, t, true) && (op.Delegate? || op.Undelegate? || op.Slash?)
    ensures InStep(t) <==> KeepsSlot(s, op, t)
  {
    var (i, v) := EditOf(s, op);
    SlashedAddress(s.validators[i]);
    hide Inv, InStep, Slashed;
    assert EditSlot(s, i, v, t);
    EditInStep(s, i, v, t);
  }

  /** Over any run that starts in step, say right after a load: storage is in step at every state exactly
      when every edit of the run keeps its slot. */
  lemma {:induction false} RunInStep(states: seq<State>, ops: seq<Op>, answers: seq<bool>)
    requires Trace(states, ops, answers) && Inv(states[0]) && InStep(states[0])
    ensures (forall k :: 0 <= k < |states| ==> InStep(states[k]))
            <==> forall k :: 0 <= k < |ops| && answers[k] ==>
                   Accepted(states[k], ops[k]) && KeepsSlot(states[k], ops[k], states[k + 1])
  {
    hide Inv, InStep, KeepsSlot;
    if forall k :: 0 <= k < |states| ==> InStep(states[k]) {
      forall k | 0 <= k < |ops| && answers[k]
        ensures Accepted(states[k], ops[k]) && KeepsSlot(states[k], ops[k], states[k + 1])
      {
        RunKeepsInv(states, ops, answers, k);
        assert Next(states[k], ops[k], states[k + 1], answers[k]);
        assert InStep(states[k]) && InStep(states[k + 1]);
        StepInStep(states[k], ops[k], states[k + 1], answers[k]);
      }
    } else if forall k :: 0 <= k < |ops| && answers[k] ==>
                Accepted(states[k], ops[k]) && KeepsSlot(states[k], ops[k], states[k + 1]) {
      forall k | 0 <= k < |states| ensures InStep(states[k]) { InStepUpTo(states, ops, answers, k); }
    }
  }

  lemma {:induction false} InStepUpTo(states: seq<State>, ops: seq<Op>, answers: seq<bool>, k: nat)
    requires Trace(states, ops, answers) && Inv(states[0]) && InStep(states[0]) && k < |states|
    requires forall j :: 0 <= j < |ops| && answers[j] ==>
               Accepted(states[j], ops[j]) && KeepsSlot(states[j], ops[j], states[j + 1])
    ensures InStep(states[k])
  {
    hide Inv, InStep, KeepsSlot;
    if k > 0 {
      InStepUpTo(states, ops, answers, k - 1);
      RunKeepsInv(states, ops, answers, k - 1);
      assert Next(states[k - 1], ops[k - 1], states[k], answers[k - 1]);
      StepInStep(states[k - 1], ops[k - 1], states[k], answers[k - 1]);
    }
  }

  // ---------- leader rotation ----------

  lemma {:induction false} ActiveDistinct(vs: Validators)
    requires DistinctAddresses(vs)
    ensures DistinctAddresses(Active(vs))
  {
    if vs != [] {
      var n := |vs| - 1;
      ActiveDistinct(vs[..n]);
      var fewer := Active(vs[..n]);
      forall i | 0 <= i < |fewer| ensures fewer[i].address != vs[n].address {
        assert fewer[i] in vs[..n];
      }
    }
  }

  /** A validator's place among the active ones. */
  lemma Place(vs: Validators, a: Address) returns (r: nat)
    requires DistinctAddresses(vs) && IsMember(vs, a)
    ensures r < |Active(vs)| && Active(vs)[r].address == a
    ensures forall height: U64 :: IsCurrent(vs, a, height) <==> height % |Active(vs)| == r
  {
    var v := vs[SlotOf(vs, a)];
    assert v in Active(vs);
    r :| 0 <= r < |Active(vs)| && Active(vs)[r] == v;
    ActiveDistinct(vs);
  }

  /** At each height exactly one address leads, and it is an active validator. */
  lemma OneLeader(vs: Validators, height: U64) returns (a: Address)
    requires DistinctAddresses(vs) && Active(vs) != []
    ensures IsCurrent(vs, a, height) && IsMember(vs, a)
    ensures forall b: Address :: IsCurrent(vs, b, height) ==> b == a
  {
    var v := Active(vs)[height % |Active(vs)|];
    a := v.address;
    assert v in Active(vs);
    MemberSlot(vs, v);
  }

  /** How many of `len` consecutive heights an address leads. */
  function LeadCount(vs: Validators, a: Address, from: nat, len: nat): nat
    requires from + len <= 0x1_0000_0000_0000_0000
  {
    if len == 0 then 0
    else LeadCount(vs, a, from, len - 1) + if IsCurrent(vs, a, from + len - 1) then 1 else 0
  }

  predicate Hit(n: nat, r: nat, height: nat)
    requires n > 0
  {
    height % n == r
  }

  function Hits(n: nat, r: nat, from: nat, len: nat): nat
    requires n > 0
  {
    if len == 0 then 0 else Hits(n, r, from, len - 1) + if Hit(n, r, from + len - 1) then 1 else 0
  }

  lemma {:induction false} HitsFront(n: nat, r: nat, from: nat, len: nat)
    requires n > 0 && len > 0
    ensures Hits(n, r, from, len) == Hits(n, r, from + 1, len - 1) + if Hit(n, r, from) then 1 else 0
    decreases len
  {
    hide Hit;
    if len > 1 {
      HitsFront(n, r, from, len - 1);
      assert from + 1 + (len - 1) - 1 == from + len - 1;
    }
  }

  lemma SmallHeight(n: nat, r: nat, height: nat)
    requires r < n && height < n
    ensures Hit(n, r, height) <==> height == r
  {}

  lemma {:induction false} HitsFromZero(n: nat, r: nat, len: nat)
    requires r < n && len <= n
    ensures Hits(n, r, 0, len) == if r < len then 1 else 0
  {
    hide Hit;
    if len > 0 {
      HitsFromZero(n, r, len - 1);
      SmallHeight(n, r, len - 1);
    }
  }

  lemma Multiples(n: nat, d: int)
    ensures d >= 1 ==> n * d >= n
    ensures d <= -1 ==> n * d <= 0 - n
  {}

  lemma OneTurnLater(x: nat, n: nat)
    requires n > 0
    ensures (x + n) % n == x % n
  {
    var d := (x + n) / n - x / n - 1;
    assert n * d == n * ((x + n) / n) - n * (x / n) - n;
    Multiples(n, d);
  }

  lemma HitAgain(n: nat, r: nat, height: nat)
    requires n > 0
    ensures Hit(n, r, height + n) == Hit(n, r, height)
  {
    OneTurnLater(height, n);
  }

  /** Any n consecutive heights hit each residue once. */
  lemma {:induction false} HitsInTurn(n: nat, r: nat, from: nat)
    requires r < n
    ensures Hits(n, r, from, n) == 1
  {
    hide Hit;
    if from == 0 {
      HitsFromZero(n, r, n);
    } else {
      HitsInTurn(n, r, from - 1);
      HitsFront(n, r, from - 1, n);
      HitAgain(n, r, from - 1);
      assert from + n - 1 == from - 1 + n;
    }
  }

  lemma {:induction false} HitsAppend(n: nat, r: nat, from: nat, m: nat, len: nat)
    requires n > 0
    ensures Hits(n, r, from, m + len) == Hits(n, r, from, m) + Hits(n, r, from + m, len)
    decreases len
  {
    hide Hit;
    if len > 0 {
      HitsAppend(n, r, from, m, len - 1);
      assert from + (m + len) - 1 == from + m + len - 1 && m + len - 1 == m + (len - 1);
    }
  }

  lemma OneMoreTurn(k: nat, n: nat)
    requires k > 0
    ensures (k - 1) * n >= 0 && k * n == (k - 1) * n + n
  {}

  lemma {:induction false} HitsInTurns(n: nat, r: nat, from: nat, k: nat)
    requires r < n
    ensures k * n >= 0 && Hits(n, r, from, k * n) == k
  {
    if k > 0 {
      OneMoreTurn(k, n);
      HitsInTurns(n, r, from, k - 1);
      HitsAppend(n, r, from, (k - 1) * n, n);
      HitsInTurn(n, r, from + (k - 1) * n);
    }
    hide Hits;
  }

  lemma {:induction false} LeadsAreHits(vs: Validators, a: Address, r: nat, from: nat, len: nat)
    requires from + len <= 0x1_0000_0000_0000_0000 && |Active(vs)| > 0
    requires forall height: U64 :: IsCurrent(vs, a, height) <==> height % |Active(vs)| == r
    ensures LeadCount(vs, a, from, len) == Hits(|Active(vs)|, r, from, len)
    decreases len
  {
    hide IsCurrent;
    if len > 0 {
      LeadsAreHits(vs, a, r, from, len - 1);
      assert IsCurrent(vs, a, from + len - 1) <==> Hit(|Active(vs)|, r, from + len - 1);
    }
  }

  lemma {:induction false} NeverLeads(vs: Validators, a: Address, from: nat, len: nat)
    requires from + len <= 0x1_0000_0000_0000_0000
    requires forall height: U64 :: !IsCurrent(vs, a, height)
    ensures LeadCount(vs, a, from, len) == 0
    decreases len
  {
    if len > 0 { NeverLeads(vs, a, from, len - 1); }
  }

  /** Over k full turns, starting anywhere, each active validator leads exactly k times and nobody else
      ever does. */
  lemma LeaderRotation(vs: Validators, a: Address, from: nat, k: nat)
    requires DistinctAddresses(vs) && Active(vs) != []
    requires from + k * |Active(vs)| <= 0x1_0000_0000_0000_0000
    ensures LeadCount(vs, a, from, k * |Active(vs)|) == if IsMember(vs, a) then k else 0
  {
    var n := |Active(vs)|;
    if IsMember(vs, a) {
      var r := Place(vs, a);
      LeadsAreHits(vs, a, r, from, k * n);
      HitsInTurns(n, r, from, k);
    } else {
      forall height: U64 ensures !IsCurrent(vs, a, height) {
        var b := OneLeader(vs, height);
      }
      NeverLeads(vs, a, from, k * n);
    }
  }

  // ---------- slashing ----------

  ghost predicate NoReload(ops: seq<Op>) { forall k :: 0 <= k < |ops| ==> !ops[k].Load? }

  /** A member that one step edits from u to e, everybody else untouched. */
  lemma EditedMember(vs: Validators, i: nat, v: Validator, after: Validators, a: Address)
    requires DistinctAddresses(vs) && DistinctAddresses(after) && i < |vs|
    requires multiset(after) == multiset(vs[i := v]) && v.address == vs[i].address
    requires SlotOf(vs, a) < |vs|
    ensures SlotOf(after, a) < |after|
    ensures after[SlotOf(after, a)] == if SlotOf(vs, a) == i then v else vs[SlotOf(vs, a)]
  {
    var k := SlotOf(vs, a);
    var e := vs[i := v][k];
    PermutedMembers(vs[i := v], after);
    assert e in vs[i := v] && e.address == a;
    assert e in after;
    MemberSlot(after, e);
  }

  lemma AddedMember(s: State, v: Validator, t: State, a: Address)
    requires Inv(s) && Inv(t) && Next(s, Add(v), t, true) && Has(s, a) && Has(t, a)
    ensures RecordOf(t, a) == RecordOf(s, a)
  {
    var m := Admitted(v);
    var sorted: Validators :| Joins(s, m, sorted, t);
    var r := RecordOf(t, a);
    PermutedMembers(s.validators + [m], sorted);
    assert r in sorted;
    assert r in s.validators + [m];
    assert r in s.validators;
    MemberSlot(s.validators, r);
  }

  lemma AdjustedMember(s: State, health: map<Address, Health>, now: int, t: State, a: Address)
    requires Inv(s) && Inv(t) && Next(s, Adjust(health, now), t, true) && Has(s, a)
    ensures Has(t, a) && RecordOf(t, a) == Adjusted(RecordOf(s, a), health, now)
  {
    var edited := AdjustedAll(s.validators, health, now);
    PermutedMembers(edited, t.validators);
    var e := edited[SlotOf(s.validators, a)];
    assert e in edited;
    assert e in t.validators;
    MemberSlot(t.validators, e);
  }

  /** Only slashing a member touches its stake and its slash count; sorts and other operations move the
      record about but leave both alone. */
  lemma OnlySlashTouches(s: State, op: Op, t: State, ok: bool, a: Address)
    requires Inv(s) && Next(s, op, t, ok) && !op.Load? && Has(s, a) && Has(t, a)
    ensures if op == Slash(a) then
              RecordOf(t, a) == Slashed(RecordOf(s, a))
            else RecordOf(t, a).stake == RecordOf(s, a).stake && RecordOf(t, a).slashCount == RecordOf(s, a).slashCount
  {
    NextKeepsInv(s, op, t, ok);
    hide Inv, Has, RecordOf;
    if ok {
      match op
      case Add(v) => AddedMember(s, v, t, a);
      case Remove(b) => RemovedMember(s, b, t, a);
      case Delegate(b, amount) => DelegatedMember(s, b, amount, t, a);
      case Undelegate(b, amount) => UndelegatedMember(s, b, amount, t, a);
      case Slash(b) => SlashedMember(s, b, t, a);
      case Adjust(health, now) => AdjustedMember(s, health, now, t, a);
    }
  }

  lemma RemovedMember(s: State, b: Address, t: State, a: Address)
    requires Inv(s) && Inv(t) && Next(s, Remove(b), t, true) && Has(s, a) && Has(t, a)
    ensures RecordOf(t, a) == if a == b then Retired(RecordOf(s, a)) else RecordOf(s, a)
  {
    var i := SlotOf(s.validators, b);
    EditedMember(s.validators, i, Retired(s.validators[i]), t.validators, a);
  }

  lemma DelegatedMember(s: State, b: Address, amount: U64, t: State, a: Address)
    requires Inv(s) && Inv(t) && Next(s, Delegate(b, amount), t, true) && Has(s, a) && Has(t, a)
    ensures RecordOf(t, a) == if a == b then MoreDelegated(RecordOf(s, a), amount) else RecordOf(s, a)
  {
    var i := SlotOf(s.validators, b);
    EditedMember(s.validators, i, MoreDelegated(s.validators[i], amount), t.validators, a);
  }

  lemma UndelegatedMember(s: State, b: Address, amount: U64, t: State, a: Address)
    requires Inv(s) && Inv(t) && Next(s, Undelegate(b, amount), t, true) && Has(s, a) && Has(t, a)
    ensures a == b ==> amount <= RecordOf(s, a).delegated
    ensures RecordOf(t, a) == if a == b then LessDelegated(RecordOf(s, a), amount) else RecordOf(s, a)
  {
    var i := SlotOf(s.validators, b);
    EditedMember(s.validators, i, LessDelegated(s.validators[i], amount), t.validators, a);
  }

  lemma SlashedMember(s: State, b: Address, t: State, a: Address)
    requires Inv(s) && Inv(t) && Next(s, Slash(b), t, true) && Has(s, a) && Has(t, a)
    ensures RecordOf(t, a) == if a == b then Slashed(RecordOf(s, a)) else RecordOf(s, a)
  {
    var i := SlotOf(s.validators, b);
    SlashedAddress(s.validators[i]);
    hide Slashed;
    EditedMember(s.validators, i, Slashed(s.validators[i]), t.validators, a);
  }

  lemma SlashedAddress(v: Validator)
    ensures Slashed(v).address == v.address
  {}

  /** A stake after so many tenths taken. */
  function Reduced(stake: nat, times: nat): nat {
    if times == 0 then stake else Reduced(stake, times - 1) - Reduced(stake, times - 1) / 10
  }

  /** How many of the next k slashes reduce the stake: those whose new count, wrap-around included, is below 3. */
  function Reductions(count: U64, k: nat): nat {
    if k == 0 then 0 else Reductions(count, k - 1) + if Wrap(count + k) < 3 then 1 else 0
  }

  function SlashesOf(ops: seq<Op>, a: Address): nat {
    if ops == [] then 0 else SlashesOf(ops[..|ops| - 1], a) + if ops[|ops| - 1] == Slash(a) then 1 else 0
  }

  lemma SlashedStake(v: Validator)
    requires v.stake > 0
    ensures Slashed(v).slashCount == Wrap(v.slashCount + 1)
    ensures Slashed(v).stake == if Wrap(v.slashCount + 1) < 3 then v.stake - v.stake / 10 else v.stake
  {}

  lemma {:induction false} ReducedPositive(stake: nat, times: nat)
    requires stake > 0
    ensures Reduced(stake, times) > 0
  {
    if times > 0 { ReducedPositive(stake, times - 1); }
  }

  /** For as long as a validator stays in the set, over any run without a reload: its stake is what its
      own slashes made of it, and the guard that would spare a small stake never does. */
  lemma {:induction false} StakeAfterRun(states: seq<State>, ops: seq<Op>, answers: seq<bool>, a: Address, n: nat)
    requires Trace(states, ops, answers) && Inv(states[0]) && NoReload(ops) && n < |states|
    requires forall k :: 0 <= k <= n ==> Has(states[k], a)
    requires RecordOf(states[0], a).stake > 0
    ensures var v, w := RecordOf(states[0], a), RecordOf(states[n], a);
            SlashedTimes(v, w, SlashesOf(ops[..n], a)) && w.stake > w.stake / 10
    decreases n
  {
    hide Next, Inv, Has, RecordOf, Slashed, SlashedTimes;
    var v := RecordOf(states[0], a);
    if n == 0 {
      assert ops[..0] == [];
      NeverSlashed(v);
    } else {
      StakeAfterRun(states, ops, answers, a, n - 1);
      RunKeepsInv(states, ops, answers, n - 1);
      assert Has(states[n - 1], a) && Has(states[n], a);
      assert Next(states[n - 1], ops[n - 1], states[n], answers[n - 1]);
      OnlySlashTouches(states[n - 1], ops[n - 1], states[n], answers[n - 1], a);
      assert ops[..n][..n - 1] == ops[..n - 1] && ops[..n][n - 1] == ops[n - 1];
      SlashedOnceMore(v, RecordOf(states[n - 1], a), RecordOf(states[n], a), SlashesOf(ops[..n - 1], a),
        ops[n - 1] == Slash(a));
    }
  }

  /** The record w is v after k slashes, as far as stake and count go. */
  predicate SlashedTimes(v: Validator, w: Validator, k: nat) {
    w.slashCount == Wrap(v.slashCount + k) && w.stake == Reduced(v.stake, Reductions(v.slashCount, k))
  }

  lemma NeverSlashed(v: Validator)
    requires v.stake > 0
    ensures SlashedTimes(v, v, 0) && v.stake > v.stake / 10
  {}

  lemma SlashedOnceMore(v: Validator, w: Validator, w': Validator, k: nat, slashed: bool)
    requires v.stake > 0 && w.stake > 0 && SlashedTimes(v, w, k)
    requires if slashed then w' == Slashed(w) else w'.stake == w.stake && w'.slashCount == w.slashCount
    ensures SlashedTimes(v, w', if slashed then k + 1 else k) && w'.stake > w'.stake / 10
  {
    SlashedStake(w);
    WrapAdd(v.slashCount + k, 1);
    ReducedPositive(v.stake, Reductions(v.slashCount, if slashed then k + 1 else k));
    hide Slashed, Wrap;
  }

  function Min(x: int, y: int): int { if x < y then x else y }

  lemma {:induction false} ReductionsClosed(count: U64, k: nat)
    requires k < 0x1_0000_0000_0000_0000
    ensures Reductions(count, k) == Min(2, count + k) - Min(2, count)
            + if count + k < 0x1_0000_0000_0000_0000 then 0 else Min(3, count + k - 0x1_0000_0000_0000_0000 + 1)
  {
    if k > 0 { ReductionsClosed(count, k - 1); }
  }

  /** The stake is reduced at most twice exactly when the slash count does not wrap past 1 again. */
  lemma AtMostTwoReductions(count: U64, k: nat)
    requires k < 0xFFFF_FFFF_FFFF_FFFF
    ensures Reductions(count, k) <= 2 <==> count + k < 0x1_0000_0000_0000_0002
  {
    ReductionsClosed(count, k);
  }

  /** Slash floor: an admitted stake keeps at least 81 percent, and 8100, exactly as long as the slash
      count does not wrap past 1 again. */
  lemma SlashFloor(states: seq<State>, ops: seq<Op>, answers: seq<bool>, a: Address)
    requires Trace(states, ops, answers) && Inv(states[0]) && NoReload(ops)
    requires forall k :: 0 <= k < |states| ==> Has(states[k], a)
    requires RecordOf(states[0], a).stake >= MIN_STAKE_AMOUNT
    requires SlashesOf(ops, a) < 0xFFFF_FFFF_FFFF_FFFF
    ensures var before, now := RecordOf(states[0], a), RecordOf(states[|ops|], a);
            var unwrapped := before.slashCount + SlashesOf(ops, a) < 0x1_0000_0000_0000_0002;
            && (100 * now.stake >= 81 * before.stake <==> unwrapped)
            && (unwrapped ==> now.stake >= 8100)
  {
    hide Next, Inv, Has, RecordOf;
    assert ops[..|ops|] == ops;
    StakeAfterRun(states, ops, answers, a, |ops|);
    var v := RecordOf(states[0], a);
    var times := Reductions(v.slashCount, SlashesOf(ops, a));
    assert RecordOf(states[|ops|], a).stake == Reduced(v.stake, times);
    AtMostTwoReductions(v.slashCount, SlashesOf(ops, a));
    if times <= 2 { TwoTenths(v.stake, times); } else { ThreeTenths(v.stake, times); }
  }

  lemma TwoTenths(stake: nat, times: nat)
    requires times <= 2 && stake >= MIN_STAKE_AMOUNT
    ensures 100 * Reduced(stake, times) >= 81 * stake && Reduced(stake, times) >= 8100
  {
    assert Reduced(stake, 1) == stake - stake / 10;
    assert Reduced(stake, 2) == Reduced(stake, 1) - Reduced(stake, 1) / 10;
  }

  lemma {:induction false} ThreeTenths(stake: nat, times: nat)
    requires times >= 3 && stake >= MIN_STAKE_AMOUNT
    ensures 100 * Reduced(stake, times) < 81 * stake
  {
    if times > 3 {
      ThreeTenths(stake, times - 1);
    } else {
      assert Reduced(stake, 1) == stake - stake / 10;
      assert Reduced(stake, 2) == Reduced(stake, 1) - Reduced(stake, 1) / 10;
    }
  }

  /** A record admitted with the greatest slash count breaks the floor: its next three slashes all reduce. */
  lemma WrappedCountBreaksFloor(v: Validator)
    requires v.slashCount == 0xFFFF_FFFF_FFFF_FFFF && v.stake >= MIN_STAKE_AMOUNT
    ensures Slashed(Slashed(Slashed(v))).stake == Reduced(v.stake, 3)
    ensures 100 * Reduced(v.stake, 3) < 81 * v.stake && Slashed(Slashed(Slashed(v))).active == v.active
  {
    assert Reduced(v.stake, 1) == v.stake - v.stake / 10;
    assert Reduced(v.stake, 2) == Reduced(v.stake, 1) - Reduced(v.stake, 1) / 10;
  }
}
