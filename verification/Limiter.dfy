/** The outbound byte limiter: a bucket refilled in full once a second has passed since the last refill. */
module Limiter {
  const SECOND: int := 1_000_000_000
  const BYTES_PER_TOKEN: int := 1

  datatype State = State(bucketSize: nat, tokens: int, lastReset: int)

  /** One call: the clock reading in nanoseconds and the message size. */
  datatype Call = Call(now: int, size: nat)

  predicate Resets(s: State, c: Call) { c.now - s.lastReset >= SECOND }

  function Refill(s: State, c: Call): State {
    if Resets(s, c) then s.(tokens := s.bucketSize, lastReset := c.now) else s
  }

  function Required(size: nat): int {
    if size / BYTES_PER_TOKEN <= 0 then 1 else size / BYTES_PER_TOKEN
  }

  predicate Admits(s: State, c: Call) { Refill(s, c).tokens >= Required(c.size) }

  function Next(s: State, c: Call): State {
    var r := Refill(s, c);
    if Admits(s, c) then r.(tokens := r.tokens - Required(c.size)) else r
  }

  /** Tokens lie between zero and the bucket. */
  predicate Sound(s: State) { 0 <= s.tokens <= s.bucketSize }

  class BandwidthLimiter {
    const bucketSize: nat
    var tokens: int
    var lastReset: int
    var used: int

    function View(): State
      reads this
    {
      State(bucketSize, tokens, lastReset)
    }

    constructor (bucketSize: nat, now: int)
      ensures View() == State(bucketSize, bucketSize, now) && Sound(View()) && used == 0
    {
      this.bucketSize, tokens, lastReset, used := bucketSize, bucketSize, now, 0;
    }

    /** checkBandwidth. */
    method CheckBandwidth(size: nat, now: int) returns (ok: bool)
      requires Sound(View())
      modifies this
      ensures View() == Next(old(View()), Call(now, size)) && ok == Admits(old(View()), Call(now, size))
      ensures Sound(View())
      ensures used == (if Resets(old(View()), Call(now, size)) then 0 else old(used)) + if ok then size else 0
    {
      if now - lastReset >= SECOND {
        tokens := bucketSize;
        used := 0;
        lastReset := now;
      }
      var requiredTokens := size / BYTES_PER_TOKEN;
      if requiredTokens <= 0 {
        requiredTokens := 1;
      }
      if tokens >= requiredTokens {
        tokens := tokens - requiredTokens;
        used := used + size;
        return true;
      }
      ok := false;
    }
  }

  // ---------- runs ----------

  function After(s: State, calls: seq<Call>): State {
    if calls == [] then s else Next(After(s, calls[..|calls| - 1]), calls[|calls| - 1])
  }

  /** Bytes admitted over a run. */
  function Admitted(s: State, calls: seq<Call>): nat {
    if calls == [] then 0
    else
      var last := calls[|calls| - 1];
      Admitted(s, calls[..|calls| - 1]) + if Admits(After(s, calls[..|calls| - 1]), last) then last.size else 0
  }

  function Refills(s: State, calls: seq<Call>): nat {
    if calls == [] then 0
    else
      Refills(s, calls[..|calls| - 1])
      + if Resets(After(s, calls[..|calls| - 1]), calls[|calls| - 1]) then 1 else 0
  }

  ghost predicate Monotone(s: State, calls: seq<Call>) {
    && (forall i, j :: 0 <= i <= j < |calls| ==> calls[i].now <= calls[j].now)
    && (calls != [] ==> s.lastReset <= calls[0].now)
  }

  lemma NextSound(s: State, c: Call)
    requires Sound(s)
    ensures Sound(Next(s, c)) && Next(s, c).bucketSize == s.bucketSize
  {}

  /** Admitted bytes are paid from the initial tokens and the refills; a refill on the very first
      call discards the initial tokens. */
  lemma {:induction false} BytesPaidFor(s: State, calls: seq<Call>)
    requires Sound(s)
    ensures Sound(After(s, calls)) && After(s, calls).bucketSize == s.bucketSize
    ensures Admitted(s, calls) + After(s, calls).tokens
            <= (if calls != [] && Resets(s, calls[0]) then 0 else s.tokens) + Refills(s, calls) * s.bucketSize
    decreases |calls|
  {
    if calls != [] {
      var n := |calls| - 1;
      BytesPaidFor(s, calls[..n]);
      NextSound(After(s, calls[..n]), calls[n]);
      assert n > 0 ==> calls[..n][0] == calls[0];
      assert n == 0 ==> calls[..n] == [];
      RefillCost(Refills(s, calls[..n]), s.bucketSize);
    }
  }

  /** Admitted on the numbers: a message takes a token a byte, at least one, from what is left or, a second
      after the last refill, from a full bucket. */
  lemma AdmitsExactly(s: State, c: Call)
    ensures Admits(s, c) <==>
              (if c.now - s.lastReset >= 1_000_000_000 then s.bucketSize else s.tokens)
              >= (if c.size == 0 then 1 else c.size)
  {}

  /** Messages admitted over a run. */
  function Messages(s: State, calls: seq<Call>): nat {
    if calls == [] then 0
    else
      var n := |calls| - 1;
      Messages(s, calls[..n]) + if Admits(After(s, calls[..n]), calls[n]) then 1 else 0
  }

  /** Every message is paid for, an empty one too: no more are admitted than there were tokens. */
  lemma {:induction false} MessagesPaidFor(s: State, calls: seq<Call>)
    requires Sound(s)
    ensures Messages(s, calls) + After(s, calls).tokens <= s.tokens + Refills(s, calls) * s.bucketSize
    decreases |calls|
  {
    if calls != [] {
      var n := |calls| - 1;
      MessagesPaidFor(s, calls[..n]);
      BytesPaidFor(s, calls[..n]);
      RefillCost(Refills(s, calls[..n]), s.bucketSize);
    }
  }

  lemma RefillCost(n: nat, bucket: nat)
    ensures (n + 1) * bucket == n * bucket + bucket
  {}

  /** Refills are at least a second apart. */
  lemma {:induction false} RefillsApart(s: State, calls: seq<Call>)
    requires Monotone(s, calls) && calls != []
    ensures After(s, calls).lastReset <= calls[|calls| - 1].now
    ensures Refills(s, calls) > 0 ==> After(s, calls).lastReset >= calls[0].now + (Refills(s, calls) - 1) * SECOND
    ensures Refills(s, calls) == 0 ==> After(s, calls).lastReset == s.lastReset
    decreases |calls|
  {
    var n := |calls| - 1;
    if n == 0 {
      assert calls[..0] == [];
    } else {
      assert Monotone(s, calls[..n]);
      assert calls[..n][0] == calls[0] && calls[..n][n - 1] == calls[n - 1];
      RefillsApart(s, calls[..n]);
    }
  }

  lemma {:induction false} AfterAppend(s: State, x: seq<Call>, y: seq<Call>)
    ensures After(s, x + y) == After(After(s, x), y)
    decreases |y|
  {
    if y == [] {
      assert x + y == x;
    } else {
      assert (x + y)[..|x + y| - 1] == x + y[..|y| - 1];
      AfterAppend(s, x, y[..|y| - 1]);
    }
  }

  /** Between two refills no more than the bucket is admitted. */
  lemma AdmittedPerRefill(s: State, calls: seq<Call>)
    requires Sound(s)
    requires Refills(s, calls) == 0 || (calls != [] && Resets(s, calls[0]) && Refills(s, calls) == 1)
    ensures Admitted(s, calls) <= s.bucketSize
  {
    BytesPaidFor(s, calls);
  }

  lemma SpanArithmetic(refills: nat, k: nat, span: int)
    requires span < k * SECOND && (refills > 0 ==> span >= (refills - 1) * SECOND)
    ensures refills <= k
  {}

  lemma BucketArithmetic(refills: nat, k: nat, bucket: nat)
    requires refills <= k
    ensures bucket + refills * bucket <= (k + 1) * bucket
  {}

  /** In any span of a run shorter than k seconds at most k + 1 buckets are admitted. */
  lemma SpanBound(s: State, before: seq<Call>, span: seq<Call>, k: nat)
    requires Sound(s) && Monotone(s, before + span) && span != []
    requires span[|span| - 1].now - span[0].now < k * 1_000_000_000
    ensures Admitted(After(s, before), span) <= (k + 1) * s.bucketSize
    ensures After(s, before + span) == After(After(s, before), span)
  {
    AfterAppend(s, before, span);
    BytesPaidFor(s, before);
    var t := After(s, before);
    SpanMonotone(s, before, span);
    BytesPaidFor(t, span);
    RefillsApart(t, span);
    var r := Refills(t, span);
    SpanArithmetic(r, k, span[|span| - 1].now - span[0].now);
    BucketArithmetic(r, k, s.bucketSize);
  }

  lemma SpanMonotone(s: State, before: seq<Call>, span: seq<Call>)
    requires Monotone(s, before + span) && span != []
    ensures Monotone(After(s, before), span)
  {
    var all := before + span;
    assert forall i :: 0 <= i < |span| ==> span[i] == all[|before| + i];
    if before != [] {
      assert forall i :: 0 <= i < |before| ==> before[i] == all[i];
      assert Monotone(s, before);
      RefillsApart(s, before);
      assert all[|before| - 1].now <= all[|before|].now;
    } else {
      assert all == span;
    }
  }

  /** A full bucket just before the first refill, and one at each of the next k refills. */
  function Bursts(bucket: nat, k: nat): (calls: seq<Call>)
    ensures |calls| == k + 1 && calls[0].now == SECOND - 1
    ensures forall i :: 0 < i <= k ==> calls[i].now == i * SECOND
  {
    if k == 0 then [Call(SECOND - 1, bucket)] else Bursts(bucket, k - 1) + [Call(k * SECOND, bucket)]
  }

  /** The bound is met for every k: k + 1 full buckets in a span shorter than k seconds. */
  lemma {:induction false} BurstAcrossRefills(bucket: nat, k: nat)
    requires bucket > 0
    ensures var s, calls := State(bucket, bucket, 0), Bursts(bucket, k);
            && Monotone(s, calls) && (k > 0 ==> calls[k].now - calls[0].now == (k - 1) * 1_000_000_000 + 1)
            && Admitted(s, calls) == (k + 1) * bucket && After(s, calls) == State(bucket, 0, k * 1_000_000_000)
  {
    var s, calls := State(bucket, bucket, 0), Bursts(bucket, k);
    forall i, j | 0 <= i <= j < |calls| ensures calls[i].now <= calls[j].now {}
    if k == 0 {
      assert calls[..0] == [];
    } else {
      assert calls[..k] == Bursts(bucket, k - 1);
      BurstAcrossRefills(bucket, k - 1);
      RefillCost(k, bucket);
    }
  }
}
