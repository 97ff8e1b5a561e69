/** The per-executor token bucket, over exact reals. */
module Limiter {
  import opened Model

  /** `seen == 0.0` stands for the zero `time.Time` of a bucket never used. */
  datatype Bucket = Bucket(tokens: real, seen: real)

  const EMPTY_BUCKET := Bucket(0.0, 0.0)

  datatype Policy = Policy(rate: real, burst: int) {
    predicate Valid() {
      rate > 0.0 && burst > 0
    }
  }

  const DEFAULT_POLICY := Policy(200.0, 400)

  type Buckets = map<ExecutorId, Bucket>

  /** What reading a missing key of the Go map gives. */
  function Lookup(last: Buckets, exec: ExecutorId): Bucket {
    if exec in last then last[exec] else EMPTY_BUCKET
  }

  function Gain(p: Policy, since: real, now: real): real {
    (now - since) * p.rate
  }

  function Refill(p: Policy, b: Bucket, now: real): Bucket {
    if b.seen == 0.0 then Bucket(p.burst as real, now)
    else
      var tokens := b.tokens + Gain(p, b.seen, now);
      Bucket(if tokens > p.burst as real then p.burst as real else tokens, now)
  }

  /** One call of `Allow`: the new buckets and the answer. */
  function Step(p: Policy, last: Buckets, exec: ExecutorId, now: real): (Buckets, bool) {
    var b := Refill(p, Lookup(last, exec), now);
    if b.tokens < 1.0 then (last[exec := b], false)
    else (last[exec := b.(tokens := b.tokens - 1.0)], true)
  }

  /** A bucket never used grants its first call at any time. */
  lemma FreshBucketGrants(p: Policy, last: Buckets, exec: ExecutorId, now: real)
    requires p.Valid() && exec !in last
    ensures Step(p, last, exec, now).1
  {
  }

  class Limiter {
    const policy: Policy
    var last: Buckets

    constructor (p: Policy)
      ensures policy.Valid() && last == map[]
      ensures policy == if p.rate > 0.0 && p.burst > 0 then p else Policy(200.0, 400)
    {
      policy := if p.Valid() then p else DEFAULT_POLICY;
      last := map[];
    }

    method Allow(exec: ExecutorId, now: real) returns (ok: bool)
      modifies this
      ensures (last, ok) == Step(policy, old(last), exec, now)
    {
      var b := if exec in last then last[exec] else EMPTY_BUCKET;
      if b.seen == 0.0 {
        b := Bucket(policy.burst as real, now);
      } else {
        var elapsed := now - b.seen;
        b := b.(tokens := b.tokens + elapsed * policy.rate);
        if b.tokens > policy.burst as real {
          b := b.(tokens := policy.burst as real);
        }
        b := b.(seen := now);
      }
      assert b == Refill(policy, Lookup(last, exec), now);
      if b.tokens < 1.0 {
        last := last[exec := b];
        return false;
      }
      b := b.(tokens := b.tokens - 1.0);
      last := last[exec := b];
      return true;
    }

    method Credits(exec: ExecutorId) returns (tokens: real)
      ensures tokens == Lookup(last, exec).tokens
    {
      return (if exec in last then last[exec] else EMPTY_BUCKET).tokens;
    }
  }

  // ---------- Runs of calls ----------

  datatype Call = Call(exec: ExecutorId, at: real)

  /** The clock never goes back and never shows the zero time. */
  ghost predicate Timed(calls: seq<Call>) {
    && (forall k :: 0 <= k < |calls| ==> calls[k].at > 0.0)
    && (forall i, j :: 0 <= i < j < |calls| ==> calls[i].at <= calls[j].at)
  }

  /** The buckets after the first `n` calls on a new limiter. */
  ghost function After(p: Policy, calls: seq<Call>, n: nat): Buckets
    requires n <= |calls|
  {
    if n == 0 then map[] else Step(p, After(p, calls, n - 1), calls[n - 1].exec, calls[n - 1].at).0
  }

  /** The answer of call `k`. */
  ghost predicate Granted(p: Policy, calls: seq<Call>, k: nat)
    requires k < |calls|
  {
    Step(p, After(p, calls, k), calls[k].exec, calls[k].at).1
  }

  /** How many of the calls `i .. j-1` were granted to `e`. */
  ghost function Grants(p: Policy, calls: seq<Call>, e: ExecutorId, i: nat, j: nat): nat
    requires i <= j <= |calls|
    decreases j - i
  {
    if i == j then 0
    else Grants(p, calls, e, i, j - 1) + if calls[j - 1].exec == e && Granted(p, calls, j - 1) then 1 else 0
  }

  /** What a bucket may hand out over a span of time. */
  ghost function Allowance(p: Policy, span: real): real {
    p.burst as real + p.rate * span
  }

  /** The level the bucket would have at time `t` had it been full at call `i`
      and never overflowed since; `n` calls have been made. */
  ghost function Level(p: Policy, calls: seq<Call>, e: ExecutorId, i: nat, n: nat, t: real): real
    requires i <= n <= |calls| && i < |calls|
  {
    Allowance(p, t - calls[i].at) - Grants(p, calls, e, i, n) as real
  }

  /** Call `j` fits the budget counted from call `i` on. */
  ghost predicate WithinBudget(p: Policy, calls: seq<Call>, i: nat, j: nat)
    requires i <= j < |calls|
  {
    Grants(p, calls, calls[j].exec, i, j) as real + 1.0 <= Allowance(p, calls[j].at - calls[i].at)
  }

  /** The bucket of `e` after `n` calls is the least of the levels counted
      from each earlier call of `e`, and that least level is attained. */
  ghost predicate IsLeastLevel(p: Policy, calls: seq<Call>, e: ExecutorId, n: nat, b: Bucket)
    requires n <= |calls|
  {
    && (exists i :: 0 <= i < n && calls[i].exec == e && b.tokens == Level(p, calls, e, i, n, b.seen))
    && (forall i :: 0 <= i < n && calls[i].exec == e ==> b.tokens <= Level(p, calls, e, i, n, b.seen))
  }

  ghost predicate Called(calls: seq<Call>, e: ExecutorId, n: nat)
    requires n <= |calls|
  {
    exists i :: 0 <= i < n && calls[i].exec == e
  }

  ghost predicate BucketOk(p: Policy, calls: seq<Call>, e: ExecutorId, n: nat)
    requires n <= |calls|
  {
    var b := Lookup(After(p, calls, n), e);
    if Called(calls, e, n) then
      && 0.0 <= b.tokens <= p.burst as real
      && b.seen > 0.0
      && (forall i :: n <= i < |calls| ==> b.seen <= calls[i].at)
      && IsLeastLevel(p, calls, e, n, b)
    else b == EMPTY_BUCKET
  }

  lemma LevelAdvances(p: Policy, calls: seq<Call>, e: ExecutorId, i: nat, n: nat, t: real, u: real)
    requires i <= n <= |calls| && i < |calls|
    ensures Level(p, calls, e, i, n, u) == Level(p, calls, e, i, n, t) + Gain(p, t, u)
  {
    assert p.rate * (u - calls[i].at) == p.rate * (t - calls[i].at) + (u - t) * p.rate;
  }

  lemma LevelIsFullAtCall(p: Policy, calls: seq<Call>, e: ExecutorId, n: nat)
    requires n < |calls|
    ensures Level(p, calls, e, n, n, calls[n].at) == p.burst as real
  {
    assert p.rate * (calls[n].at - calls[n].at) == 0.0;
  }

  lemma RateIsMonotone(rate: real, a: real, b: real)
    requires rate > 0.0 && a <= b
    ensures rate * a <= rate * b
  {
  }

  lemma GainIsNonNegative(p: Policy, since: real, now: real)
    requires p.Valid() && since <= now
    ensures Gain(p, since, now) >= 0.0
  {
    RateIsMonotone(p.rate, 0.0, now - since);
  }

  /** Refilling at call `n` gives the least level over the calls up to and
      including `n`. */
  lemma RefillIsLeastLevel(p: Policy, calls: seq<Call>, n: nat)
    requires p.Valid() && n < |calls| && Timed(calls)
    requires BucketOk(p, calls, calls[n].exec, n)
    ensures var e, t := calls[n].exec, calls[n].at;
      var b := Refill(p, Lookup(After(p, calls, n), e), t);
      && 0.0 <= b.tokens <= p.burst as real
      && (exists i :: 0 <= i <= n && calls[i].exec == e && b.tokens == Level(p, calls, e, i, n, t))
      && (forall i :: 0 <= i <= n && calls[i].exec == e ==> b.tokens <= Level(p, calls, e, i, n, t))
  {
    hide Granted, Step, After, Level, Gain, Allowance;
    var e, t := calls[n].exec, calls[n].at;
    var old' := Lookup(After(p, calls, n), e);
    var b := Refill(p, old', t);
    LevelIsFullAtCall(p, calls, e, n);
    if Called(calls, e, n) {
      var gain := Gain(p, old'.seen, t);
      GainIsNonNegative(p, old'.seen, t);
      forall i | 0 <= i < n && calls[i].exec == e
        ensures Level(p, calls, e, i, n, t) == Level(p, calls, e, i, n, old'.seen) + gain
      {
        LevelAdvances(p, calls, e, i, n, old'.seen, t);
      }
      if b.tokens < p.burst as real {
        var i :| 0 <= i < n && calls[i].exec == e && old'.tokens == Level(p, calls, e, i, n, old'.seen);
        assert 0 <= i <= n && b.tokens == Level(p, calls, e, i, n, t);
      } else {
        assert b.tokens == Level(p, calls, e, n, n, t);
      }
    } else {
      assert b.tokens == Level(p, calls, e, n, n, t);
    }
  }

  lemma {:induction false} BucketIsLeastLevel(p: Policy, calls: seq<Call>, e: ExecutorId, n: nat)
    requires p.Valid() && n <= |calls| && Timed(calls)
    ensures BucketOk(p, calls, e, n)
  {
    if n > 0 {
      var k := n - 1;
      BucketIsLeastLevel(p, calls, e, k);
      if calls[k].exec == e {
        RefillIsLeastLevel(p, calls, k);
        var t := calls[k].at;
        var full := Refill(p, Lookup(After(p, calls, k), e), t);
        var b := Lookup(After(p, calls, n), e);
        var spent := if Granted(p, calls, k) then 1.0 else 0.0;
        assert b.seen == t && b.tokens == full.tokens - spent;
        forall i | 0 <= i < n
          ensures Level(p, calls, e, i, n, t) == Level(p, calls, e, i, k, t) - spent
        {
        }
        assert IsLeastLevel(p, calls, e, n, b);
      } else {
        var b := Lookup(After(p, calls, k), e);
        assert b == Lookup(After(p, calls, n), e);
        forall i | 0 <= i < k ensures Level(p, calls, e, i, n, b.seen) == Level(p, calls, e, i, k, b.seen) {
        }
        if Called(calls, e, k) {
          assert IsLeastLevel(p, calls, e, n, b);
        }
      }
    }
  }

  /** Exactness: a call is granted if and only if it fits the budget counted
      from every earlier call of its executor, itself included. */
  lemma GrantedIffWithinEveryBudget(p: Policy, calls: seq<Call>, j: nat)
    requires p.Valid() && j < |calls| && Timed(calls)
    ensures Granted(p, calls, j) <==>
      forall i :: 0 <= i <= j && calls[i].exec == calls[j].exec ==> WithinBudget(p, calls, i, j)
  {
    var e, t := calls[j].exec, calls[j].at;
    BucketIsLeastLevel(p, calls, e, j);
    RefillIsLeastLevel(p, calls, j);
    var b := Refill(p, Lookup(After(p, calls, j), e), t);
    forall i | 0 <= i <= j && calls[i].exec == e
      ensures WithinBudget(p, calls, i, j) <==> Level(p, calls, e, i, j, t) >= 1.0
    {
    }
    if !Granted(p, calls, j) {
      var i :| 0 <= i <= j && calls[i].exec == e && b.tokens == Level(p, calls, e, i, j, t);
      assert !WithinBudget(p, calls, i, j);
    }
  }

  /** The bucket never goes negative and never exceeds the burst. */
  lemma TokensStayInRange(p: Policy, calls: seq<Call>, e: ExecutorId, n: nat)
    requires p.Valid() && n <= |calls| && Timed(calls)
    ensures 0.0 <= Lookup(After(p, calls, n), e).tokens <= p.burst as real
  {
    BucketIsLeastLevel(p, calls, e, n);
  }

  lemma {:induction false} GrantsSplit(p: Policy, calls: seq<Call>, e: ExecutorId, i: nat, m: nat, j: nat)
    requires i <= m <= j <= |calls|
    ensures Grants(p, calls, e, i, j) == Grants(p, calls, e, i, m) + Grants(p, calls, e, m, j)
    decreases j
  {
    if m < j {
      GrantsSplit(p, calls, e, i, m, j - 1);
    }
  }

  /** Grants made before the first call of `e` in a range: none. */
  lemma {:induction false} FirstCallOf(p: Policy, calls: seq<Call>, e: ExecutorId, i: nat, j: nat) returns (m: nat)
    requires i <= j < |calls| && calls[j].exec == e
    ensures i <= m <= j && calls[m].exec == e && Grants(p, calls, e, i, m) == 0
    decreases j - i
  {
    if calls[i].exec == e {
      m := i;
    } else {
      m := FirstCallOf(p, calls, e, i + 1, j);
      GrantsSplit(p, calls, e, i, i + 1, m);
      assert Grants(p, calls, e, i, i) == 0;
    }
  }

  lemma AllowanceIsMonotone(p: Policy, a: real, b: real)
    requires p.Valid() && a <= b
    ensures Allowance(p, a) <= Allowance(p, b)
  {
    RateIsMonotone(p.rate, a, b);
  }

  lemma AllowanceIsNonNegative(p: Policy, span: real)
    requires p.Valid() && span >= 0.0
    ensures Allowance(p, span) >= 0.0
  {
    RateIsMonotone(p.rate, 0.0, span);
  }

  /** The grants of `i .. k`, when `k` is granted, fit the budget of the span
      from the first of its executor's calls to `k`. */
  lemma GrantsFitSpan(p: Policy, calls: seq<Call>, i: nat, k: nat) returns (m: nat)
    requires p.Valid() && Timed(calls) && i <= k < |calls| && Granted(p, calls, k)
    ensures i <= m <= k
    ensures Grants(p, calls, calls[k].exec, i, k + 1) as real <= Allowance(p, calls[k].at - calls[m].at)
  {
    hide Granted, Timed;
    var e := calls[k].exec;
    m := FirstCallOf(p, calls, e, i, k);
    GrantsSplit(p, calls, e, i, m, k);
    GrantedIffWithinEveryBudget(p, calls, k);
    assert Grants(p, calls, e, i, k + 1) == Grants(p, calls, e, m, k) + 1;
    assert WithinBudget(p, calls, m, k);
  }

  /** Every closed interval `[from, until]` of time admits at most
      burst + rate * length calls of one executor. */
  lemma {:induction false} IntervalBound(p: Policy, calls: seq<Call>, e: ExecutorId, i: nat, j: nat, from: real,
      until: real)
    requires p.Valid() && Timed(calls) && i <= j <= |calls| && from <= until
    requires forall k :: i <= k < j ==> from <= calls[k].at <= until
    ensures Grants(p, calls, e, i, j) as real <= Allowance(p, until - from)
    decreases j
  {
    hide Granted, Allowance, Timed;
    if i < j {
      var k := j - 1;
      if calls[k].exec == e && Granted(p, calls, k) {
        var m := GrantsFitSpan(p, calls, i, k);
        AllowanceIsMonotone(p, calls[k].at - calls[m].at, until - from);
      } else {
        IntervalBound(p, calls, e, i, k, from, until);
      }
    } else {
      AllowanceIsNonNegative(p, until - from);
    }
  }
}
