/** The executor lease table. */
module LeaseTable {
  import opened Model

  datatype LeaseState = LeaseIdle | LeaseLeased | LeaseRenewing | LeaseEvicted

  datatype Lease = Lease(slot: int, state: LeaseState, expires: Time)

  datatype TableState = TableState(leases: map<ExecutorId, Lease>, slotOf: map<ExecutorId, int>, next: int) {
    predicate Holds(e: ExecutorId) {
      e in leases && leases[e].state == LeaseLeased
    }

    predicate Evicted(e: ExecutorId) {
      e in leases && leases[e].state == LeaseEvicted
    }

    predicate Expired(e: ExecutorId, now: Time) {
      e !in leases || leases[e].state == LeaseEvicted || now > leases[e].expires
    }
  }

  const EMPTY := TableState(map[], map[], 0)

  /** The slot is returned; a present slot is kept, a fresh one is never reused. */
  function AcquireIn(s: TableState, e: ExecutorId, expires: Time): (TableState, int) {
    if e in s.slotOf then (s, s.slotOf[e])
    else (TableState(s.leases[e := Lease(s.next, LeaseLeased, expires)], s.slotOf[e := s.next], s.next + 1), s.next)
  }

  function RenewIn(s: TableState, e: ExecutorId, expires: Time): (TableState, bool) {
    if e !in s.leases || s.leases[e].state in {LeaseEvicted, LeaseIdle} then (s, false)
    else (s.(leases := s.leases[e := s.leases[e].(state := LeaseLeased, expires := expires)]), true)
  }

  function EvictFrom(s: TableState, e: ExecutorId): (TableState, bool) {
    if e !in s.leases then (s, false)
    else (s.(leases := s.leases[e := s.leases[e].(state := LeaseEvicted, expires := ZERO_TIME)],
      slotOf := s.slotOf - {e}), true)
  }

  class Manager {
    var leases: map<ExecutorId, Lease>
    var slotOf: map<ExecutorId, int>
    var next: int
    const timeout: Time

    ghost function View(): TableState
      reads this
    {
      TableState(leases, slotOf, next)
    }

    constructor (timeout: Time)
      ensures View() == EMPTY && this.timeout == timeout
    {
      leases, slotOf, next := map[], map[], 0;
      this.timeout := timeout;
    }

    method Acquire(exec: ExecutorId, now: Time) returns (slot: int)
      modifies this
      ensures (View(), slot) == AcquireIn(old(View()), exec, now + timeout)
      ensures exec in slotOf && slotOf[exec] == slot
      ensures exec in old(slotOf) ==> View() == old(View())
      ensures exec !in old(slotOf) ==>
        slot == old(next) && leases == old(leases)[exec := Lease(slot, LeaseLeased, now + timeout)]
    {
      if exec in slotOf {
        return slotOf[exec];
      }
      slot := next;
      next := next + 1;
      leases := leases[exec := Lease(slot, LeaseLeased, now + timeout)];
      slotOf := slotOf[exec := slot];
    }

    method Renew(exec: ExecutorId, now: Time) returns (ok: bool)
      modifies this
      ensures (View(), ok) == RenewIn(old(View()), exec, now + timeout)
      ensures ok <==> exec in old(leases) && old(leases)[exec].state in {LeaseLeased, LeaseRenewing}
      ensures ok ==>
        leases == old(leases)[exec := Lease(old(leases)[exec].slot, LeaseLeased, now + timeout)]
    {
      if exec !in leases {
        return false;
      }
      var l := leases[exec];
      if l.state == LeaseEvicted || l.state == LeaseIdle {
        return false;
      }
      leases := leases[exec := l.(state := LeaseLeased, expires := now + timeout)];
      return true;
    }

    method Evict(exec: ExecutorId) returns (ok: bool)
      modifies this
      ensures (View(), ok) == EvictFrom(old(View()), exec)
      ensures ok <==> exec in old(leases)
      ensures exec !in slotOf || !ok
    {
      if exec !in leases {
        return false;
      }
      leases := leases[exec := leases[exec].(state := LeaseEvicted, expires := ZERO_TIME)];
      slotOf := slotOf - {exec};
      return true;
    }

    /** The recorded executors whose lease has lapsed, each once. */
    method ExpiredLeases(now: Time) returns (out: seq<ExecutorId>)
      ensures forall e :: e in out <==> e in leases && (leases[e].state == LeaseEvicted || now > leases[e].expires)
      ensures forall i, j :: 0 <= i < j < |out| ==> out[i] != out[j]
    {
      out := [];
      var todo := leases.Keys;
      while todo != {}
        invariant todo <= leases.Keys
        invariant forall e :: e in out <==> e in leases && e !in todo && View().Expired(e, now)
        invariant forall i, j :: 0 <= i < j < |out| ==> out[i] != out[j]
        decreases |todo|
      {
        var e :| e in todo;
        if leases[e].state == LeaseEvicted || now > leases[e].expires {
          out := out + [e];
        }
        todo := todo - {e};
      }
    }

    /** Every recorded executor, evicted ones included. */
    method Executors() returns (out: seq<ExecutorId>)
      ensures forall e :: e in out <==> e in leases
      ensures forall i, j :: 0 <= i < j < |out| ==> out[i] != out[j]
      ensures out == [] <==> leases == map[]
    {
      out := [];
      var todo := leases.Keys;
      while todo != {}
        invariant todo <= leases.Keys
        invariant forall e :: e in out <==> e in leases && e !in todo
        invariant forall i, j :: 0 <= i < j < |out| ==> out[i] != out[j]
        decreases |todo|
      {
        var e :| e in todo;
        out := out + [e];
        todo := todo - {e};
      }
      if out == [] {
        assert leases.Keys == {};
      } else {
        assert out[0] in out;
      }
    }
  }

  // ---------- Runs ----------

  datatype Op =
    | OpAcquire(exec: ExecutorId, expires: Time)
    | OpRenew(exec: ExecutorId, expires: Time)
    | OpEvict(exec: ExecutorId)

  function Apply(s: TableState, op: Op): TableState {
    match op
    case OpAcquire(e, x) => AcquireIn(s, e, x).0
    case OpRenew(e, x) => RenewIn(s, e, x).0
    case OpEvict(e) => EvictFrom(s, e).0
  }

  function Run(ops: seq<Op>): TableState {
    if ops == [] then EMPTY else Apply(Run(ops[..|ops| - 1]), ops[|ops| - 1])
  }

  /** The executors given a fresh slot, in the order of the grants. */
  ghost function FreshGrants(ops: seq<Op>): seq<ExecutorId> {
    if ops == [] then []
    else
      var before, op := ops[..|ops| - 1], ops[|ops| - 1];
      FreshGrants(before) + if op.OpAcquire? && op.exec !in Run(before).slotOf then [op.exec] else []
  }

  ghost predicate WellFormed(s: TableState) {
    && s.next >= 0
    && (forall e :: e in s.slotOf <==> s.Holds(e))
    && (forall e :: e in s.slotOf ==> s.slotOf[e] == s.leases[e].slot)
    && (forall e :: e in s.leases ==>
          0 <= s.leases[e].slot < s.next && s.leases[e].state in {LeaseLeased, LeaseEvicted})
    && (forall e, f :: e in s.leases && f in s.leases && e != f ==> s.leases[e].slot != s.leases[f].slot)
  }

  lemma StepKeepsWellFormed(s: TableState, op: Op)
    requires WellFormed(s)
    ensures WellFormed(Apply(s, op))
  {
    match op {
      case OpAcquire(e, x) => AcquireKeepsWellFormed(s, e, x);
      case OpRenew(_, _) =>
      case OpEvict(_) =>
    }
  }

  lemma AcquireKeepsWellFormed(s: TableState, e: ExecutorId, expires: Time)
    requires WellFormed(s)
    ensures WellFormed(AcquireIn(s, e, expires).0)
  {
  }

  /** In every run an executor is in `slotOf` exactly when its lease is held,
      with the slot of that lease, and no two recorded leases share a slot. */
  lemma {:induction false} RunIsWellFormed(ops: seq<Op>)
    ensures WellFormed(Run(ops))
  {
    if ops != [] {
      RunIsWellFormed(ops[..|ops| - 1]);
      StepKeepsWellFormed(Run(ops[..|ops| - 1]), ops[|ops| - 1]);
    }
  }

  /** Slots number the grants `g`: a recorded lease carries the position of
      its executor's last grant. */
  ghost predicate Numbered(s: TableState, g: seq<ExecutorId>) {
    && s.next == |g|
    && (forall e :: e in g ==> e in s.leases)
    && (forall e :: e in s.leases ==> 0 <= s.leases[e].slot < |g| && g[s.leases[e].slot] == e)
    && (forall k :: 0 <= k < |g| && g[k] in s.leases ==> k <= s.leases[g[k]].slot)
  }

  lemma StepKeepsNumbering(s: TableState, g: seq<ExecutorId>, op: Op)
    requires Numbered(s, g)
    ensures Numbered(Apply(s, op), if op.OpAcquire? && op.exec !in s.slotOf then g + [op.exec] else g)
  {
  }

  /** The k-th fresh grant of a run is slot k, and a recorded lease carries the
      slot of its executor's last fresh grant: slots only ever increase. */
  lemma {:induction false} SlotsNumberTheGrants(ops: seq<Op>)
    ensures Numbered(Run(ops), FreshGrants(ops))
  {
    if ops != [] {
      var before, op := ops[..|ops| - 1], ops[|ops| - 1];
      SlotsNumberTheGrants(before);
      StepKeepsNumbering(Run(before), FreshGrants(before), op);
    }
  }

  /** `s` is later than an eviction that left `e` with the lease `was`. */
  ghost predicate SinceEviction(s: TableState, e: ExecutorId, was: Lease) {
    && e in s.leases
    && was.slot < s.next
    && was.state == LeaseEvicted
    && (if s.leases[e].slot == was.slot then s.leases[e] == was else s.leases[e].slot > was.slot)
  }

  lemma StepSinceEviction(s: TableState, op: Op, e: ExecutorId, was: Lease)
    requires WellFormed(s) && SinceEviction(s, e, was) && was.expires == ZERO_TIME
    ensures SinceEviction(Apply(s, op), e, was)
    ensures !(op.OpAcquire? && op.exec == e) && s.leases[e] == was ==> Apply(s, op).leases[e] == was
  {
  }

  ghost predicate NoAcquire(ops: seq<Op>, e: ExecutorId) {
    forall k :: 0 <= k < |ops| ==> !(ops[k].OpAcquire? && ops[k].exec == e)
  }

  lemma {:induction false} LaterSinceEviction(first: seq<Op>, more: seq<Op>, e: ExecutorId)
    requires Run(first).Evicted(e)
    ensures SinceEviction(Run(first + more), e, Run(first).leases[e])
    ensures NoAcquire(more, e) ==> Run(first + more).leases[e] == Run(first).leases[e]
    decreases |more|
  {
    if more == [] {
      assert first + more == first;
      RunIsWellFormed(first);
    } else {
      var most, op := more[..|more| - 1], more[|more| - 1];
      LaterSinceEviction(first, most, e);
      assert (first + more)[..|first + more| - 1] == first + most;
      var s := Run(first + most);
      assert Run(first + more) == Apply(s, op);
      hide Run, Apply;
      RunIsWellFormed(first + most);
      EvictedLeaseHasNoExpiry(first, e);
      StepSinceEviction(s, op, e, Run(first).leases[e]);
    }
  }

  /** Without a new Acquire of its executor, nothing that happens changes an
      evicted lease; and it is held again only with a larger slot. */
  lemma EvictedStaysEvicted(first: seq<Op>, more: seq<Op>, e: ExecutorId)
    requires Run(first).Evicted(e)
    ensures var was, s := Run(first).leases[e], Run(first + more);
      && e in s.leases
      && (NoAcquire(more, e) ==> s.leases[e] == was && e !in s.slotOf)
      && (s.Holds(e) ==> s.leases[e].slot > was.slot)
  {
    RunIsWellFormed(first + more);
    LaterSinceEviction(first, more, e);
  }

  lemma {:induction false} EvictedLeaseHasNoExpiry(ops: seq<Op>, e: ExecutorId)
    ensures Run(ops).Evicted(e) ==> Run(ops).leases[e].expires == ZERO_TIME
  {
    if ops != [] {
      EvictedLeaseHasNoExpiry(ops[..|ops| - 1], e);
    }
  }

  /** What `Executors` lists are the holders of a slot exactly while no recorded
      lease is evicted. */
  lemma ExecutorsAreHoldersIffNoneEvicted(ops: seq<Op>)
    ensures var s := Run(ops);
      (forall e :: e in s.leases <==> e in s.slotOf) <==> (forall e :: !s.Evicted(e))
  {
    var s := Run(ops);
    RunIsWellFormed(ops);
    if forall e :: e in s.leases <==> e in s.slotOf {
      forall e ensures !s.Evicted(e) {
        assert e in s.slotOf <==> s.Holds(e);
      }
    }
    if forall e :: !s.Evicted(e) {
      forall e ensures e in s.leases <==> e in s.slotOf {
        assert !s.Evicted(e);
      }
    }
  }

  /** `Executors` lists evicted leases too, so it is no list of slot holders. */
  lemma ExecutorsIncludeEvicted(e: ExecutorId, expires: Time)
    ensures var s := EvictFrom(AcquireIn(EMPTY, e, expires).0, e).0;
      e in s.leases && !s.Holds(e)
  {
  }

  // ---------- How long a lease runs ----------

  /** An Acquire of `e` has not been followed by an Evict. */
  ghost predicate Held(ops: seq<Op>, e: ExecutorId) {
    exists i: nat :: AcquiredAt(ops, i, e) && forall j: nat :: i < j < |ops| ==> ops[j] != OpEvict(e)
  }

  ghost predicate AcquiredAt(ops: seq<Op>, i: nat, e: ExecutorId) {
    i < |ops| && ops[i].OpAcquire? && ops[i].exec == e
  }

  /** Operation `k` grants `e` a lease that it does not hold, or renews one that
      it does, until `x`. */
  ghost predicate SetsExpiry(ops: seq<Op>, k: nat, e: ExecutorId, x: Time) {
    k < |ops| && ((ops[k] == OpAcquire(e, x) && !Held(ops[..k], e)) || (ops[k] == OpRenew(e, x) && Held(ops[..k], e)))
  }

  /** The last grant or renewal of the lease that `e` holds is operation `k`. */
  ghost predicate RunsUntil(ops: seq<Op>, k: nat, e: ExecutorId, x: Time) {
    SetsExpiry(ops, k, e, x)
    && forall j: nat :: k < j < |ops| ==> ops[j] != OpEvict(e) && forall y :: !SetsExpiry(ops, j, e, y)
  }

  lemma HeldAfter(ops: seq<Op>, op: Op, e: ExecutorId)
    ensures Held(ops + [op], e) <==> (op.OpAcquire? && op.exec == e) || (Held(ops, e) && op != OpEvict(e))
  {
    var all, n := ops + [op], |ops|;
    if Held(all, e) && !AcquiredAt(all, n, e) {
      var i: nat :| AcquiredAt(all, i, e) && forall j: nat :: i < j < |all| ==> all[j] != OpEvict(e);
      assert AcquiredAt(ops, i, e) && all[n] != OpEvict(e);
      forall j: nat | i < j < n ensures ops[j] != OpEvict(e) {
        assert all[j] == ops[j];
      }
      assert Held(ops, e);
    }
    if op.OpAcquire? && op.exec == e {
      assert AcquiredAt(all, n, e);
    } else if Held(ops, e) && op != OpEvict(e) {
      var i: nat :| AcquiredAt(ops, i, e) && forall j: nat :: i < j < |ops| ==> ops[j] != OpEvict(e);
      assert AcquiredAt(all, i, e);
      forall j: nat | i < j < |all| ensures all[j] != OpEvict(e) {
        if j < n {
          assert all[j] == ops[j];
        }
      }
      assert Held(all, e);
    }
  }

  lemma SetsExpiryAfter(ops: seq<Op>, op: Op, e: ExecutorId)
    ensures forall k: nat, x :: k < |ops| ==> (SetsExpiry(ops + [op], k, e, x) <==> SetsExpiry(ops, k, e, x))
    ensures forall x :: SetsExpiry(ops + [op], |ops|, e, x) <==>
      (op == OpAcquire(e, x) && !Held(ops, e)) || (op == OpRenew(e, x) && Held(ops, e))
  {
    hide Held;
    forall k: nat | k <= |ops| ensures (ops + [op])[..k] == ops[..k] {
    }
    assert ops[..|ops|] == ops;
  }

  /** A fresh grant or a renewal of a held lease. */
  predicate Sets(s: TableState, op: Op, e: ExecutorId) {
    op.exec == e && ((op.OpAcquire? && e !in s.slotOf) || (op.OpRenew? && e in s.slotOf))
  }

  /** What one operation does to the slot and the expiry of `e`. */
  lemma LeaseAfter(s: TableState, op: Op, e: ExecutorId)
    requires WellFormed(s)
    ensures var r := Apply(s, op);
      && (e in r.slotOf <==> (op.OpAcquire? && op.exec == e) || (e in s.slotOf && op != OpEvict(e)))
      && (e in r.slotOf ==> e in r.leases)
      && (e in r.slotOf && Sets(s, op, e) ==> r.leases[e].expires == op.expires)
      && (e in r.slotOf && !Sets(s, op, e) ==> e in s.slotOf && r.leases[e] == s.leases[e])
  {
    assert e in s.slotOf <==> s.Holds(e);
  }

  /** Over every run: an executor holds a slot exactly while its last Acquire is
      later than every Evict, and its lease then expires when the last of its
      grant and its renewals since said. */
  lemma {:induction false} LeaseRunsUntil(ops: seq<Op>, e: ExecutorId)
    ensures e in Run(ops).slotOf <==> Held(ops, e)
    ensures Held(ops, e) ==> e in Run(ops).leases && exists k: nat :: RunsUntil(ops, k, e, Run(ops).leases[e].expires)
  {
    if ops != [] {
      var n := |ops| - 1;
      var most, op := ops[..n], ops[n];
      assert ops == most + [op];
      LeaseRunsUntil(most, e);
      RunIsWellFormed(most);
      HeldAfter(most, op, e);
      SetsExpiryAfter(most, op, e);
      var r := Run(ops);
      assert r == Apply(Run(most), op);
      LeaseAfter(Run(most), op, e);
      hide Run, SetsExpiry, Held, Apply, WellFormed;
      if Held(ops, e) {
        var x := r.leases[e].expires;
        if SetsExpiry(ops, n, e, x) {
          assert RunsUntil(ops, n, e, x);
        } else {
          var k: nat :| RunsUntil(most, k, e, x);
          StillRunsUntil(most, op, e, k, x);
        }
      }
    }
  }

  lemma StillRunsUntil(ops: seq<Op>, op: Op, e: ExecutorId, k: nat, x: Time)
    requires RunsUntil(ops, k, e, x) && op != OpEvict(e)
    requires forall y :: !SetsExpiry(ops + [op], |ops|, e, y)
    ensures RunsUntil(ops + [op], k, e, x)
  {
    SetsExpiryAfter(ops, op, e);
    assert k < |ops|;
    var all := ops + [op];
    hide SetsExpiry;
    forall j: nat | k < j < |all| ensures all[j] != OpEvict(e) && forall y :: !SetsExpiry(all, j, e, y) {
      if j < |ops| {
        assert all[j] == ops[j];
      }
    }
  }

  lemma RunsUntilIsUnique(ops: seq<Op>, e: ExecutorId, j: nat, k: nat, x: Time, y: Time)
    requires RunsUntil(ops, j, e, x) && RunsUntil(ops, k, e, y)
    ensures j == k && x == y
  {
    hide Held;
  }

  /** So a lease granted or last renewed at `at`, and held since, lapses once
      `timeout` is over and not before. */
  lemma LapsesAfterTimeout(ops: seq<Op>, e: ExecutorId, k: nat, at: Time, timeout: Time, now: Time)
    requires Held(ops, e) && RunsUntil(ops, k, e, at + timeout)
    ensures var s := Run(ops);
      e in s.leases && (s.leases[e].state == LeaseEvicted || now > s.leases[e].expires <==> now > at + timeout)
  {
    LeaseRunsUntil(ops, e);
    RunIsWellFormed(ops);
    var s := Run(ops);
    assert s.Holds(e);
    hide Held, RunsUntil, Run;
    var j: nat :| RunsUntil(ops, j, e, s.leases[e].expires);
    RunsUntilIsUnique(ops, e, j, k, s.leases[e].expires, at + timeout);
  }

  /** What the operations answer: Acquire the slot of the lease recorded from
      then on, Renew whether the lease is held, Evict whether one was ever
      acquired. */
  lemma AnswersAreExact(ops: seq<Op>, e: ExecutorId, x: Time)
    ensures var (r, slot) := AcquireIn(Run(ops), e, x);
      e in r.leases && r.leases[e].state == LeaseLeased && r.leases[e].slot == slot
    ensures RenewIn(Run(ops), e, x).1 <==> Held(ops, e)
    ensures EvictFrom(Run(ops), e).1 <==> exists i: nat :: AcquiredAt(ops, i, e)
  {
    RunIsWellFormed(ops);
    LeaseRunsUntil(ops, e);
    RecordedWereAcquired(ops, e);
    var s := Run(ops);
    assert e in s.slotOf <==> s.Holds(e);
    hide Held, Run;
  }

  lemma AcquiredAfter(ops: seq<Op>, op: Op, e: ExecutorId)
    ensures (exists i: nat :: AcquiredAt(ops + [op], i, e))
      <==> (op.OpAcquire? && op.exec == e) || exists i: nat :: AcquiredAt(ops, i, e)
  {
    var all, n := ops + [op], |ops|;
    assert AcquiredAt(all, n, e) <==> op.OpAcquire? && op.exec == e;
    if i: nat :| AcquiredAt(ops, i, e) {
      assert AcquiredAt(all, i, e);
    }
    if i: nat :| AcquiredAt(all, i, e) {
      assert i == n || AcquiredAt(ops, i, e);
    }
  }

  lemma {:induction false} RecordedWereAcquired(ops: seq<Op>, e: ExecutorId)
    ensures e in Run(ops).leases <==> exists i: nat :: AcquiredAt(ops, i, e)
  {
    if ops != [] {
      var most, op := ops[..|ops| - 1], ops[|ops| - 1];
      assert ops == most + [op];
      RunIsWellFormed(most);
      RecordedWereAcquired(most, e);
      AcquiredAfter(most, op, e);
    }
  }
}
