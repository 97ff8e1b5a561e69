/** The table of runners, one for each executor. */
module ExecManager {
  import opened Model
  import R = RunnerSteps
  import opened RunnerSections

  datatype DispatchResult = ErrNoExecutor | Enqueued(result: EnqueueResult)

  class Manager {
    var runners: map<ExecutorId, Runner>
    const queueSize: nat

    ghost predicate Valid()
      reads this, set exec | exec in runners :: runners[exec]
    {
      forall exec :: exec in runners ==> runners[exec].Valid()
    }

    constructor (queueSize: nat)
      ensures Valid() && runners == map[] && this.queueSize == queueSize
    {
      runners := map[];
      this.queueSize := queueSize;
    }

    /** Keeps the runner an executor has; otherwise starts a new one. */
    method Add(exec: ExecutorId) returns (r: Runner)
      requires Valid()
      modifies this
      ensures Valid() && exec in runners && runners[exec] == r
      ensures exec in old(runners) ==> runners == old(runners)
      ensures exec !in old(runners) ==> fresh(r) && r.View() == R.Init(queueSize) && runners == old(runners)[exec := r]
    {
      if exec in runners {
        return runners[exec];
      }
      r := new Runner(queueSize);
      runners := runners[exec := r];
    }

    method Get(exec: ExecutorId) returns (r: Runner?)
      ensures r == if exec in runners then runners[exec] else null
    {
      return if exec in runners then runners[exec] else null;
    }

    method Remove(exec: ExecutorId)
      requires Valid()
      modifies this
      ensures Valid() && runners == old(runners) - {exec}
    {
      runners := runners - {exec};
    }

    /** Enqueues at the executor's runner, if there is one. */
    method Dispatch(exec: ExecutorId, inst: Instance) returns (result: DispatchResult, ghost es: seq<R.Event>)
      requires Valid() && (exec in runners ==> runners[exec].lock.Free?)
      modifies if exec in runners then {runners[exec]} else {}
      ensures Valid()
      ensures result.ErrNoExecutor? <==> exec !in runners
      ensures exec in runners ==>
        && runners[exec].lock.Free?
        && EnqueueRun(old(runners[exec].View()), inst, es, result.result, runners[exec].View())
    {
      hide EnqueueRun;
      var r := Get(exec);
      if r == null {
        return ErrNoExecutor, [];
      }
      var answer;
      answer, es := r.Enqueue(inst);
      result := Enqueued(answer);
    }
  }
}

/** The eviction of an executor, one method for each of its atomic parts. */
module Heartbeat {
  import opened Model
  import L = LeaseTable
  import R = RunnerSteps
  import RunnerSections
  import ExecManager

  class Evictor {
    const leases: L.Manager
    const execs: ExecManager.Manager
    var evicted: nat

    constructor (leases: L.Manager, execs: ExecManager.Manager)
      ensures this.leases == leases && this.execs == execs && evicted == 0
    {
      this.leases, this.execs, evicted := leases, execs, 0;
    }

    /** The lease comes first; without one nothing else happens. */
    method EvictLease(exec: ExecutorId) returns (ok: bool)
      modifies leases
      ensures (leases.View(), ok) == L.EvictFrom(old(leases.View()), exec)
    {
      ok := leases.Evict(exec);
    }

    /** Then the runner, if there is one: `first` says that this Shutdown is
        the one that waits. */
    method ShutdownRunner(exec: ExecutorId) returns (r: RunnerSections.Runner?, first: bool)
      requires execs.Valid() && (exec in execs.runners ==> execs.runners[exec].lock.Free?)
      modifies if exec in execs.runners then {execs.runners[exec]} else {}
      ensures execs.Valid() && r == if exec in execs.runners then execs.runners[exec] else null
      ensures r != null ==> r.View() == R.Apply(old(execs.runners[exec].View()), R.Shutdown)
      ensures first <==> r != null && !old(execs.runners[exec].closed)
    {
      r := execs.Get(exec);
      first := false;
      if r != null {
        first := r.ShutdownSection();
      }
    }

    /** The table entry goes last. */
    method RemoveRunner(exec: ExecutorId)
      requires execs.Valid()
      modifies execs, this
      ensures execs.Valid() && execs.runners == old(execs.runners) - {exec}
      ensures evicted == old(evicted) + 1
    {
      execs.Remove(exec);
      evicted := evicted + 1;
    }
  }
}

/** Registering and evicting executors, over the lease table, the runner table
    and the runners themselves, as atomic steps: the one evictor goes through
    its parts while registrations, renewals and all runners move in between. */
module Eviction {
  import opened Model
  import L = LeaseTable
  import R = RunnerSteps

  /** A runner with the executor it was started for. */
  datatype Started = Started(exec: ExecutorId, runner: R.State)

  /** How far the eviction in progress has come: lease evicted, runner found at
      `k` or not found, Shutdown called (and waiting if it was the first),
      Shutdown and Wait over. */
  datatype Evictor =
    | Idle
    | LeaseGone(exec: ExecutorId)
    | Found(exec: ExecutorId, k: nat)
    | Missed(exec: ExecutorId)
    | Shutting(exec: ExecutorId, k: nat, first: bool)
    | Removing(exec: ExecutorId)
  {
    predicate On(x: ExecutorId) {
      !Idle? && exec == x
    }
  }

  /** `pool` holds every runner ever started; `runners` maps an executor to
      the position of its current one; `adding` has the registrations between
      their Add and their Acquire. */
  datatype State = State(
    leases: L.TableState,
    runners: map<ExecutorId, nat>,
    pool: seq<Started>,
    evictor: Evictor,
    adding: multiset<ExecutorId>)

  const INIT := State(L.EMPTY, map[], [], Idle, multiset{})

  datatype Event =
    | RegisterAdd(exec: ExecutorId, size: nat)
    | RegisterAcquire(exec: ExecutorId, expires: Time)
    | Renew(exec: ExecutorId, expires: Time)
    | EvictLease(exec: ExecutorId)
    | EvictGet
    | EvictShutdown
    | EvictReturn
    | EvictRemove
    | RunnerStep(k: nat, step: R.Event)

  /** Only evictions shut a runner down. When this Shutdown was not the first,
      it returns at once and Wait may time out. */
  predicate Enabled(s: State, e: Event) {
    match e
    case RegisterAdd(_, size) => size >= 1
    case RegisterAcquire(x, _) => x in s.adding
    case Renew(_, _) => true
    case EvictLease(_) => s.evictor.Idle?
    case EvictGet => s.evictor.LeaseGone?
    case EvictShutdown => s.evictor.Found? && s.evictor.k < |s.pool| && s.pool[s.evictor.k].runner.lock.Free?
    case EvictReturn =>
      && s.evictor.Shutting? && s.evictor.k < |s.pool|
      && (s.evictor.first ==> s.pool[s.evictor.k].runner.closing.Released?)
    case EvictRemove => s.evictor.Missed? || s.evictor.Removing?
    case RunnerStep(k, step) => k < |s.pool| && !step.Shutdown? && R.Enabled(s.pool[k].runner, step)
  }

  function WithRunner(pool: seq<Started>, k: nat, r: R.State): (t: seq<Started>)
    requires k < |pool|
    ensures |t| == |pool| && t[k].runner == r
    ensures forall i :: 0 <= i < |t| ==> t[i].exec == pool[i].exec && (i != k ==> t[i] == pool[i])
  {
    pool[k := pool[k].(runner := r)]
  }

  function Apply(s: State, e: Event): State
    requires Enabled(s, e)
  {
    match e
    case RegisterAdd(x, size) =>
      var added := if x in s.runners then s
                   else s.(runners := s.runners[x := |s.pool|], pool := s.pool + [Started(x, R.Init(size))]);
      added.(adding := s.adding + multiset{x})
    case RegisterAcquire(x, expires) =>
      s.(leases := L.AcquireIn(s.leases, x, expires).0, adding := s.adding - multiset{x})
    case Renew(x, expires) => s.(leases := L.RenewIn(s.leases, x, expires).0)
    case EvictLease(x) =>
      var (leases, ok) := L.EvictFrom(s.leases, x);
      s.(leases := leases, evictor := if ok then LeaseGone(x) else Idle)
    case EvictGet =>
      var x := s.evictor.exec;
      s.(evictor := if x in s.runners then Found(x, s.runners[x]) else Missed(x))
    case EvictShutdown =>
      var Found(x, k) := s.evictor;
      var r := s.pool[k].runner;
      s.(pool := WithRunner(s.pool, k, R.Apply(r, R.Shutdown)), evictor := Shutting(x, k, !r.Closed()))
    case EvictReturn => s.(evictor := Removing(s.evictor.exec))
    case EvictRemove => s.(runners := s.runners - {s.evictor.exec}, evictor := Idle)
    case RunnerStep(k, step) => s.(pool := WithRunner(s.pool, k, R.Apply(s.pool[k].runner, step)))
  }

  // ---------- Runs ----------

  /** What a run may not do: nothing excluded; no Add of an executor whose
      eviction found no runner and has not ended; no registration and eviction
      of one executor at the same time. */
  datatype Discipline = Anything | ClearOfGap | Apart

  predicate Permits(d: Discipline, s: State, e: Event) {
    match d
    case Anything => true
    case ClearOfGap => e.RegisterAdd? ==> !(s.evictor.Missed? && s.evictor.exec == e.exec)
    case Apart => (e.RegisterAdd? ==> !s.evictor.On(e.exec)) && (e.EvictLease? ==> e.exec !in s.adding)
  }

  predicate CanRun(d: Discipline, s: State, es: seq<Event>)
    decreases |es|
  {
    es == [] || (Enabled(s, es[0]) && Permits(d, s, es[0]) && CanRun(d, Apply(s, es[0]), es[1..]))
  }

  function Exec(d: Discipline, s: State, es: seq<Event>): State
    requires CanRun(d, s, es)
    decreases |es|
  {
    if es == [] then s else Exec(d, Apply(s, es[0]), es[1..])
  }

  ghost predicate Reachable(d: Discipline, s: State) {
    exists es :: CanRun(d, INIT, es) && Exec(d, INIT, es) == s
  }

  // ---------- The runners ----------

  /** The runner at `k` is the one its executor is mapped to. */
  predicate Current(s: State, k: nat)
    requires k < |s.pool|
  {
    s.pool[k].exec in s.runners && s.runners[s.pool[k].exec] == k
  }

  /** A runner serves, is being shut down, or is done for good. */
  datatype Standing = Serving | Closing | Retired

  function StandingOf(s: State, k: nat): Standing
    requires k < |s.pool|
  {
    if !Current(s, k) then Retired
    else if s.evictor.Shutting? && s.evictor.k == k then Closing
    else if s.evictor.Removing? && s.evictor.exec == s.pool[k].exec then Retired
    else Serving
  }

  ghost predicate RunnerOk(r: R.State, standing: Standing) {
    && R.Inv(r)
    && match standing
       case Serving => r.closing.Open?
       case Closing => !r.closing.Open?
       case Retired => r.closing.Released?
  }

  ghost predicate PoolOk(s: State) {
    forall k :: 0 <= k < |s.pool| ==> RunnerOk(s.pool[k].runner, StandingOf(s, k))
  }

  /** The runner table points at runners of the right executor, and the evictor
      sees the table as it is. */
  ghost predicate TableOk(s: State) {
    && (forall x :: x in s.runners ==> s.runners[x] < |s.pool| && s.pool[s.runners[x]].exec == x)
    && match s.evictor
       case Idle => true
       case LeaseGone(_) => true
       case Missed(x) => x !in s.runners
       case Found(x, k) => x in s.runners && s.runners[x] == k
       case Shutting(x, k, first) => x in s.runners && s.runners[x] == k && first
       case Removing(x) => x in s.runners
  }

  ghost predicate RunnersOk(s: State) {
    TableOk(s) && PoolOk(s)
  }

  lemma StepKeepsTable(d: Discipline, s: State, e: Event)
    requires d != Anything && RunnersOk(s) && Enabled(s, e) && Permits(d, s, e)
    ensures TableOk(Apply(s, e))
  {
    hide RunnerOk, PoolOk, StandingOf, WithRunner, R.Init, R.Apply, R.Enabled, L.AcquireIn, L.RenewIn, L.EvictFrom;
    if e.EvictShutdown? {
      FoundRunnerIsOpen(s);
    }
  }

  lemma FoundRunnerIsOpen(s: State)
    requires RunnersOk(s) && s.evictor.Found?
    ensures s.pool[s.evictor.k].runner.closing.Open?
  {
    hide R.Inv;
    assert RunnerOk(s.pool[s.evictor.k].runner, StandingOf(s, s.evictor.k));
  }

  /** A runner moves on, is shut down, or has come to the end of its shutdown;
      otherwise it keeps its state and its standing. */
  lemma StepKeepsRunnerAt(d: Discipline, s: State, e: Event, k: nat)
    requires d != Anything && RunnersOk(s) && Enabled(s, e) && Permits(d, s, e) && k < |s.pool|
    ensures RunnerOk(Apply(s, e).pool[k].runner, StandingOf(Apply(s, e), k))
  {
    hide RunnerOk, WithRunner, R.Apply, R.Enabled, R.Init, L.AcquireIn, L.RenewIn, L.EvictFrom;
    var r, standing := s.pool[k].runner, StandingOf(s, k);
    assert RunnerOk(r, standing);
    hide PoolOk;
    if e.RunnerStep? && e.k == k {
      StepKeepsRunnerOk(r, e.step, standing);
    } else if e.EvictShutdown? && s.evictor.k == k {
      ShutdownKeepsRunnerOk(r);
    } else if e.EvictReturn? && s.evictor.k == k {
      ReleasedIsRetired(r, standing);
    } else {
      assert Apply(s, e).pool[k].runner == r;
    }
  }

  lemma StepKeepsPool(d: Discipline, s: State, e: Event)
    requires d != Anything && RunnersOk(s) && Enabled(s, e) && Permits(d, s, e)
    ensures PoolOk(Apply(s, e))
  {
    hide RunnerOk, R.Apply, R.Enabled, R.Init, L.AcquireIn, L.RenewIn, L.EvictFrom;
    var t := Apply(s, e);
    forall k | 0 <= k < |t.pool| ensures RunnerOk(t.pool[k].runner, StandingOf(t, k)) {
      if k == |s.pool| {
        NewRunnerIsOk(e.size);
      } else {
        StepKeepsRunnerAt(d, s, e, k);
      }
    }
  }

  lemma ReleasedIsRetired(r: R.State, standing: Standing)
    requires RunnerOk(r, standing) && r.closing.Released?
    ensures RunnerOk(r, Retired)
  {
    hide R.Inv;
  }

  lemma NewRunnerIsOk(size: nat)
    ensures RunnerOk(R.Init(size), Serving)
  {
  }

  /** Only Shutdown closes a runner, and a released one stays released. */
  lemma StepKeepsRunnerOk(r: R.State, step: R.Event, standing: Standing)
    requires RunnerOk(r, standing) && R.Enabled(r, step) && !step.Shutdown?
    ensures RunnerOk(R.Apply(r, step), standing)
  {
    R.StepKeepsInv(r, step);
    ClosingStays(r, step);
    hide R.Inv, R.Apply, R.Enabled;
  }

  lemma ClosingStays(r: R.State, step: R.Event)
    requires R.Enabled(r, step) && !step.Shutdown?
    ensures R.Apply(r, step).closing.Open? == r.closing.Open?
    ensures r.closing.Released? ==> R.Apply(r, step).closing.Released?
  {
  }

  lemma ShutdownKeepsRunnerOk(r: R.State)
    requires RunnerOk(r, Serving) && r.lock.Free?
    ensures RunnerOk(R.Apply(r, R.Shutdown), Closing)
  {
    R.StepKeepsInv(r, R.Shutdown);
    hide R.Inv;
  }

  lemma StepKeepsRunners(d: Discipline, s: State, e: Event)
    requires d != Anything && RunnersOk(s) && Enabled(s, e) && Permits(d, s, e)
    ensures RunnersOk(Apply(s, e))
  {
    hide TableOk, PoolOk, Enabled, Permits, Apply;
    StepKeepsTable(d, s, e);
    StepKeepsPool(d, s, e);
  }

  lemma {:induction false} RunKeepsRunners(d: Discipline, s: State, es: seq<Event>)
    requires d != Anything && RunnersOk(s) && CanRun(d, s, es)
    ensures RunnersOk(Exec(d, s, es))
    decreases |es|
  {
    if es != [] {
      StepKeepsRunners(d, s, es[0]);
      RunKeepsRunners(d, Apply(s, es[0]), es[1..]);
    }
  }

  /** With registrations at any moment except in the gap of a failed lookup:
      every runner that an executor is no longer mapped to is quiet. */
  lemma UnmappedRunnersAreQuiet(d: Discipline, s: State, k: nat)
    requires d != Anything && Reachable(d, s) && k < |s.pool| && !Current(s, k)
    ensures s.pool[k].runner.closing.Released? && !s.pool[k].runner.worker.Busy()
  {
    var es :| CanRun(d, INIT, es) && Exec(d, INIT, es) == s;
    RunKeepsRunners(d, INIT, es);
    assert RunnerOk(s.pool[k].runner, StandingOf(s, k));
    assert R.Quiet(s.pool[k].runner);
  }

  /** So an old and a new runner of one executor never execute together. */
  lemma OneRunnerExecutes(d: Discipline, s: State, j: nat, k: nat)
    requires d != Anything && Reachable(d, s) && j < |s.pool| && k < |s.pool| && s.pool[j].exec == s.pool[k].exec
    requires s.pool[j].runner.worker.Busy() && s.pool[k].runner.worker.Busy()
    ensures j == k
  {
    hide Reachable;
    if !Current(s, j) {
      UnmappedRunnersAreQuiet(d, s, j);
    }
    if !Current(s, k) {
      UnmappedRunnersAreQuiet(d, s, k);
    }
  }

  // ---------- The slots ----------

  /** Registered and not being registered or evicted right now. */
  predicate Settled(s: State, x: ExecutorId) {
    x !in s.adding && !s.evictor.On(x)
  }

  /** An executor that is settled has a slot exactly when it is mapped to a
      runner; one being registered has its runner; one being evicted has no
      slot. */
  ghost predicate SlotsMatch(slots: set<ExecutorId>, mapped: set<ExecutorId>, evictor: Evictor,
      adding: multiset<ExecutorId>) {
    && (forall x :: x in adding ==> x in mapped && !evictor.On(x))
    && (forall x :: evictor.On(x) ==> x !in slots)
    && (forall x :: x !in adding && !evictor.On(x) ==> (x in slots <==> x in mapped))
  }

  ghost predicate SlotsOk(s: State) {
    L.WellFormed(s.leases) && SlotsMatch(s.leases.slotOf.Keys, s.runners.Keys, s.evictor, s.adding)
  }

  lemma StepKeepsSlots(s: State, e: Event)
    requires SlotsOk(s) && Enabled(s, e) && Permits(Apart, s, e)
    ensures SlotsOk(Apply(s, e))
  {
    hide SlotsMatch, L.WellFormed, L.AcquireIn, L.RenewIn, L.EvictFrom, R.Init, R.Apply, R.Enabled, WithRunner;
    var slots, mapped := s.leases.slotOf.Keys, s.runners.Keys;
    match e
    case RegisterAdd(x, _) =>
      AddKeepsMatch(slots, mapped, s.evictor, s.adding, x);
      assert Apply(s, e).runners.Keys == mapped + {x};
    case RegisterAcquire(x, expires) =>
      LeaseStep(s.leases, L.OpAcquire(x, expires));
      AcquireKeepsMatch(slots, mapped, s.evictor, s.adding, x);
    case Renew(x, expires) => LeaseStep(s.leases, L.OpRenew(x, expires));
    case EvictLease(x) =>
      LeaseStep(s.leases, L.OpEvict(x));
      EvictKeepsMatch(slots, mapped, s.adding, x);
      assert x !in slots ==> slots - {x} == slots;
    case EvictGet => MovingOnKeepsMatch(slots, mapped, s.evictor, Apply(s, e).evictor, s.adding);
    case EvictShutdown => MovingOnKeepsMatch(slots, mapped, s.evictor, Apply(s, e).evictor, s.adding);
    case EvictReturn => MovingOnKeepsMatch(slots, mapped, s.evictor, Apply(s, e).evictor, s.adding);
    case EvictRemove =>
      RemoveKeepsMatch(slots, mapped, s.evictor, s.adding);
      assert Apply(s, e).runners.Keys == mapped - {s.evictor.exec};
    case RunnerStep(_, _) =>
  }

  lemma AddKeepsMatch(slots: set<ExecutorId>, mapped: set<ExecutorId>, v: Evictor, adding: multiset<ExecutorId>,
      x: ExecutorId)
    requires SlotsMatch(slots, mapped, v, adding) && !v.On(x)
    ensures SlotsMatch(slots, mapped + {x}, v, adding + multiset{x})
  {
  }

  lemma AcquireKeepsMatch(slots: set<ExecutorId>, mapped: set<ExecutorId>, v: Evictor, adding: multiset<ExecutorId>,
      x: ExecutorId)
    requires SlotsMatch(slots, mapped, v, adding) && x in adding
    ensures SlotsMatch(slots + {x}, mapped, v, adding - multiset{x})
  {
  }

  lemma EvictKeepsMatch(slots: set<ExecutorId>, mapped: set<ExecutorId>, adding: multiset<ExecutorId>, x: ExecutorId)
    requires SlotsMatch(slots, mapped, Idle, adding) && x !in adding
    ensures SlotsMatch(slots - {x}, mapped, LeaseGone(x), adding)
  {
  }

  lemma MovingOnKeepsMatch(slots: set<ExecutorId>, mapped: set<ExecutorId>, v: Evictor, w: Evictor,
      adding: multiset<ExecutorId>)
    requires SlotsMatch(slots, mapped, v, adding) && !v.Idle? && !w.Idle? && v.exec == w.exec
    ensures SlotsMatch(slots, mapped, w, adding)
  {
  }

  lemma RemoveKeepsMatch(slots: set<ExecutorId>, mapped: set<ExecutorId>, v: Evictor, adding: multiset<ExecutorId>)
    requires SlotsMatch(slots, mapped, v, adding) && !v.Idle?
    ensures SlotsMatch(slots, mapped - {v.exec}, Idle, adding)
  {
  }

  /** What a lease step does to the executors that hold a slot. */
  lemma LeaseStep(l: L.TableState, op: L.Op)
    requires L.WellFormed(l)
    ensures L.WellFormed(L.Apply(l, op))
    ensures L.Apply(l, op).slotOf.Keys ==
      match op
      case OpAcquire(x, _) => l.slotOf.Keys + {x}
      case OpRenew(_, _) => l.slotOf.Keys
      case OpEvict(x) => l.slotOf.Keys - {x}
    ensures op.OpEvict? && !L.EvictFrom(l, op.exec).1 ==> op.exec !in l.slotOf.Keys
  {
    L.StepKeepsWellFormed(l, op);
  }

  lemma {:induction false} RunKeepsSlots(s: State, es: seq<Event>)
    requires SlotsOk(s) && CanRun(Apart, s, es)
    ensures SlotsOk(Exec(Apart, s, es))
    decreases |es|
  {
    if es != [] {
      StepKeepsSlots(s, es[0]);
      RunKeepsSlots(Apply(s, es[0]), es[1..]);
    }
  }

  /** When registrations and evictions of one executor do not overlap, an
      executor with neither in progress holds a slot exactly when it is mapped
      to an open runner of its own. */
  lemma SlotMeansOpenRunner(s: State, x: ExecutorId)
    requires Reachable(Apart, s) && Settled(s, x)
    ensures x in s.leases.slotOf <==>
      exists k :: 0 <= k < |s.pool| && s.pool[k].exec == x && Current(s, k) && s.pool[k].runner.closing.Open?
  {
    var es :| CanRun(Apart, INIT, es) && Exec(Apart, INIT, es) == s;
    RunKeepsSlots(INIT, es);
    RunKeepsRunners(Apart, INIT, es);
    hide CanRun, Exec, R.Inv, L.WellFormed, RunnersOk;
    if x in s.runners {
      MappedRunnerIsOpen(s, x);
    }
  }

  lemma MappedRunnerIsOpen(s: State, x: ExecutorId)
    requires RunnersOk(s) && Settled(s, x) && x in s.runners
    ensures var k := s.runners[x];
      k < |s.pool| && s.pool[k].exec == x && Current(s, k) && s.pool[k].runner.closing.Open?
  {
    hide R.Inv;
    assert RunnerOk(s.pool[s.runners[x]].runner, StandingOf(s, s.runners[x]));
  }

  // ---------- The lease table underneath ----------

  /** What a step does to the lease table, if anything. */
  function LeaseOps(e: Event): seq<L.Op> {
    match e
    case RegisterAcquire(x, expires) => [L.OpAcquire(x, expires)]
    case Renew(x, expires) => [L.OpRenew(x, expires)]
    case EvictLease(x) => [L.OpEvict(x)]
    case _ => []
  }

  function AllLeaseOps(es: seq<Event>): seq<L.Op> {
    if es == [] then [] else LeaseOps(es[0]) + AllLeaseOps(es[1..])
  }

  lemma StepIsLeaseOps(s: State, e: Event, before: seq<L.Op>)
    requires Enabled(s, e) && s.leases == L.Run(before)
    ensures Apply(s, e).leases == L.Run(before + LeaseOps(e))
  {
    hide R.Apply, R.Enabled, R.Init, WithRunner, L.AcquireIn, L.RenewIn, L.EvictFrom;
    if LeaseOps(e) == [] {
      assert before + LeaseOps(e) == before;
    } else {
      assert (before + LeaseOps(e))[..|before|] == before;
    }
  }

  lemma {:induction false} LeasesFollow(d: Discipline, s: State, es: seq<Event>, before: seq<L.Op>)
    requires CanRun(d, s, es) && s.leases == L.Run(before)
    ensures Exec(d, s, es).leases == L.Run(before + AllLeaseOps(es))
    decreases |es|
  {
    hide Apply, Enabled, LeaseOps, L.Run;
    if es == [] {
      assert before + AllLeaseOps(es) == before;
    } else {
      StepIsLeaseOps(s, es[0], before);
      LeasesFollow(d, Apply(s, es[0]), es[1..], before + LeaseOps(es[0]));
      assert before + (LeaseOps(es[0]) + AllLeaseOps(es[1..])) == before + LeaseOps(es[0]) + AllLeaseOps(es[1..]);
    }
  }

  /** In every run of the protocol the lease table is that of its Acquires,
      Renews and Evicts in their order, so all that holds of lease runs holds
      here. */
  lemma LeasesAreALeaseRun(d: Discipline, es: seq<Event>)
    requires CanRun(d, INIT, es)
    ensures Exec(d, INIT, es).leases == L.Run(AllLeaseOps(es))
  {
    LeasesFollow(d, INIT, es, []);
    assert [] + AllLeaseOps(es) == AllLeaseOps(es);
  }

  // ---------- Both conditions are needed ----------

  /** Nothing more is begun for `x`. */
  predicate NothingBegins(es: seq<Event>, x: ExecutorId) {
    forall k :: 0 <= k < |es| ==> !(es[k].RegisterAdd? && es[k].exec == x) && !(es[k].EvictLease? && es[k].exec == x)
  }

  /** Any overlap loses the runner: whenever a registration and an eviction of
      one executor are both in progress, then in whatever order their steps go
      on, once both are over the executor has a slot and no runner. */
  lemma AnyOverlapLosesRunner(s: State, es: seq<Event>, x: ExecutorId)
    requires x in s.adding && s.evictor.On(x)
    requires CanRun(Anything, s, es) && NothingBegins(es, x)
    ensures var t := Exec(Anything, s, es);
      Settled(t, x) ==> x in t.leases.slotOf && x !in t.runners
  {
    OverlapStays(s, es, x);
  }

  /** A registration past its Acquire has its slot; an eviction past its removal
      has left no runner. */
  ghost predicate Overlapped(s: State, x: ExecutorId) {
    (x !in s.adding ==> x in s.leases.slotOf) && (!s.evictor.On(x) ==> x !in s.runners)
  }

  lemma {:induction false} OverlapStays(s: State, es: seq<Event>, x: ExecutorId)
    requires Overlapped(s, x) && CanRun(Anything, s, es) && NothingBegins(es, x)
    ensures Overlapped(Exec(Anything, s, es), x)
    decreases |es|
  {
    if es != [] {
      StepKeepsOverlapped(s, es[0], x);
      assert forall k :: 0 <= k < |es| - 1 ==> es[1..][k] == es[k + 1];
      OverlapStays(Apply(s, es[0]), es[1..], x);
    }
  }

  lemma StepKeepsOverlapped(s: State, e: Event, x: ExecutorId)
    requires Overlapped(s, x) && Enabled(s, e)
    requires !(e.RegisterAdd? && e.exec == x) && !(e.EvictLease? && e.exec == x)
    ensures Overlapped(Apply(s, e), x)
  {
    hide R.Apply, R.Enabled, R.Init, WithRunner;
  }

  /** The runner at `k` was added in the gap. */
  ghost predicate InGap(s: State, x: ExecutorId, k: nat) {
    && s.evictor == Missed(x) && x in s.runners && s.runners[x] == k
    && k < |s.pool| && s.pool[k].exec == x && s.pool[k].runner.closing.Open?
  }

  lemma StepKeepsGap(s: State, e: Event, x: ExecutorId, k: nat)
    requires InGap(s, x, k) && Enabled(s, e) && !e.EvictRemove?
    ensures InGap(Apply(s, e), x, k)
  {
    if e.RunnerStep? {
      ClosingStays(s.pool[e.k].runner, e.step);
    }
    hide R.Apply, R.Enabled, R.Init, WithRunner, L.AcquireIn, L.RenewIn, L.EvictFrom;
  }

  lemma {:induction false} GapLasts(s: State, es: seq<Event>, x: ExecutorId, k: nat)
    requires InGap(s, x, k) && CanRun(Anything, s, es) && forall j :: 0 <= j < |es| ==> !es[j].EvictRemove?
    ensures InGap(Exec(Anything, s, es), x, k)
    decreases |es|
  {
    hide InGap, Apply, Enabled;
    if es != [] {
      assert !es[0].EvictRemove?;
      StepKeepsGap(s, es[0], x, k);
      assert forall j :: 0 <= j < |es| - 1 ==> es[1..][j] == es[j + 1];
      GapLasts(Apply(s, es[0]), es[1..], x, k);
    }
  }

  /** An Add in the gap of a failed lookup always strands its runner: whatever
      happens in between, the eviction ends by unmapping it without a
      Shutdown. */
  lemma GapStrandsRunner(d: Discipline, s: State, x: ExecutorId, size: nat, es: seq<Event>)
    requires d != Anything && Reachable(d, s) && s.evictor == Missed(x) && size >= 1
    requires var added := Apply(s, RegisterAdd(x, size));
      CanRun(Anything, added, es) && forall j :: 0 <= j < |es| ==> !es[j].EvictRemove?
    ensures var k, last := |s.pool|, Exec(Anything, Apply(s, RegisterAdd(x, size)), es);
      && Enabled(last, EvictRemove)
      && var t := Apply(last, EvictRemove);
         k < |t.pool| && t.pool[k].exec == x && !Current(t, k) && t.pool[k].runner.closing.Open?
  {
    NotMappedWhenMissed(d, s);
    hide Reachable, R.Apply, R.Enabled;
    GapLasts(Apply(s, RegisterAdd(x, size)), es, x, |s.pool|);
  }

  lemma NotMappedWhenMissed(d: Discipline, s: State)
    requires d != Anything && Reachable(d, s) && s.evictor.Missed?
    ensures s.evictor.exec !in s.runners
  {
    var es :| CanRun(d, INIT, es) && Exec(d, INIT, es) == s;
    RunKeepsRunners(d, INIT, es);
  }

  lemma {:induction false} RunsExtend(d: Discipline, s: State, es: seq<Event>, e: Event)
    requires CanRun(d, s, es) && Enabled(Exec(d, s, es), e) && Permits(d, Exec(d, s, es), e)
    ensures CanRun(d, s, es + [e]) && Exec(d, s, es + [e]) == Apply(Exec(d, s, es), e)
    decreases |es|
  {
    hide Apply, Enabled, Permits;
    if es == [] {
      assert es + [e] == [e] && [e][1..] == [];
    } else {
      RunsExtend(d, Apply(s, es[0]), es[1..], e);
      assert (es + [e])[1..] == es[1..] + [e];
    }
  }

  lemma Next(s: State, e: Event) returns (t: State)
    requires Reachable(Anything, s) && Enabled(s, e)
    ensures t == Apply(s, e) && Reachable(Anything, t)
  {
    hide Apply, Enabled;
    t := Apply(s, e);
    var es :| CanRun(Anything, INIT, es) && Exec(Anything, INIT, es) == s;
    RunsExtend(Anything, INIT, es, e);
  }

  /** A new runner can be put to work. */
  lemma PutToWork(s: State, k: nat, i: Instance) returns (t: State)
    requires Reachable(Anything, s) && k < |s.pool| && s.pool[k].runner == R.Init(1)
    ensures Reachable(Anything, t) && t.(pool := s.pool) == s && |t.pool| == |s.pool|
    ensures t.pool[k].exec == s.pool[k].exec && t.pool[k].runner.worker.Busy()
    ensures forall j :: 0 <= j < |s.pool| && j != k ==> t.pool[j] == s.pool[j]
  {
    hide Reachable;
    var s1 := Next(s, RunnerStep(k, R.Enqueue(i)));
    var s2 := Next(s1, RunnerStep(k, R.Receive));
    t := Next(s2, RunnerStep(k, R.Admit));
  }

  /** An idle runner under Shutdown gets through to the end. */
  lemma ShutsDown(s: State, k: nat) returns (t: State)
    requires Reachable(Anything, s) && k < |s.pool| && s.pool[k].runner == R.Init(1).(closing := R.Waiting)
    ensures Reachable(Anything, t) && t.(pool := s.pool) == s && |t.pool| == |s.pool|
    ensures t.pool[k] == s.pool[k].(runner := R.Init(1).(closing := R.Released))
  {
    hide Reachable;
    var s1 := Next(s, RunnerStep(k, R.WaitPasses));
    var s2 := Next(s1, RunnerStep(k, R.CloseStop));
    t := Next(s2, RunnerStep(k, R.CloseDone));
  }

  /** A first executor is registered and its eviction under way. */
  lemma EvictionBegins(x: ExecutorId, expires: Time) returns (s: State)
    ensures Reachable(Anything, s) && s.evictor == Found(x, 0) && s.runners == map[x := 0]
      && s.pool == [Started(x, R.Init(1))]
    ensures x in s.leases.leases
  {
    assert CanRun(Anything, INIT, []) && Exec(Anything, INIT, []) == INIT;
    assert Reachable(Anything, INIT);
    hide Reachable;
    var s1 := Next(INIT, RegisterAdd(x, 1));
    var s2 := Next(s1, RegisterAcquire(x, expires));
    var s3 := Next(s2, EvictLease(x));
    s := Next(s3, EvictGet);
  }

  /** An executor that was registered and evicted; its lease stays recorded, so
      the next sweep evicts it again and finds no runner. */
  lemma EvictedTwice(x: ExecutorId, expires: Time) returns (s: State)
    ensures Reachable(Anything, s) && s.evictor == Missed(x) && x !in s.runners && |s.pool| == 1
  {
    hide Reachable;
    var s4 := EvictionBegins(x, expires);
    var s5 := Next(s4, EvictShutdown);
    var s6 := ShutsDown(s5, 0);
    var s7 := Next(s6, EvictReturn);
    var s8 := Next(s7, EvictRemove);
    var s9 := Next(s8, EvictLease(x));
    s := Next(s9, EvictGet);
  }

  /** With an Add in the gap two runners of one executor can execute at the
      same time. */
  lemma TwoRunnersCanExecute(x: ExecutorId, expires: Time, a: Instance, b: Instance) returns (s: State)
    ensures Reachable(Anything, s) && |s.pool| == 3
    ensures s.pool[1].exec == x && s.pool[1].runner.worker.Busy()
    ensures s.pool[2].exec == x && s.pool[2].runner.worker.Busy()
  {
    hide Reachable;
    var s0 := EvictedTwice(x, expires);
    var s1 := Next(s0, RegisterAdd(x, 1));
    var s2 := PutToWork(s1, 1, a);
    var s3 := Next(s2, EvictRemove);
    var s4 := Next(s3, RegisterAdd(x, 1));
    s := PutToWork(s4, 2, b);
  }
}
