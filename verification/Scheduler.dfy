/** The broker and the dispatcher as objects over the store, the queue, the
    registry, the dependency graph and the lease table. Every call is shown to
    be a run of the steps in module Pipeline, on a ghost state that carries
    where each task went. */
module Scheduler {
  import opened Model
  import opened Clock
  import WQ = WaitingQueue
  import TS = TaskStore
  import R = TaskRegistry
  import Deps
  import LeaseTable
  import L = Limiter
  import E = ExecManager
  import RS = RunnerSections
  import Steps = RunnerSteps
  import opened P = Pipeline

  // ---------- One attempt ----------

  /** One task of a batch from attempt to commit. */
  function AfterAttempt(s: State, outcome: Outcome): State
    requires s.phase.Scanning? && s.phase.batch != []
  {
    var task, next := s.phase.batch[0], Scanning(s.phase.win, s.phase.batch[1..]);
    if outcome.Taken? then
      s.(handed := s.handed + [task], phase := next,
         store := TS.CommitTo(TS.MarkIn(s.store, task.sequence, true), task.sequence).0)
    else s.(failed := s.failed + multiset{task}, phase := next)
  }

  function AttemptEvents(outcome: Outcome): seq<Event> {
    if outcome.Taken? then [Attempt(outcome), Mark, Commit] else [Attempt(outcome)]
  }

  lemma AttemptIsRun(s: State, outcome: Outcome)
    requires Enabled(s, Attempt(outcome))
    ensures CanRun(s, AttemptEvents(outcome)) && Exec(s, AttemptEvents(outcome)) == AfterAttempt(s, outcome)
  {
    var none: seq<Event> := [];
    assert CanRun(s, none) && Exec(s, none) == s;
    RunExtends(s, none, Attempt(outcome));
    assert none + [Attempt(outcome)] == [Attempt(outcome)];
    if outcome.Taken? {
      RunExtends(s, [Attempt(outcome)], Mark);
      assert [Attempt(outcome)] + [Mark] == [Attempt(outcome), Mark];
      RunExtends(s, [Attempt(outcome), Mark], Commit);
      assert [Attempt(outcome), Mark] + [Commit] == [Attempt(outcome), Mark, Commit];
    }
  }

  /** The tasks whose attempt was taken (or was not), in order. */
  function Chosen(tasks: seq<Task>, outcomes: seq<Outcome>, taken: bool): seq<Task>
    requires |tasks| == |outcomes|
  {
    if tasks == [] then []
    else
      var n := |tasks| - 1;
      Chosen(tasks[..n], outcomes[..n], taken) + if outcomes[n].Taken? == taken then [tasks[n]] else []
  }

  lemma ChosenGrows(batch: seq<Task>, n: nat, outcomes: seq<Outcome>, o: Outcome, taken: bool)
    requires n < |batch| && |outcomes| == n
    ensures Chosen(batch[..n + 1], outcomes + [o], taken)
      == if o.Taken? == taken then Chosen(batch[..n], outcomes, taken) + [batch[n]]
        else Chosen(batch[..n], outcomes, taken)
  {
    assert batch[..n + 1][..n] == batch[..n] && (outcomes + [o])[..n] == outcomes;
  }

  function FirstFailure(outcomes: seq<Outcome>): Option<Outcome> {
    if outcomes == [] then None
    else
      var n := |outcomes| - 1;
      var earlier := FirstFailure(outcomes[..n]);
      if earlier.Some? || outcomes[n].Taken? then earlier else Some(outcomes[n])
  }

  /** It is the first failure that counts. */
  lemma {:induction false} FirstFailureIsFirst(outcomes: seq<Outcome>)
    ensures match FirstFailure(outcomes)
      case None => forall k :: 0 <= k < |outcomes| ==> outcomes[k].Taken?
      case Some(o) => exists k ::
        0 <= k < |outcomes| && outcomes[k] == o && !o.Taken? && forall j :: 0 <= j < k ==> outcomes[j].Taken?
  {
    if outcomes != [] {
      var n := |outcomes| - 1;
      FirstFailureIsFirst(outcomes[..n]);
      assert outcomes == outcomes[..n] + [outcomes[n]];
      if FirstFailure(outcomes[..n]).Some? {
        var o := FirstFailure(outcomes[..n]).value;
        var k :| 0 <= k < n && outcomes[..n][k] == o && forall j :: 0 <= j < k ==> outcomes[..n][j].Taken?;
        assert outcomes[k] == o && forall j :: 0 <= j < k ==> outcomes[j] == outcomes[..n][j];
      } else {
        assert forall j :: 0 <= j < n ==> outcomes[j] == outcomes[..n][j];
        assert outcomes[n].Taken? || outcomes[n] == FirstFailure(outcomes).value;
      }
    }
  }

  lemma FailureGrows(outcomes: seq<Outcome>, o: Outcome)
    ensures FirstFailure(outcomes + [o])
      == if FirstFailure(outcomes).Some? || o.Taken? then FirstFailure(outcomes) else Some(o)
  {
    assert (outcomes + [o])[..|outcomes|] == outcomes;
  }

  /** The table after the states of `tasks` were set to dispatched. */
  function AllDispatched(r: R.RegState, tasks: seq<Task>): R.RegState {
    if tasks == [] then r
    else R.SetStateIn(AllDispatched(r, tasks[..|tasks| - 1]), tasks[|tasks| - 1].id, TaskDispatched)
  }

  lemma AllDispatchedGrows(r: R.RegState, tasks: seq<Task>, t: Task)
    ensures AllDispatched(r, tasks + [t]) == R.SetStateIn(AllDispatched(r, tasks), t.id, TaskDispatched)
  {
    assert (tasks + [t])[..|tasks|] == tasks;
  }

  // ---------- The scan of a batch ----------

  /** `n` tasks of the batch have been attempted, with these outcomes. */
  ghost predicate Scanned(s: State, t: State, batch: seq<Task>, win: Window, outcomes: seq<Outcome>) {
    var n := |outcomes|;
    && n <= InWindowPrefix(batch, win)
    && P.Inv(t)
    && t.store.log == s.store.log && t.store.last == s.store.last
    && t == s.(queue := multiset{}, phase := Scanning(win, batch[n..]), store := t.store,
               handed := s.handed + Chosen(batch[..n], outcomes, true),
               failed := s.failed + multiset(Chosen(batch[..n], outcomes, false)))
  }

  /** The prefix goes on exactly while tasks are in the window. */
  lemma {:induction false} PrefixContinues(batch: seq<Task>, win: Window, n: nat)
    requires n < |batch| && n <= InWindowPrefix(batch, win)
    ensures n < InWindowPrefix(batch, win) <==> win.Contains(batch[n].dueAt)
  {
  }

  lemma AttemptFromScan(t: State, task: Task, o: Outcome)
    requires P.Inv(t) && t.phase.Scanning? && t.phase.batch != [] && t.phase.batch[0] == task
      && t.phase.win.Contains(task.dueAt)
    ensures CanRun(t, AttemptEvents(o)) && Exec(t, AttemptEvents(o)) == AfterAttempt(t, o)
    ensures P.Inv(AfterAttempt(t, o)) && task.sequence <= t.store.last
  {
    AttemptIsRun(t, o);
    RunKeepsInv(t, AttemptEvents(o));
    DrainedIsAppended(t, task);
  }

  lemma AttemptAdvancesScan(s: State, t: State, batch: seq<Task>, win: Window, outcomes: seq<Outcome>, o: Outcome)
    requires Scanned(s, t, batch, win, outcomes) && |outcomes| < |batch| && win.Contains(batch[|outcomes|].dueAt)
    ensures CanRun(t, AttemptEvents(o)) && Exec(t, AttemptEvents(o)) == AfterAttempt(t, o)
    ensures Scanned(s, AfterAttempt(t, o), batch, win, outcomes + [o])
    ensures var task, r := batch[|outcomes|], AfterAttempt(t, o);
      && task.sequence <= t.store.last
      && r.queue == t.queue && r.limit == t.limit
      && r.store == if o.Taken? then TS.CommitTo(TS.MarkIn(t.store, task.sequence, true), task.sequence).0 else t.store
  {
    hide P.Inv, Chosen, InWindowPrefix, CanRun, Exec, AttemptEvents, TS.CommitTo, TS.MarkIn;
    var n := |outcomes|;
    assert batch[n..][0] == batch[n];
    AttemptFromScan(t, batch[n], o);
    PrefixContinues(batch, win, n);
    ScanRecords(s, t, batch, win, outcomes, o);
  }

  /** A run so far scanned part of the batch; `r` is the table it left of `r0`
      and `err` the first failure met. */
  ghost predicate Progress(s: State, es: seq<Event>, batch: seq<Task>, win: Window, outcomes: seq<Outcome>,
                           r0: R.RegState, r: R.RegState, err: Option<Outcome>) {
    && CanRun(s, es) && Scanned(s, Exec(s, es), batch, win, outcomes)
    && r == AllDispatched(r0, Chosen(batch[..|outcomes|], outcomes, true))
    && err == FirstFailure(outcomes)
  }

  lemma ProgressStep(s: State, es: seq<Event>, batch: seq<Task>, win: Window, outcomes: seq<Outcome>,
                     r0: R.RegState, r: R.RegState, err: Option<Outcome>, o: Outcome)
    requires Progress(s, es, batch, win, outcomes, r0, r, err)
    requires |outcomes| < |batch| && win.Contains(batch[|outcomes|].dueAt)
    ensures var task := batch[|outcomes|];
      Progress(s, es + AttemptEvents(o), batch, win, outcomes + [o], r0,
               if o.Taken? then R.SetStateIn(r, task.id, TaskDispatched) else r,
               if err.Some? || o.Taken? then err else Some(o))
    ensures var task, t, t' := batch[|outcomes|], Exec(s, es), Exec(s, es + AttemptEvents(o));
      && task.sequence <= t.store.last
      && t'.queue == t.queue && t'.limit == t.limit
      && t'.store == if o.Taken? then TS.CommitTo(TS.MarkIn(t.store, task.sequence, true), task.sequence).0 else t.store
  {
    hide Scanned, P.Apply, Enabled, AfterAttempt, R.SetStateIn, Chosen, AttemptEvents;
    var n := |outcomes|;
    AttemptAdvancesScan(s, Exec(s, es), batch, win, outcomes, o);
    RunsCompose(s, es, AttemptEvents(o));
    ChosenGrows(batch, n, outcomes, o, true);
    AllDispatchedGrows(r0, Chosen(batch[..n], outcomes, true), batch[n]);
    FailureGrows(outcomes, o);
  }

  lemma CommitKeepsLog(store: TS.StoreState, sq: int)
    ensures var r := TS.CommitTo(TS.MarkIn(store, sq, true), sq).0; r.log == store.log && r.last == store.last
  {
  }

  lemma ScanRecords(s: State, t: State, batch: seq<Task>, win: Window, outcomes: seq<Outcome>, o: Outcome)
    requires Scanned(s, t, batch, win, outcomes) && |outcomes| < |batch|
    ensures var r, n := AfterAttempt(t, o), |outcomes| + 1;
      && r.store.log == s.store.log && r.store.last == s.store.last
      && r == s.(queue := multiset{}, phase := Scanning(win, batch[n..]), store := r.store,
                 handed := s.handed + Chosen(batch[..n], outcomes + [o], true),
                 failed := s.failed + multiset(Chosen(batch[..n], outcomes + [o], false)))
  {
    hide P.Inv, Chosen, TS.CommitTo, TS.MarkIn, InWindowPrefix;
    var n := |outcomes|;
    assert batch[n..][0] == batch[n] && batch[n..][1..] == batch[n + 1..];
    CommitKeepsLog(t.store, batch[n].sequence);
    var taken, failed := Chosen(batch[..n], outcomes, true), Chosen(batch[..n], outcomes, false);
    ChosenGrows(batch, n, outcomes, o, true);
    ChosenGrows(batch, n, outcomes, o, false);
    if o.Taken? {
      OneMore(s.handed, taken, batch[n]);
      assert AfterAttempt(t, o).handed == s.handed + (taken + [batch[n]]);
    } else {
      OneMoreInBag(s.failed, failed, batch[n]);
      assert AfterAttempt(t, o).failed == s.failed + multiset(failed + [batch[n]]);
    }
  }

  lemma OneMore(a: seq<Task>, b: seq<Task>, x: Task)
    ensures a + b + [x] == a + (b + [x])
  {
  }

  lemma OneMoreInBag(a: multiset<Task>, b: seq<Task>, x: Task)
    ensures a + multiset(b) + multiset{x} == a + multiset(b + [x])
  {
  }

  /** A run that has nothing left to decide ends its tick. */
  lemma EndAfter(s: State, es: seq<Event>, more: seq<Event>) returns (all: seq<Event>)
    requires CanRun(s, es) && CanRun(Exec(s, es), more) && Enabled(Exec(Exec(s, es), more), EndTick)
    ensures CanRun(s, all) && Exec(s, all) == Exec(Exec(s, es), more).(phase := Idle)
  {
    RunsCompose(s, es, more);
    RunExtends(s, es + more, EndTick);
    all := es + more + [EndTick];
  }

  /** A tick that finds tasks and an executor starts to scan; without an
      executor it puts everything back. */
  lemma StartIsRun(s: State, win: Window, executor: bool, batch: seq<Task>)
    requires P.Inv(s) && s.phase.Idle? && WQ.Sorted(batch) && multiset(batch) == s.queue && batch != []
    ensures var es := [StartTick(win, executor, batch)];
      && CanRun(s, es) && P.Inv(Exec(s, es)) && Load(Exec(s, es)) <= s.limit
      && Exec(s, es) == s.(queue := multiset{}, phase := if executor then Scanning(win, batch) else Requeueing(batch))
    ensures executor ==> Scanned(s, Exec(s, [StartTick(win, executor, batch)]), batch, win, [])
  {
    var none: seq<Event> := [];
    var e := StartTick(win, executor, batch);
    assert CanRun(s, none) && Exec(s, none) == s;
    RunExtends(s, none, e);
    assert none + [e] == [e];
    StepKeepsInv(s, e);
    assert |multiset(batch)| == |batch|;
    assert batch[0..] == batch && s.handed + [] == s.handed;
  }

  /** Leaving the scan: the rest of the batch is put back, which fits. */
  lemma RestIsPutBack(s: State, t: State, batch: seq<Task>, win: Window, outcomes: seq<Outcome>)
    requires Scanned(s, t, batch, win, outcomes) && |outcomes| < |batch| && !win.Contains(batch[|outcomes|].dueAt)
    requires |batch| <= s.limit
    ensures Enabled(t, OutOfWindow) && P.Apply(t, OutOfWindow) == t.(phase := Requeueing(batch[|outcomes|..]))
    ensures Load(P.Apply(t, OutOfWindow)) <= t.limit && |outcomes| == InWindowPrefix(batch, win)
  {
    hide P.Inv, Chosen;
    assert batch[|outcomes|..][0] == batch[|outcomes|];
    PrefixContinues(batch, win, |outcomes|);
  }

  /** What a whole tick leaves: the attempted tasks are handed off or failed,
      the others are queued again, and nothing is dropped. */
  ghost predicate Ticked(s: State, r: State, batch: seq<Task>, outcomes: seq<Outcome>) {
    var n := |outcomes|;
    && r.phase.Idle?
    && n <= |batch|
    && r.queue == multiset(batch[n..])
    && r.handed == s.handed + Chosen(batch[..n], outcomes, true)
    && r.failed == s.failed + multiset(Chosen(batch[..n], outcomes, false))
    && r.store.log == s.store.log && r.store.last == s.store.last
    && r == s.(phase := r.phase, queue := r.queue, handed := r.handed, failed := r.failed, store := r.store)
  }

  lemma ScanBecomesTick(s: State, t: State, batch: seq<Task>, win: Window, outcomes: seq<Outcome>)
    requires Scanned(s, t, batch, win, outcomes)
    ensures Ticked(s, t.(queue := multiset(batch[|outcomes|..]), phase := Idle), batch, outcomes)
    ensures t.queue == multiset{} && t.limit == s.limit && t.phase == Scanning(win, batch[|outcomes|..])
  {
    hide Chosen;
  }

  /** Draining and putting everything back changes nothing. */
  lemma AllPutBack(s: State, t: State, batch: seq<Task>)
    requires s.phase.Idle? && multiset(batch) == s.queue && t == s.(queue := multiset{}, phase := Requeueing(batch))
    ensures t.(queue := t.queue + multiset(batch), phase := Requeueing([])).(phase := Idle) == s
  {
    assert multiset{} + multiset(batch) == s.queue;
  }

  lemma TickStartsClean(s: State, es: seq<Event>, batch: seq<Task>, win: Window, r: R.RegState)
    ensures AllDispatched(r, Chosen(batch[..0], [], true)) == r && FirstFailure([]) == None
    ensures CanRun(s, es) && Scanned(s, Exec(s, es), batch, win, []) ==> Progress(s, es, batch, win, [], r, r, None)
  {
  }

  lemma EmptyPlus(bag: multiset<Task>)
    ensures multiset{} + bag == bag
  {
  }

  lemma ScanCompletes(s: State, t: State, batch: seq<Task>, win: Window, outcomes: seq<Outcome>)
    requires Scanned(s, t, batch, win, outcomes) && |outcomes| == |batch|
    ensures Enabled(t, EndTick) && P.Apply(t, EndTick) == t.(phase := Idle)
    ensures |outcomes| == InWindowPrefix(batch, win) && multiset(batch[|outcomes|..]) == multiset{}
  {
  }

  lemma NoTickIsRun(s: State, batch: seq<Task>, win: Window)
    requires batch == []
    ensures CanRun(s, []) && Exec(s, []) == s && InWindowPrefix(batch, win) == 0
  {
  }

  lemma PublishIsRun(s: State, task: Task, ready: bool) returns (es: seq<Event>)
    ensures CanRun(s, es) && Exec(s, es).limit == s.limit && Exec(s, es).store == TS.AppendTo(s.store, task).0
    ensures var stored, full := task.(sequence := s.store.last + 1), |s.store.log| == s.store.capacity;
      && es == (if full then [Append(task)] else [Append(task), FinishPublish(stored, ready)])
      && Exec(s, es).queue == if !full && ready && |s.queue| < s.limit then s.queue + multiset{stored} else s.queue
  {
    var none: seq<Event> := [];
    RunExtends(s, none, Append(task));
    es := [Append(task)];
    assert none + [Append(task)] == es;
    if |s.store.log| != s.store.capacity {
      var finish := FinishPublish(task.(sequence := s.store.last + 1), ready);
      RunExtends(s, es, finish);
      assert [Append(task)] + [finish] == [Append(task), finish];
      es := es + [finish];
    }
  }

  lemma NothingAttempted(s: State, batch: seq<Task>)
    requires s.phase.Idle? && multiset(batch) == s.queue
    ensures Ticked(s, s, batch, [])
  {
    assert batch[0..] == batch && s.handed + [] == s.handed;
  }

  lemma DrainedIsAppended(t: State, task: Task)
    requires P.Inv(t) && task in t.phase.Undecided()
    ensures task.sequence <= t.store.last
  {
    assert Count(t, task) == multiset(t.store.log)[task];
    assert multiset(t.phase.Undecided())[task] > 0;
    var i :| 0 <= i < |t.store.log| && t.store.log[i] == task;
  }

  /** How many of the tasks still find room in the queue. */
  function Room(s: State, tasks: seq<Task>): (n: nat)
    ensures n <= |tasks| && (n < |tasks| ==> |s.queue| + n >= s.limit) && (n > 0 ==> |s.queue| + n <= s.limit)
  {
    if |s.queue| >= s.limit then 0
    else if |tasks| <= s.limit - |s.queue| then |tasks|
    else s.limit - |s.queue|
  }

  /** The state when `k` of the tasks to requeue have been tried: the first ones
      are back in the queue, the others found it full. */
  ghost function PutBack(s: State, tasks: seq<Task>, k: nat): State
    requires k <= |tasks|
  {
    var n := Room(s, tasks);
    var m := if k < n then k else n;
    s.(queue := s.queue + multiset(tasks[..m]), dropped := s.dropped + multiset(tasks[m..k]),
      phase := Requeueing(tasks[k..]))
  }

  lemma PutBackNext(s: State, tasks: seq<Task>, k: nat)
    requires k < |tasks| && |s.queue| <= s.limit
    ensures var t, fits := PutBack(s, tasks, k), k < Room(s, tasks);
      && (fits <==> |t.queue| < t.limit)
      && PutBack(s, tasks, k + 1) ==
         if fits then t.(queue := t.queue + multiset{tasks[k]}, phase := Requeueing(tasks[k + 1..]))
         else t.(dropped := t.dropped + multiset{tasks[k]}, phase := Requeueing(tasks[k + 1..]))
  {
    hide Room, WQ.Sorted;
    var n := Room(s, tasks);
    if k < n {
      SliceGrows(tasks, 0, k);
      assert tasks[..k] == tasks[0..k] && tasks[..k + 1] == tasks[0..k + 1];
      assert tasks[k..k] == [] && tasks[k + 1..k + 1] == [];
    } else {
      SliceGrows(tasks, n, k);
      assert |multiset(tasks[..n])| == n;
    }
  }

  lemma PutBackAdvances(s: State, tasks: seq<Task>, k: nat)
    requires k < |tasks| && |s.queue| <= s.limit
    ensures var t := PutBack(s, tasks, k);
      && Enabled(t, P.Requeue) && P.Apply(t, P.Requeue) == PutBack(s, tasks, k + 1)
      && PutBack(s, tasks, k + 1).store == t.store && PutBack(s, tasks, k + 1).limit == t.limit
      && PutBack(s, tasks, k + 1).queue == if |t.queue| < t.limit then t.queue + multiset{tasks[k]} else t.queue
  {
    hide Room, WQ.Sorted;
    PutBackNext(s, tasks, k);
    assert PutBack(s, tasks, k).phase.tail[1..] == tasks[k + 1..];
  }

  lemma SliceGrows(tasks: seq<Task>, n: nat, k: nat)
    requires n <= k < |tasks|
    ensures multiset(tasks[n..k + 1]) == multiset(tasks[n..k]) + multiset{tasks[k]}
    ensures |multiset(tasks[n..k])| == k - n
  {
    assert tasks[n..k + 1] == tasks[n..k] + [tasks[k]];
  }

  lemma PutBackStarts(s: State, tasks: seq<Task>)
    requires s.phase == Requeueing(tasks)
    ensures PutBack(s, tasks, 0) == s && CanRun(s, []) && Exec(s, []) == s
  {
    hide Room;
    assert tasks[..0] == [] && tasks[0..] == tasks && s.queue + multiset{} == s.queue
      && s.dropped + multiset{} == s.dropped;
  }

  /** In the end the first tasks are queued again and the others are lost. */
  ghost function AllTried(s: State, tasks: seq<Task>): State {
    var n := Room(s, tasks);
    s.(queue := s.queue + multiset(tasks[..n]), dropped := s.dropped + multiset(tasks[n..]), phase := Requeueing([]))
  }

  lemma PutBackEnds(s: State, tasks: seq<Task>)
    ensures PutBack(s, tasks, |tasks|) == AllTried(s, tasks)
  {
    var n := Room(s, tasks);
    hide Room;
    assert tasks[n..|tasks|] == tasks[n..] && tasks[|tasks|..] == [];
  }

  lemma TriedEnds(s: State, tasks: seq<Task>)
    ensures Enabled(AllTried(s, tasks), EndTick)
  {
    hide Room;
  }

  /** With room for all of them every task goes back. */
  lemma AllFit(s: State, tasks: seq<Task>)
    requires s.phase == Requeueing(tasks) && Load(s) <= s.limit
    ensures AllTried(s, tasks) == s.(queue := s.queue + multiset(tasks), phase := Requeueing([]))
  {
    assert Room(s, tasks) == |tasks| && tasks[..|tasks|] == tasks && tasks[|tasks|..] == [];
  }

  // ---------- Publishing ----------

  datatype PublishResult = Published(sq: int) | StoreFull | QueueFull

  ghost predicate Matches(s: State, store: TS.Store, queue: WQ.Queue)
    reads store, store.ring, store.ring.buf, queue
  {
    store.Valid() && queue.Valid() && s.store == store.View() && s.queue == queue.Bag() && s.limit == queue.limit
  }

  class Broker {
    const store: TS.Store
    const queue: WQ.Queue
    const reg: R.Registry
    const deps: Deps.Graph

    constructor (store: TS.Store, queue: WQ.Queue, reg: R.Registry, deps: Deps.Graph)
      ensures this.store == store && this.queue == queue && this.reg == reg && this.deps == deps
    {
      this.store, this.queue, this.reg, this.deps := store, queue, reg, deps;
    }

    /** Appends, registers and, when ready, enqueues. A full store changes
        nothing but burns a sequence; a full queue refuses a task that is by
        then stored and registered; an unready task is held. */
    method Publish(task: Task, ghost s: State) returns (result: PublishResult, ghost es: seq<Event>)
      requires Matches(s, store, queue)
      modifies store, store.ring, store.ring.buf, queue, reg
      ensures CanRun(s, es) && Matches(Exec(s, es), store, queue)
      ensures var stored := task.(sequence := s.store.last + 1);
        var ready := deps.View().Ready(task.id);
        if |s.store.log| == s.store.capacity then
          es == [Append(task)] && result == StoreFull && reg.View() == old(reg.View())
        else
          && es == [Append(task), FinishPublish(stored, ready)]
          && result == (if ready && |s.queue| >= s.limit then QueueFull else Published(stored.sequence))
          && reg.View() == R.RegisterIn(old(reg.View()), stored)
    {
      hide CanRun, Exec, P.Apply, Enabled, R.RegisterIn, TS.WellFormed, TS.AppendTo, WQ.IsHeap;
      es := PublishIsRun(s, task, deps.View().Ready(task.id));
      var appended := store.Append(task);
      if appended.ErrFull? {
        return StoreFull, es;
      }
      var stored := task.(sequence := appended.sq);
      reg.Register(stored);
      var full := EnqueueIfReady(stored);
      return if full then QueueFull else Published(stored.sequence), es;
    }

    /** The end of Publish: only a ready task goes to the queue. */
    method EnqueueIfReady(task: Task) returns (full: bool)
      requires queue.Valid()
      modifies queue
      ensures queue.Valid() && full == (deps.View().Ready(task.id) && |old(queue.items)| >= queue.limit)
      ensures queue.Bag()
        == if deps.View().Ready(task.id) && !full then old(queue.Bag()) + multiset{task} else old(queue.Bag())
    {
      hide WQ.IsHeap;
      var ready := deps.Ready(task.id);
      if ready {
        var queued := queue.Enqueue(task);
        return queued.ErrFull?;
      }
      return false;
    }
  }

  // ---------- Ticking ----------

  /** The runner is offered an instance of the task unless the limiter said no;
      an Enqueue of it runs to its end, and its result is the outcome. */
  ghost predicate Offered(task: Task, inst: Instance, before: Option<Steps.State>, after: Option<Steps.State>,
                          outcome: Outcome) {
    && inst.taskId == task.id && inst.dedupeKey == task.dedupeKey
    && match outcome
       case Limited => after == before
       case Refused =>
         if before.None? then after.None?
         else after.Some? && exists es, r :: RS.EnqueueRun(before.value, inst, es, r, after.value) && !r.Accepted?
       case Taken =>
         && before.Some? && after.Some?
         && exists es :: RS.EnqueueRun(before.value, inst, es, RS.Accepted, after.value)
  }

  /** One attempt: when the limiter was asked, the instance made, and the buckets
      and the runner afterwards. */
  datatype Consultation = Consultation(now: real, inst: Instance, last: L.Buckets, runner: Option<Steps.State>)

  /** The limiter granted the call unless the outcome is Limited, and then a whole
      Enqueue at the runner of `executor` came to the outcome. */
  ghost predicate ConsultedAt(policy: L.Policy, executor: ExecutorId, task: Task, outcome: Outcome,
                              last: L.Buckets, runner: Option<Steps.State>, c: Consultation) {
    && (c.last, !outcome.Limited?) == L.Step(policy, last, executor, c.now)
    && Offered(task, c.inst, runner, c.runner, outcome)
  }

  function LastBuckets(last: L.Buckets, cs: seq<Consultation>): L.Buckets {
    if cs == [] then last else cs[|cs| - 1].last
  }

  function LastRunner(runner: Option<Steps.State>, cs: seq<Consultation>): Option<Steps.State> {
    if cs == [] then runner else cs[|cs| - 1].runner
  }

  /** Every outcome is what limiter and runner answered for its task, from the
      buckets and the runner as the attempt before left them. */
  ghost predicate Consulted(policy: L.Policy, executor: ExecutorId, tasks: seq<Task>, outcomes: seq<Outcome>,
                            last: L.Buckets, runner: Option<Steps.State>, cs: seq<Consultation>) {
    && |cs| == |outcomes| <= |tasks|
    && forall k :: 0 <= k < |cs| ==>
         ConsultedAt(policy, executor, tasks[k], outcomes[k], LastBuckets(last, cs[..k]), LastRunner(runner, cs[..k]),
                     cs[k])
  }

  lemma NothingConsulted(policy: L.Policy, tasks: seq<Task>, last: L.Buckets)
    ensures LastBuckets(last, []) == last
    ensures forall executor, runner :: Consulted(policy, executor, tasks, [], last, runner, [])
    ensures forall runner :: LastRunner(runner, []) == runner
  {
  }

  lemma ConsultedGrows(policy: L.Policy, executor: ExecutorId, tasks: seq<Task>, outcomes: seq<Outcome>,
                       last: L.Buckets, runner: Option<Steps.State>, cs: seq<Consultation>, o: Outcome, c: Consultation)
    requires Consulted(policy, executor, tasks, outcomes, last, runner, cs) && |outcomes| < |tasks|
    requires ConsultedAt(policy, executor, tasks[|outcomes|], o, LastBuckets(last, cs), LastRunner(runner, cs), c)
    ensures Consulted(policy, executor, tasks, outcomes + [o], last, runner, cs + [c])
    ensures LastBuckets(last, cs + [c]) == c.last && LastRunner(runner, cs + [c]) == c.runner
  {
    hide ConsultedAt;
    var all := cs + [c];
    forall k | 0 <= k < |all| ensures ConsultedAt(policy, executor, tasks[k], (outcomes + [o])[k],
      LastBuckets(last, all[..k]), LastRunner(runner, all[..k]), all[k])
    {
      if k < |cs| {
        assert all[..k] == cs[..k] && all[k] == cs[k];
      } else {
        assert all[..k] == cs;
      }
    }
  }

  class Dispatcher {
    const queue: WQ.Queue
    const store: TS.Store
    const reg: R.Registry
    const leases: LeaseTable.Manager
    const execs: E.Manager
    const flow: L.Limiter

    constructor (queue: WQ.Queue, store: TS.Store, reg: R.Registry, leases: LeaseTable.Manager, execs: E.Manager,
                 flow: L.Limiter)
      ensures this.queue == queue && this.store == store && this.reg == reg && this.leases == leases
      ensures this.execs == execs && this.flow == flow
    {
      this.queue, this.store, this.reg, this.leases, this.execs, this.flow := queue, store, reg, leases, execs, flow;
    }

    ghost function RunnerView(executor: ExecutorId): Option<Steps.State>
      reads execs, set exec | exec in execs.runners :: execs.runners[exec]
    {
      if executor in execs.runners then Some(execs.runners[executor].View()) else None
    }

    /** Nobody holds a runner's lock. */
    ghost predicate RunnersFree()
      reads execs, set exec | exec in execs.runners :: execs.runners[exec]
    {
      execs.Valid() && forall exec :: exec in execs.runners ==> execs.runners[exec].lock.Free?
    }

    /** Asks the limiter and then the runner of `executor`. The instant and the
        new instance's id are open. */
    method HandOff(executor: ExecutorId, task: Task) returns (outcome: Outcome, ghost now: real, ghost inst: Instance)
      requires RunnersFree()
      modifies flow, if executor in execs.runners then {execs.runners[executor]} else {}
      ensures RunnersFree()
      ensures (flow.last, !outcome.Limited?) == L.Step(flow.policy, old(flow.last), executor, now)
      ensures Offered(task, inst, old(RunnerView(executor)), RunnerView(executor), outcome)
    {
      hide L.Step, RS.EnqueueRun;
      var time: real := *;
      var id: string := *;
      var made := Instance(id, task.id, task.dedupeKey);
      now, inst := time, made;
      var allowed := flow.Allow(executor, time);
      if !allowed {
        return Limited, now, inst;
      }
      var answer, es := execs.Dispatch(executor, made);
      outcome := if answer.Enqueued? && answer.result.Accepted? then Taken else Refused;
    }

    /** Only a taken task is marked, committed and shown as dispatched. */
    method DispatchOne(executor: ExecutorId, task: Task)
      returns (outcome: Outcome, committed: bool, ghost now: real, ghost inst: Instance)
      requires store.Valid() && RunnersFree()
      modifies store, reg, flow, if executor in execs.runners then {execs.runners[executor]} else {}
      ensures store.Valid() && store.ring.Contents() == old(store.ring.Contents()) && RunnersFree()
      ensures (flow.last, !outcome.Limited?) == L.Step(flow.policy, old(flow.last), executor, now)
      ensures Offered(task, inst, old(RunnerView(executor)), RunnerView(executor), outcome)
      ensures !outcome.Taken? ==> !committed && store.View() == old(store.View()) && reg.View() == old(reg.View())
      ensures outcome.Taken? ==>
        && store.View() == TS.CommitTo(TS.MarkIn(old(store.View()), task.sequence, true), task.sequence).0
        && committed == (task.sequence <= old(store.last))
        && reg.View() == if committed then R.SetStateIn(old(reg.View()), task.id, TaskDispatched) else old(reg.View())
    {
      hide L.Step, Offered, TS.MarkIn, TS.WellFormed, R.SetStateIn;
      outcome, now, inst := HandOff(executor, task);
      committed := false;
      if !outcome.Taken? {
        return;
      }
      store.MarkDispatched(task.sequence, true);
      var result := store.Commit(task.sequence);
      if result.ErrInvalidSequence? {
        return;
      }
      reg.SetState(task.id, TaskDispatched);
      committed := true;
    }

    /** Puts tasks back, in order, while there is room; a full queue loses the
        others, as the source ignores Enqueue's answer. */
    method Requeue(tasks: seq<Task>, ghost s: State) returns (ghost es: seq<Event>)
      requires Matches(s, store, queue) && s.phase == Requeueing(tasks)
      modifies queue
      ensures CanRun(s, es) && Exec(s, es) == AllTried(s, tasks) && Enabled(Exec(s, es), EndTick)
      ensures Matches(Exec(s, es), store, queue)
    {
      hide Enabled, P.Apply, CanRun, Exec, TS.WellFormed, WQ.IsHeap, PutBack, Room, AllTried;
      PutBackStarts(s, tasks);
      es := [];
      for k := 0 to |tasks|
        invariant CanRun(s, es) && Exec(s, es) == PutBack(s, tasks, k)
        invariant Matches(PutBack(s, tasks, k), store, queue)
      {
        PutBackAdvances(s, tasks, k);
        RunExtends(s, es, P.Requeue);
        es := es + [P.Requeue];
        var _ := queue.Enqueue(tasks[k]);
      }
      PutBackEnds(s, tasks);
      TriedEnds(s, tasks);
    }

    /** The batch is in due order, so the first task outside the window ends
        the scan: the tail goes back. */
    method RequeueTail(tail: seq<Task>, ghost s: State, ghost es: seq<Event>, ghost batch: seq<Task>,
        ghost win: Window, ghost outcomes: seq<Outcome>)
      returns (ghost all: seq<Event>)
      requires CanRun(s, es) && Matches(Exec(s, es), store, queue) && Scanned(s, Exec(s, es), batch, win, outcomes)
      requires |outcomes| < |batch| <= s.limit && tail == batch[|outcomes|..] && !win.Contains(batch[|outcomes|].dueAt)
      modifies queue
      ensures CanRun(s, all) && Matches(Exec(s, all), store, queue) && Ticked(s, Exec(s, all), batch, outcomes)
      ensures |outcomes| == InWindowPrefix(batch, win)
    {
      hide CanRun, Exec, Enabled, P.Apply, Scanned, Ticked, InWindowPrefix, TS.WellFormed, WQ.IsHeap, Room, AllTried;
      ghost var t := Exec(s, es);
      ScanBecomesTick(s, t, batch, win, outcomes);
      RestIsPutBack(s, t, batch, win, outcomes);
      RunExtends(s, es, OutOfWindow);
      AllFit(P.Apply(t, OutOfWindow), tail);
      ghost var more := Requeue(tail, P.Apply(t, OutOfWindow));
      all := EndAfter(s, es + [OutOfWindow], more);
      EmptyPlus(multiset(tail));
    }

    /** One round of the scan of a batch: a task in the window is attempted and
        the first failure remembered. */
    method AttemptNext(executor: ExecutorId, task: Task, first: Option<Outcome>, ghost s: State, ghost es: seq<Event>,
                       ghost batch: seq<Task>, ghost win: Window, ghost outcomes: seq<Outcome>, ghost r0: R.RegState)
      returns (err: Option<Outcome>, ghost outcome: Outcome, ghost c: Consultation)
      requires Progress(s, es, batch, win, outcomes, r0, reg.View(), first)
      requires Matches(Exec(s, es), store, queue) && RunnersFree()
      requires |outcomes| < |batch| && task == batch[|outcomes|] && win.Contains(task.dueAt)
      modifies store, reg, flow, set exec | exec in execs.runners :: execs.runners[exec]
      ensures RunnersFree() && execs.runners == old(execs.runners)
      ensures Progress(s, es + AttemptEvents(outcome), batch, win, outcomes + [outcome], r0, reg.View(), err)
      ensures Matches(Exec(s, es + AttemptEvents(outcome)), store, queue)
      ensures ConsultedAt(flow.policy, executor, task, outcome, old(flow.last), old(RunnerView(executor)), c)
      ensures flow.last == c.last && RunnerView(executor) == c.runner
    {
      hide CanRun, Exec, Enabled, P.Apply, P.Inv, Scanned, AfterAttempt, InWindowPrefix, AttemptEvents;
      hide TS.WellFormed, WQ.IsHeap, Chosen, AllDispatched, FirstFailure, R.SetStateIn, Offered, L.Step;
      ghost var r := reg.View();
      var result, _, now, inst := DispatchOne(executor, task);
      outcome, c := result, Consultation(now, inst, flow.last, RunnerView(executor));
      ProgressStep(s, es, batch, win, outcomes, r0, r, first, outcome);
      err := if !result.Taken? && first.None? then Some(result) else first;
    }

    /** The loop of a tick: attempts the batch up to the first task outside the
        window and puts the rest back. */
    method ScanBatch(executor: ExecutorId, batch: seq<Task>, win: Window, ghost s: State, ghost start: seq<Event>,
                     ghost r0: R.RegState)
      returns (err: Option<Outcome>, ghost outcomes: seq<Outcome>, ghost es: seq<Event>, ghost cs: seq<Consultation>)
      requires Progress(s, start, batch, win, [], r0, reg.View(), None) && |batch| <= s.limit
      requires Matches(Exec(s, start), store, queue) && RunnersFree()
      modifies store, queue, reg, flow, set exec | exec in execs.runners :: execs.runners[exec]
      ensures CanRun(s, es) && Matches(Exec(s, es), store, queue) && RunnersFree()
      ensures |outcomes| == InWindowPrefix(batch, win) && Ticked(s, Exec(s, es), batch, outcomes)
      ensures reg.View() == AllDispatched(r0, Chosen(batch[..|outcomes|], outcomes, true))
      ensures err == FirstFailure(outcomes)
      ensures Consulted(flow.policy, executor, batch, outcomes, old(flow.last), old(RunnerView(executor)), cs)
      ensures flow.last == LastBuckets(old(flow.last), cs)
      ensures RunnerView(executor) == LastRunner(old(RunnerView(executor)), cs)
    {
      hide CanRun, Exec, Enabled, P.Apply, P.Inv, Scanned, Ticked, AfterAttempt, InWindowPrefix, AttemptEvents;
      hide TS.WellFormed, WQ.IsHeap, Chosen, AllDispatched, FirstFailure, R.SetStateIn;
      err, outcomes, es, cs := None, [], start, [];
      assert Consulted(flow.policy, executor, batch, outcomes, flow.last, RunnerView(executor), cs);
      hide Consulted, ConsultedAt;
      for i := 0 to |batch|
        invariant i == |outcomes| && Progress(s, es, batch, win, outcomes, r0, reg.View(), err)
        invariant Matches(Exec(s, es), store, queue) && RunnersFree() && execs.runners == old(execs.runners)
        invariant Consulted(flow.policy, executor, batch, outcomes, old(flow.last), old(RunnerView(executor)), cs)
        invariant flow.last == LastBuckets(old(flow.last), cs)
        invariant RunnerView(executor) == LastRunner(old(RunnerView(executor)), cs)
      {
        if !win.Contains(batch[i].dueAt) {
          es := RequeueTail(batch[i..], s, es, batch, win, outcomes);
          return;
        }
        ghost var outcome, c;
        err, outcome, c := AttemptNext(executor, batch[i], err, s, es, batch, win, outcomes, r0);
        ConsultedGrows(flow.policy, executor, batch, outcomes, old(flow.last), old(RunnerView(executor)), cs,
                       outcome, c);
        es, outcomes, cs := es + AttemptEvents(outcome), outcomes + [outcome], cs + [c];
      }
      ghost var t := Exec(s, es);
      ScanBecomesTick(s, t, batch, win, outcomes);
      ScanCompletes(s, t, batch, win, outcomes);
      RunExtends(s, es, EndTick);
      es := es + [EndTick];
    }

    /** Without an executor the whole batch goes back. */
    method PutAllBack(batch: seq<Task>, ghost s: State, ghost start: seq<Event>) returns (ghost es: seq<Event>)
      requires CanRun(s, start) && Matches(Exec(s, start), store, queue) && Load(Exec(s, start)) <= s.limit
      requires s.phase.Idle? && multiset(batch) == s.queue
      requires Exec(s, start) == s.(queue := multiset{}, phase := Requeueing(batch))
      modifies queue
      ensures CanRun(s, es) && Exec(s, es) == s && Matches(s, store, queue)
    {
      hide CanRun, Exec, Enabled, P.Apply, TS.WellFormed, WQ.IsHeap, Room, AllTried;
      ghost var t := Exec(s, start);
      AllFit(t, batch);
      ghost var more := Requeue(batch, t);
      es := EndAfter(s, start, more);
      AllPutBack(s, t, batch);
    }

    /** A tick from its drain on. */
    method TickBatch(batch: seq<Task>, win: Window, ghost s: State)
      returns (err: Option<Outcome>, ghost outcomes: seq<Outcome>, ghost es: seq<Event>,
               ghost executor: ExecutorId, ghost cs: seq<Consultation>)
      requires P.Inv(s) && s.phase.Idle? && RunnersFree()
      requires Matches(s.(queue := multiset{}), store, queue)
      requires batch != [] && WQ.Sorted(batch) && multiset(batch) == s.queue
      modifies store, queue, reg, flow, set exec | exec in execs.runners :: execs.runners[exec]
      ensures CanRun(s, es) && Matches(Exec(s, es), store, queue)
      ensures |outcomes| == if leases.View().leases == map[] then 0 else InWindowPrefix(batch, win)
      ensures Ticked(s, Exec(s, es), batch, outcomes)
      ensures reg.View() == AllDispatched(old(reg.View()), Chosen(batch[..|outcomes|], outcomes, true))
      ensures err == FirstFailure(outcomes)
      ensures outcomes != [] ==> executor in leases.View().leases
      ensures Consulted(flow.policy, executor, batch, outcomes, old(flow.last), old(RunnerView(executor)), cs)
      ensures flow.last == LastBuckets(old(flow.last), cs)
      ensures RunnerView(executor) == LastRunner(old(RunnerView(executor)), cs)
    {
      hide CanRun, Exec, Enabled, P.Apply, P.Inv, Scanned, Ticked, AfterAttempt, InWindowPrefix, WQ.Sorted,
        AttemptEvents, ConsultedAt;
      hide TS.WellFormed, WQ.IsHeap, Chosen, AllDispatched, FirstFailure, R.SetStateIn, Room, AllTried, Offered, L.Step;
      err, outcomes, es, executor, cs := None, [], [], "", [];
      NothingConsulted(flow.policy, batch, flow.last);
      NothingAttempted(s, batch);
      TickStartsClean(s, es, batch, win, reg.View());
      var executors := leases.Executors();
      es := [StartTick(win, |executors| > 0, batch)];
      StartIsRun(s, win, |executors| > 0, batch);
      if |executors| == 0 {
        es := PutAllBack(batch, s, es);
        return;
      }
      TickStartsClean(s, es, batch, win, reg.View());
      executor := executors[0];
      err, outcomes, es, cs := ScanBatch(executors[0], batch, win, s, es, reg.View());
    }

    /** One tick. Drained tasks are attempted in (DueAt, ID) order up to the
        first outside the window, at one of the recorded executors; the rest
        goes back and nothing is lost. */
    method Tick(win: Window, ghost s: State)
      returns (err: Option<Outcome>, ghost batch: seq<Task>, ghost outcomes: seq<Outcome>, ghost es: seq<Event>,
               ghost executor: ExecutorId, ghost cs: seq<Consultation>)
      requires Matches(s, store, queue) && s.phase.Idle? && P.Inv(s) && RunnersFree()
      modifies store, queue, reg, flow, set exec | exec in execs.runners :: execs.runners[exec]
      ensures CanRun(s, es) && Matches(Exec(s, es), store, queue)
      ensures WQ.Sorted(batch) && multiset(batch) == s.queue
      ensures |outcomes| == if leases.View().leases == map[] then 0 else InWindowPrefix(batch, win)
      ensures Ticked(s, Exec(s, es), batch, outcomes)
      ensures reg.View() == AllDispatched(old(reg.View()), Chosen(batch[..|outcomes|], outcomes, true))
      ensures err == FirstFailure(outcomes)
      ensures outcomes != [] ==> executor in leases.View().leases
      ensures Consulted(flow.policy, executor, batch, outcomes, old(flow.last), old(RunnerView(executor)), cs)
      ensures flow.last == LastBuckets(old(flow.last), cs)
      ensures RunnerView(executor) == LastRunner(old(RunnerView(executor)), cs)
    {
      hide CanRun, Exec, Enabled, P.Apply, P.Inv, Scanned, Ticked, AfterAttempt, InWindowPrefix, WQ.Sorted,
        AttemptEvents, ConsultedAt;
      hide TS.WellFormed, WQ.IsHeap, Chosen, AllDispatched, FirstFailure, R.SetStateIn, Room, AllTried, Offered, L.Step;
      err, outcomes, es, executor, cs := None, [], [], "", [];
      var drained := queue.Drain();
      batch := drained;
      NothingConsulted(flow.policy, batch, flow.last);
      NothingAttempted(s, batch);
      TickStartsClean(s, es, batch, win, reg.View());
      if |drained| == 0 {
        NoTickIsRun(s, batch, win);
        return;
      }
      err, outcomes, es, executor, cs := TickBatch(drained, win, s);
    }
  }

  /** A part of a sorted batch without ties is one, too. */
  lemma SuffixIsSorted(batch: seq<Task>, n: nat)
    requires WQ.Sorted(batch) && WQ.NoTies(multiset(batch)) && n <= |batch|
    ensures WQ.Sorted(batch[n..]) && WQ.NoTies(multiset(batch[n..]))
  {
    assert batch == batch[..n] + batch[n..];
    assert multiset(batch) == multiset(batch[..n]) + multiset(batch[n..]);
  }

  /** Drain, requeue, drain: whatever a tick puts back, the whole batch or what
      follows the tasks it attempted, the next drain yields in the identical
      order. Ties aside, the order does not depend on how the heap came to be
      laid out. */
  method TickThenDrain(d: Dispatcher, win: Window, ghost s: State)
    returns (ghost batch: seq<Task>, ghost n: nat, again: seq<Task>)
    requires Matches(s, d.store, d.queue) && s.phase.Idle? && P.Inv(s) && d.RunnersFree() && WQ.NoTies(d.queue.Bag())
    modifies d.store, d.queue, d.reg, d.flow, set exec | exec in d.execs.runners :: d.execs.runners[exec]
    ensures WQ.Sorted(batch) && multiset(batch) == old(d.queue.Bag())
    ensures n == if d.leases.View().leases == map[] then 0 else InWindowPrefix(batch, win)
    ensures again == batch[n..]
  {
    var err;
    ghost var outcomes, es, executor, cs;
    err, batch, outcomes, es, executor, cs := d.Tick(win, s);
    n := |outcomes|;
    SuffixIsSorted(batch, n);
    again := d.queue.Drain();
    WQ.SortedArrangementIsUnique(again, batch[n..]);
  }

  /** An open runner with a free key, space and no window takes what it is
      offered. */
  lemma FreeRunnerTakes(task: Task, inst: Instance, before: Steps.State, after: Option<Steps.State>, outcome: Outcome)
    requires Offered(task, inst, Some(before), after, outcome) && !outcome.Limited?
    requires !before.Closed() && !before.replay && before.HasSpace() && task.dedupeKey !in before.inflight
    requires before.lock.Free?
    ensures outcome.Taken? && after.Some? && after.value.ch == before.ch + [inst]
  {
    assert RS.Answer(before, inst).Queued?;
    RS.QueuedRunIsOneStep(before, inst, after.value);
  }

  /** A due task reaches a runner: with one recorded executor, whose runner is
      open, unlocked and has space and whose key is free, and a limiter that
      grants, a tick hands the one queued task to that runner and reports no
      error. */
  method DueTaskIsHandedOff(d: Dispatcher, win: Window, t: Task, w: ExecutorId, ghost s: State)
    returns (err: Option<Outcome>, ghost es: seq<Event>, ghost inst: Instance)
    requires Matches(s, d.store, d.queue) && s.phase.Idle? && P.Inv(s) && d.RunnersFree()
    requires s.queue == multiset{t} && win.Contains(t.dueAt)
    requires d.leases.leases.Keys == {w} && w in d.execs.runners
    requires var r := d.execs.runners[w].View();
      !r.Closed() && !r.replay && r.HasSpace() && t.dedupeKey !in r.inflight
    requires forall now :: L.Step(d.flow.policy, d.flow.last, w, now).1
    modifies d.store, d.queue, d.reg, d.flow, set exec | exec in d.execs.runners :: d.execs.runners[exec]
    ensures CanRun(s, es) && Matches(Exec(s, es), d.store, d.queue)
    ensures Exec(s, es).handed == s.handed + [t] && Exec(s, es).queue == multiset{} && err.None?
    ensures inst.taskId == t.id && w in d.execs.runners && d.execs.runners[w].ch == old(d.execs.runners[w].ch) + [inst]
  {
    ghost var runner, last := d.RunnerView(w), d.flow.last;
    ghost var batch, outcomes, executor, cs;
    hide CanRun, Exec, P.Inv, Matches, L.Step, Offered;
    err, batch, outcomes, es, executor, cs := d.Tick(win, s);
    OneTaskBatch(batch, t);
    assert w in d.leases.leases;
    assert InWindowPrefix([t], win) == 1 by {
      assert [t][0] == t;
    }
    assert |outcomes| == 1;
    assert executor in d.leases.leases.Keys;
    assert ConsultedAt(d.flow.policy, w, t, outcomes[0], LastBuckets(last, cs[..0]), LastRunner(runner, cs[..0]),
                       cs[0]);
    inst := cs[0].inst;
    FreeRunnerTakes(t, inst, runner.value, cs[0].runner, outcomes[0]);
    OneTaken(t, outcomes);
    InstanceOf(t, inst, runner, cs[0].runner, outcomes[0]);
  }

  lemma OneTaskBatch(batch: seq<Task>, t: Task)
    requires multiset(batch) == multiset{t}
    ensures batch == [t]
  {
    assert |multiset(batch)| == |batch| == 1;
    assert batch[0] in multiset(batch);
  }

  lemma OneTaken(t: Task, outcomes: seq<Outcome>)
    requires |outcomes| == 1 && outcomes[0].Taken?
    ensures Chosen([t][..1], outcomes, true) == [t] && FirstFailure(outcomes).None? && [t][1..] == []
  {
    assert [t][..1] == [t] && [t][..0] == [] && outcomes[..0] == [];
  }

  lemma InstanceOf(task: Task, inst: Instance, before: Option<Steps.State>, after: Option<Steps.State>,
                   outcome: Outcome)
    requires Offered(task, inst, before, after, outcome)
    ensures inst.taskId == task.id && inst.dedupeKey == task.dedupeKey
  {
  }
}
