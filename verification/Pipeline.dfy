/** The publish and tick pipeline as a system of atomic steps: publishers
    append and then enqueue, while the one dispatcher drains, attempts, marks,
    commits and requeues; the steps interleave freely. Whether a task is ready,
    whether an executor exists and how a hand-off turns out are left open. */
module Pipeline {
  import opened Model
  import opened Clock
  import opened WaitingQueue
  import opened TaskStore

  /** How `dispatchOne` fares before it marks: the limiter says no, the runner
      (or the missing runner) refuses, or the runner takes the instance. */
  datatype Outcome = Limited | Refused | Taken

  datatype Phase =
    | Idle
    | Scanning(win: Window, batch: seq<Task>)
    | HandedOff(win: Window, task: Task, rest: seq<Task>)
    | Marked(win: Window, task: Task, rest: seq<Task>)
    | Requeueing(tail: seq<Task>)
  {
    /** Drained tasks not yet attempted or put back. */
    function Undecided(): seq<Task> {
      match this
      case Idle => []
      case Scanning(_, batch) => batch
      case HandedOff(_, _, rest) => rest
      case Marked(_, _, rest) => rest
      case Requeueing(tail) => tail
    }
  }

  /** `publishing` are the tasks appended but not yet past the queue; `handed`
      is the order of hand-offs; the bags say where every other task went. */
  datatype State = State(
    store: StoreState,
    queue: multiset<Task>,
    limit: nat,
    phase: Phase,
    publishing: multiset<Task>,
    handed: seq<Task>,
    failed: multiset<Task>,
    held: multiset<Task>,
    rejected: multiset<Task>,
    dropped: multiset<Task>)

  function Init(capacity: int, limit: int): State {
    State(NewStore(capacity), multiset{}, if limit < 1 then 1 else limit, Idle, multiset{}, [],
          multiset{}, multiset{}, multiset{}, multiset{})
  }

  datatype Event =
    | Append(task: Task)
    | FinishPublish(task: Task, ready: bool)
    | StartTick(win: Window, executor: bool, batch: seq<Task>)
    | Attempt(outcome: Outcome)
    | OutOfWindow
    | Mark
    | Commit
    | Requeue
    | EndTick

  ghost predicate Enabled(s: State, e: Event) {
    match e
    case Append(_) => true
    case FinishPublish(t, _) => t in s.publishing
    case StartTick(_, _, batch) => s.phase.Idle? && Sorted(batch) && multiset(batch) == s.queue
    case Attempt(_) => s.phase.Scanning? && s.phase.batch != [] && s.phase.win.Contains(s.phase.batch[0].dueAt)
    case OutOfWindow => s.phase.Scanning? && s.phase.batch != [] && !s.phase.win.Contains(s.phase.batch[0].dueAt)
    case Mark => s.phase.HandedOff?
    case Commit => s.phase.Marked?
    case Requeue => s.phase.Requeueing? && s.phase.tail != []
    case EndTick => (s.phase.Scanning? || s.phase.Requeueing?) && s.phase.Undecided() == []
  }

  function Apply(s: State, e: Event): State
    requires Enabled(s, e)
  {
    match e
    case Append(task) =>
      var (store, result) := AppendTo(s.store, task);
      if result.ErrFull? then s.(store := store)
      else s.(store := store, publishing := s.publishing + multiset{task.(sequence := result.sq)})
    case FinishPublish(t, ready) =>
      var rest := s.publishing - multiset{t};
      if !ready then s.(publishing := rest, held := s.held + multiset{t})
      else if |s.queue| >= s.limit then s.(publishing := rest, rejected := s.rejected + multiset{t})
      else s.(publishing := rest, queue := s.queue + multiset{t})
    case StartTick(win, executor, batch) =>
      s.(queue := multiset{},
         phase := if batch == [] then Idle else if !executor then Requeueing(batch) else Scanning(win, batch))
    case Attempt(outcome) =>
      var task, rest := s.phase.batch[0], s.phase.batch[1..];
      if outcome.Taken? then s.(handed := s.handed + [task], phase := HandedOff(s.phase.win, task, rest))
      else s.(failed := s.failed + multiset{task}, phase := Scanning(s.phase.win, rest))
    case OutOfWindow => s.(phase := Requeueing(s.phase.batch))
    case Mark =>
      s.(store := MarkIn(s.store, s.phase.task.sequence, true),
        phase := Marked(s.phase.win, s.phase.task, s.phase.rest))
    case Commit =>
      s.(store := CommitTo(s.store, s.phase.task.sequence).0, phase := Scanning(s.phase.win, s.phase.rest))
    case Requeue =>
      var task, rest := s.phase.tail[0], s.phase.tail[1..];
      if |s.queue| >= s.limit then s.(dropped := s.dropped + multiset{task}, phase := Requeueing(rest))
      else s.(queue := s.queue + multiset{task}, phase := Requeueing(rest))
    case EndTick => s.(phase := Idle)
  }

  // ---------- Runs (events in order, the last one peeled) ----------

  ghost predicate CanRun(s: State, es: seq<Event>)
    decreases |es|, 0
  {
    es == [] || (CanRun(s, es[..|es| - 1]) && Enabled(Exec(s, es[..|es| - 1]), es[|es| - 1]))
  }

  ghost function Exec(s: State, es: seq<Event>): State
    requires CanRun(s, es)
    decreases |es|, 1
  {
    if es == [] then s else Apply(Exec(s, es[..|es| - 1]), es[|es| - 1])
  }

  lemma RunExtends(s: State, es: seq<Event>, e: Event)
    requires CanRun(s, es) && Enabled(Exec(s, es), e)
    ensures CanRun(s, es + [e]) && Exec(s, es + [e]) == Apply(Exec(s, es), e)
  {
    assert (es + [e])[..|es|] == es;
  }

  lemma {:induction false} RunsCompose(s: State, es: seq<Event>, more: seq<Event>)
    requires CanRun(s, es) && CanRun(Exec(s, es), more)
    ensures CanRun(s, es + more) && Exec(s, es + more) == Exec(Exec(s, es), more)
    decreases |more|
  {
    hide Enabled, Apply;
    if more == [] {
      assert es + more == es;
    } else {
      var most, e := more[..|more| - 1], more[|more| - 1];
      RunsCompose(s, es, most);
      RunExtends(s, es + most, e);
      assert es + more == es + most + [e];
    }
  }

  // ---------- Conservation ----------

  /** In how many places `t` is. */
  ghost function Count(s: State, t: Task): nat {
    s.publishing[t] + s.queue[t] + multiset(s.phase.Undecided())[t] + multiset(s.handed)[t]
    + s.failed[t] + s.held[t] + s.rejected[t] + s.dropped[t]
  }

  ghost predicate Conserved(s: State) {
    WellFormed(s.store) && |s.queue| <= s.limit && forall t :: Count(s, t) == multiset(s.store.log)[t]
  }

  /** Only an append adds to the account; every other step moves a task. */
  lemma PublisherStepCounts(s: State, e: Event, t: Task)
    requires Enabled(s, e) && (e.Append? || e.FinishPublish?)
    ensures var r := Apply(s, e); Count(r, t) - multiset(r.store.log)[t] == Count(s, t) - multiset(s.store.log)[t]
  {
    if e.Append? {
      AppendCounts(s, e.task, t);
    } else {
      var p := s.publishing - multiset{e.task};
      assert p[t] == s.publishing[t] - multiset{e.task}[t];
      assert (s.queue + multiset{e.task})[t] == s.queue[t] + multiset{e.task}[t];
    }
  }

  lemma AppendCounts(s: State, task: Task, t: Task)
    ensures var r := Apply(s, Append(task));
      Count(r, t) - multiset(r.store.log)[t] == Count(s, t) - multiset(s.store.log)[t]
  {
    var new' := task.(sequence := s.store.last + 1);
    assert multiset(s.store.log + [new'])[t] == multiset(s.store.log)[t] + multiset{new'}[t];
    assert (s.publishing + multiset{new'})[t] == s.publishing[t] + multiset{new'}[t];
  }

  lemma DispatcherStepCounts(s: State, e: Event, t: Task)
    requires Enabled(s, e) && !e.Append? && !e.FinishPublish?
    ensures Count(Apply(s, e), t) == Count(s, t) && Apply(s, e).store.log == s.store.log
  {
    hide Sorted;
    if e.Attempt? {
      AttemptCounts(s, e.outcome, t);
    } else if e.Requeue? {
      RequeueCounts(s, t);
    }
  }

  lemma AttemptCounts(s: State, outcome: Outcome, t: Task)
    requires Enabled(s, Attempt(outcome))
    ensures Count(Apply(s, Attempt(outcome)), t) == Count(s, t)
  {
    FirstLeaves(s.phase.batch, t);
    var task := s.phase.batch[0];
    assert multiset(s.handed + [task])[t] == multiset(s.handed)[t] + multiset{task}[t];
    assert (s.failed + multiset{task})[t] == s.failed[t] + multiset{task}[t];
  }

  lemma RequeueCounts(s: State, t: Task)
    requires Enabled(s, Requeue)
    ensures Count(Apply(s, Requeue), t) == Count(s, t)
  {
    FirstLeaves(s.phase.tail, t);
    var task := s.phase.tail[0];
    assert (s.queue + multiset{task})[t] == s.queue[t] + multiset{task}[t];
    assert (s.dropped + multiset{task})[t] == s.dropped[t] + multiset{task}[t];
  }

  lemma FirstLeaves(tasks: seq<Task>, t: Task)
    requires tasks != []
    ensures multiset(tasks)[t] == multiset(tasks[1..])[t] + if t == tasks[0] then 1 else 0
  {
    assert tasks == [tasks[0]] + tasks[1..];
  }

  lemma StepKeepsBounds(s: State, e: Event)
    requires WellFormed(s.store) && |s.queue| <= s.limit && Enabled(s, e)
    ensures WellFormed(Apply(s, e).store) && |Apply(s, e).queue| <= Apply(s, e).limit
  {
    hide Sorted;
  }

  lemma StepKeepsConserved(s: State, e: Event)
    requires Conserved(s) && Enabled(s, e)
    ensures Conserved(Apply(s, e))
  {
    hide Count, Apply, Enabled, WellFormed;
    StepKeepsBounds(s, e);
    var r := Apply(s, e);
    forall t ensures Count(r, t) == multiset(r.store.log)[t] {
      if e.Append? || e.FinishPublish? {
        PublisherStepCounts(s, e, t);
      } else {
        DispatcherStepCounts(s, e, t);
      }
    }
  }

  /** The places where tasks end without a hand-off. */
  datatype Place = Held | Rejected | Failed | Dropped

  function In(s: State, place: Place): multiset<Task> {
    match place
    case Held => s.held
    case Rejected => s.rejected
    case Failed => s.failed
    case Dropped => s.dropped
  }

  /** Why a step sends a task there: it was published unready, or ready into a
      full queue; its attempt was not taken; or it was put back into a full
      queue. */
  ghost function Sent(s: State, e: Event, place: Place): multiset<Task>
    requires Enabled(s, e)
  {
    var full := |s.queue| >= s.limit;
    match place
    case Held => if e.FinishPublish? && !e.ready then multiset{e.task} else multiset{}
    case Rejected => if e.FinishPublish? && e.ready && full then multiset{e.task} else multiset{}
    case Failed => if e.Attempt? && !e.outcome.Taken? then multiset{s.phase.batch[0]} else multiset{}
    case Dropped => if e.Requeue? && full then multiset{s.phase.tail[0]} else multiset{}
  }

  ghost function SentIn(s: State, es: seq<Event>, place: Place): multiset<Task>
    requires CanRun(s, es)
    decreases |es|
  {
    if es == [] then multiset{}
    else
      var most := es[..|es| - 1];
      SentIn(s, most, place) + Sent(Exec(s, most), es[|es| - 1], place)
  }

  lemma StepSends(s: State, e: Event, place: Place)
    requires Enabled(s, e)
    ensures In(Apply(s, e), place) == In(s, place) + Sent(s, e, place)
  {
    hide Sorted;
  }

  /** Over any run each place holds exactly the tasks sent there for its reason,
      so no task is, say, held that was ready, or failed without an attempt. */
  lemma {:induction false} PlacesTellWhy(s: State, es: seq<Event>, place: Place)
    requires CanRun(s, es)
    ensures In(Exec(s, es), place) == In(s, place) + SentIn(s, es, place)
  {
    hide Enabled, Apply, In, Sent;
    if es != [] {
      var most, e := es[..|es| - 1], es[|es| - 1];
      PlacesTellWhy(s, most, place);
      StepSends(Exec(s, most), e, place);
    }
  }

  // ---------- Marks and cursor ----------

  function Sequences(tasks: seq<Task>): set<int> {
    set t | t in tasks :: t.sequence
  }

  function MaxSequence(tasks: seq<Task>): int {
    if tasks == [] then 0
    else
      var m, sq := MaxSequence(tasks[..|tasks| - 1]), tasks[|tasks| - 1].sequence;
      if sq > m then sq else m
  }

  /** The hand-offs already marked, and those already committed. */
  ghost function MarkedPart(s: State): seq<Task> {
    if s.phase.HandedOff? && s.handed != [] then s.handed[..|s.handed| - 1] else s.handed
  }

  ghost function CommittedPart(s: State): seq<Task> {
    if (s.phase.HandedOff? || s.phase.Marked?) && s.handed != [] then s.handed[..|s.handed| - 1] else s.handed
  }

  /** Marks and cursor follow the hand-offs. */
  ghost predicate CursorAgrees(s: State) {
    && (s.phase.HandedOff? || s.phase.Marked? ==> s.handed != [] && s.handed[|s.handed| - 1] == s.phase.task)
    && s.store.dispatched == Sequences(MarkedPart(s))
    && s.store.committed == MaxSequence(CommittedPart(s))
  }

  /** A task in hand was appended, so marking and committing it cannot fail. */
  lemma HandedIsAppended(s: State, t: Task)
    requires Conserved(s) && t in s.handed
    ensures t in s.store.log && 1 <= t.sequence <= s.store.last
  {
    assert multiset(s.handed)[t] > 0;
    assert Count(s, t) == multiset(s.store.log)[t];
    var i :| 0 <= i < |s.store.log| && s.store.log[i] == t;
  }

  lemma CommitNeverFails(s: State)
    requires Conserved(s) && CursorAgrees(s) && (s.phase.HandedOff? || s.phase.Marked?)
    ensures CommitTo(s.store, s.phase.task.sequence).1.Committed?
    ensures s.phase.task.sequence <= s.store.last
  {
    HandedIsAppended(s, s.phase.task);
  }

  lemma MarkKeepsCursor(s: State)
    requires Conserved(s) && CursorAgrees(s) && s.phase.HandedOff?
    ensures CursorAgrees(Apply(s, Mark))
  {
    CommitNeverFails(s);
    var n := |s.handed| - 1;
    assert s.handed == s.handed[..n] + [s.phase.task];
    assert Sequences(s.handed) == Sequences(s.handed[..n]) + {s.phase.task.sequence};
  }

  lemma TakenKeepsCursor(s: State)
    requires CursorAgrees(s) && Enabled(s, Attempt(Taken))
    ensures CursorAgrees(Apply(s, Attempt(Taken)))
  {
    hide Sequences, MaxSequence;
    assert Apply(s, Attempt(Taken)).handed[..|s.handed|] == s.handed;
  }

  predicate BetweenHandOffs(phase: Phase) {
    !phase.HandedOff? && !phase.Marked?
  }

  ghost predicate SameHandOffs(s: State, t: State) {
    && t.handed == s.handed && t.store.dispatched == s.store.dispatched && t.store.committed == s.store.committed
    && (t.phase == s.phase || (BetweenHandOffs(s.phase) && BetweenHandOffs(t.phase)))
  }

  lemma PublisherLeavesHandOffs(s: State, e: Event)
    requires Enabled(s, e) && (e.Append? || e.FinishPublish?)
    ensures SameHandOffs(s, Apply(s, e))
  {
  }

  lemma OtherStepsLeaveHandOffs(s: State, e: Event)
    requires Enabled(s, e) && !e.Mark? && !e.Commit? && e != Attempt(Taken)
    ensures SameHandOffs(s, Apply(s, e))
  {
    if e.Append? || e.FinishPublish? {
      PublisherLeavesHandOffs(s, e);
    } else if e.Attempt? || e.Requeue? {
      hide Sorted;
    } else {
      hide Sorted;
    }
  }

  lemma StepKeepsCursor(s: State, e: Event)
    requires Conserved(s) && CursorAgrees(s) && Enabled(s, e)
    ensures CursorAgrees(Apply(s, e))
  {
    hide Sorted, Sequences, MaxSequence;
    if e.Mark? {
      MarkKeepsCursor(s);
    } else if e.Commit? {
      CommitKeepsCursor(s);
    } else if e == Attempt(Taken) {
      TakenKeepsCursor(s);
    } else {
      OtherStepsLeaveHandOffs(s, e);
      hide Apply, Enabled, Conserved;
    }
  }

  lemma CommitKeepsCursor(s: State)
    requires Conserved(s) && CursorAgrees(s) && s.phase.Marked?
    ensures CursorAgrees(Apply(s, Commit))
  {
    CommitNeverFails(s);
    hide Sequences;
  }

  // ---------- Every reachable state ----------

  ghost predicate Inv(s: State) {
    Conserved(s) && CursorAgrees(s)
  }

  lemma StepKeepsInv(s: State, e: Event)
    requires Inv(s) && Enabled(s, e)
    ensures Inv(Apply(s, e))
  {
    StepKeepsConserved(s, e);
    StepKeepsCursor(s, e);
  }

  lemma {:induction false} RunKeepsInv(s: State, es: seq<Event>)
    requires Inv(s) && CanRun(s, es)
    ensures Inv(Exec(s, es))
  {
    if es != [] {
      RunKeepsInv(s, es[..|es| - 1]);
      StepKeepsInv(Exec(s, es[..|es| - 1]), es[|es| - 1]);
    }
  }

  ghost predicate Reachable(s: State) {
    exists capacity, limit, es :: CanRun(Init(capacity, limit), es) && Exec(Init(capacity, limit), es) == s
  }

  lemma ReachableHasInv(s: State)
    requires Reachable(s)
    ensures Inv(s)
  {
    var capacity, limit, es :| CanRun(Init(capacity, limit), es) && Exec(Init(capacity, limit), es) == s;
    RunKeepsInv(Init(capacity, limit), es);
  }

  lemma {:induction false} LogHoldsEachOnce(log: seq<Task>, t: Task)
    requires InSequence(log)
    ensures multiset(log)[t] == if t in log then 1 else 0
  {
    if log != [] {
      var n := |log| - 1;
      assert log == log[..n] + [log[n]];
      LogHoldsEachOnce(log[..n], t);
      assert log[n] !in log[..n];
    }
  }

  /** Conservation: in every interleaving each retained task is in exactly one
      place, and nothing that was not appended is anywhere. */
  lemma EachTaskIsInOnePlace(s: State, t: Task)
    requires Reachable(s)
    ensures s.publishing[t] + s.queue[t] + multiset(s.phase.Undecided())[t] + multiset(s.handed)[t]
            + s.failed[t] + s.held[t] + s.rejected[t] + s.dropped[t]
            == if t in s.store.log then 1 else 0
  {
    ReachableHasInv(s);
    LogHoldsEachOnce(s.store.log, t);
    assert Count(s, t) == multiset(s.store.log)[t];
  }

  lemma TwiceInBag(tasks: seq<Task>, i: nat, j: nat)
    requires i < j < |tasks| && tasks[i] == tasks[j]
    ensures multiset(tasks)[tasks[i]] >= 2
  {
    var a, b := tasks[..j], tasks[j..];
    assert tasks == a + b && a[i] in a && b[0] in b;
  }

  lemma HandedIsAtItsPosition(s: State, t: Task)
    requires Reachable(s) && t in s.handed
    ensures 1 <= t.sequence <= |s.store.log| && s.store.log[t.sequence - 1] == t
    ensures multiset(s.handed)[t] <= 1
  {
    ReachableHasInv(s);
    HandedIsAppended(s, t);
    EachTaskIsInOnePlace(s, t);
    var i :| 0 <= i < |s.store.log| && s.store.log[i] == t;
  }

  /** At most once: no sequence is handed to a runner twice. */
  lemma HandedOffAtMostOnce(s: State, i: nat, j: nat)
    requires Reachable(s) && i < j < |s.handed|
    ensures s.handed[i].sequence != s.handed[j].sequence
  {
    hide Reachable;
    HandedIsAtItsPosition(s, s.handed[i]);
    HandedIsAtItsPosition(s, s.handed[j]);
    if s.handed[i] == s.handed[j] {
      TwiceInBag(s.handed, i, j);
    }
  }

  /** Whenever no hand-off is between mark and commit: the marks are exactly
      the handed-off sequences marked so far, the cursor is the highest
      committed one, and every pending task is counted as undispatched. */
  lemma CursorAndMarksAgree(s: State)
    requires Reachable(s) && !s.phase.Marked?
    ensures s.phase.HandedOff? || s.store.dispatched == Sequences(s.handed)
    ensures s.phase.HandedOff? || s.store.committed == MaxSequence(s.handed)
    ensures Retryable(s.store.log, s.store.committed, s.store.dispatched)
      == Between(s.store.log, s.store.committed, s.store.last)
  {
    ReachableHasInv(s);
    MaxIsMax(MarkedPart(s));
    NothingAboveCursorIsMarked(s.store.log, s.store.committed, s.store.dispatched, s.store.last);
  }

  lemma {:induction false} MaxIsMax(tasks: seq<Task>)
    ensures forall t :: t in tasks ==> t.sequence <= MaxSequence(tasks)
    ensures MaxSequence(tasks) == 0 || exists t :: t in tasks && t.sequence == MaxSequence(tasks)
  {
    if tasks != [] {
      MaxIsMax(tasks[..|tasks| - 1]);
      assert tasks == tasks[..|tasks| - 1] + [tasks[|tasks| - 1]];
    }
  }

  lemma {:induction false} NothingAboveCursorIsMarked(log: seq<Task>, committed: int, dispatched: set<int>, last: int)
    requires forall sq :: sq in dispatched ==> sq <= committed
    requires forall t :: t in log ==> t.sequence <= last
    ensures Retryable(log, committed, dispatched) == Between(log, committed, last)
  {
    if log != [] {
      NothingAboveCursorIsMarked(log[..|log| - 1], committed, dispatched, last);
    }
  }

  /** The commit that follows a hand-off never fails. */
  lemma CommitAlwaysSucceeds(s: State)
    requires Reachable(s) && s.phase.Marked?
    ensures CommitTo(s.store, s.phase.task.sequence).1.Committed?
  {
    ReachableHasInv(s);
    CommitNeverFails(s);
  }

  // ---------- What the cursor does to the others ----------

  /** Between hand-offs a retained task that was not handed off still counts as
      pending exactly when no task of a higher sequence was handed off. */
  lemma PendingIffAboveEveryHandOff(s: State, t: Task)
    requires Reachable(s) && BetweenHandOffs(s.phase) && t in s.store.log
    ensures t in Between(s.store.log, s.store.committed, s.store.last)
      <==> forall h :: h in s.handed ==> h.sequence < t.sequence
  {
    ReachableHasInv(s);
    BetweenIsExact(s.store.log, s.store.committed, s.store.last);
    MaxIsMax(s.handed);
    var i :| 0 <= i < |s.store.log| && s.store.log[i] == t;
  }

  lemma ReachableStep(s: State, e: Event)
    requires Reachable(s) && Enabled(s, e)
    ensures Reachable(Apply(s, e))
  {
    var capacity, limit, es :| CanRun(Init(capacity, limit), es) && Exec(Init(capacity, limit), es) == s;
    RunExtends(Init(capacity, limit), es, e);
  }

  /** A ready task can be published into a pipeline with room. */
  lemma CanPublish(s: State, t: Task) returns (r: State)
    requires Reachable(s) && t.sequence == s.store.last + 1 && |s.store.log| < s.store.capacity && |s.queue| < s.limit
    ensures Reachable(r) && r.phase == s.phase && r.handed == s.handed && r.limit == s.limit && r.dropped == s.dropped
    ensures r.store == s.store.(log := s.store.log + [t], last := t.sequence) && r.queue == s.queue + multiset{t}
  {
    hide Reachable;
    var s1 := Apply(s, Append(t));
    ReachableStep(s, Append(t));
    r := Apply(s1, FinishPublish(t, true));
    ReachableStep(s1, FinishPublish(t, true));
  }

  /** A task in the window can be handed off, marked and committed. */
  lemma CanHandOff(s: State) returns (r: State)
    requires Reachable(s) && Enabled(s, Attempt(Taken))
      && 0 <= s.store.committed < s.phase.batch[0].sequence <= s.store.last
    ensures Reachable(r) && r.phase == Scanning(s.phase.win, s.phase.batch[1..])
    ensures r.handed == s.handed + [s.phase.batch[0]] && r.failed == s.failed
    ensures r.store.log == s.store.log && r.store.last == s.store.last && r.store.committed == s.phase.batch[0].sequence
  {
    hide Reachable;
    var s1 := Apply(s, Attempt(Taken));
    ReachableStep(s, Attempt(Taken));
    var s2 := Apply(s1, Mark);
    ReachableStep(s1, Mark);
    r := Apply(s2, Commit);
    ReachableStep(s2, Commit);
  }

  /** The first of two drained tasks fails, the second is handed off. */
  lemma CanFailThenHandOff(s: State, a: Task, b: Task, win: Window) returns (r: State)
    requires Reachable(s) && s.phase.Idle? && Sorted([a, b]) && s.queue == multiset{a, b} && s.handed == []
    requires win.Contains(a.dueAt) && win.Contains(b.dueAt) && 0 <= s.store.committed < b.sequence <= s.store.last
    ensures Reachable(r) && r.phase.Idle? && a in r.failed && r.handed == [b]
    ensures r.store.log == s.store.log && r.store.last == s.store.last && r.store.committed == b.sequence
  {
    hide Reachable, Sorted;
    assert [a, b][1..] == [b] && [b][1..] == [] && multiset([a, b]) == s.queue;
    var s1 := Apply(s, StartTick(win, true, [a, b]));
    ReachableStep(s, StartTick(win, true, [a, b]));
    var s2 := Apply(s1, Attempt(Limited));
    ReachableStep(s1, Attempt(Limited));
    var s3 := CanHandOff(s2);
    r := Apply(s3, EndTick);
    ReachableStep(s3, EndTick);
  }

  /** So a failed attempt is not always there to be fetched again: when the
      next task of the batch is handed off, the cursor moves past the failed
      one, which then reads as committed though no runner ever had it. */
  lemma FailedTaskCanReadAsCommitted(a: Task, b: Task, win: Window) returns (s: State)
    requires a.sequence == 1 && b.sequence == 2 && Less(a, b) && win.Contains(a.dueAt) && win.Contains(b.dueAt)
    ensures Reachable(s) && s.phase.Idle? && a in s.failed && s.handed == [b]
    ensures a !in Between(s.store.log, s.store.committed, s.store.last)
      && a in Between(s.store.log, 0, s.store.committed)
  {
    var s0 := Init(2, 2);
    assert CanRun(s0, []) && Exec(s0, []) == s0;
    assert Reachable(s0);
    hide Reachable, CanRun, Exec, Between;
    var s1 := CanPublish(s0, a);
    var s2 := CanPublish(s1, b);
    IdLessIsStrictTotal(a.id, b.id);
    s := CanFailThenHandOff(s2, a, b, win);
    assert s.store.log == [a, b];
    FirstOfTwo(a, b);
  }

  lemma FirstOfTwo(a: Task, b: Task)
    requires a.sequence == 1 && b.sequence == 2
    ensures a !in Between([a, b], 2, 2) && a in Between([a, b], 0, 2)
  {
    BetweenIsExact([a, b], 2, 2);
    BetweenIsExact([a, b], 0, 2);
  }

  // ---------- What the queue bound costs ----------

  /** A publisher enqueues only what is ready. */
  predicate IsEnqueue(e: Event) {
    e.FinishPublish? && e.ready
  }

  function Publishes(es: seq<Event>): nat {
    if es == [] then 0
    else Publishes(es[..|es| - 1]) + if IsEnqueue(es[|es| - 1]) then 1 else 0
  }

  function Load(s: State): nat {
    |s.queue| + |s.phase.Undecided()|
  }

  /** In any run, ticks included: as long as what is queued or drained plus
      the enqueues of publishers fits the bound, no enqueue fails, so neither a
      publish nor a requeue loses anything. */
  lemma {:induction false} NothingLostWithinBound(s: State, es: seq<Event>)
    requires CanRun(s, es) && Load(s) + Publishes(es) <= s.limit
    ensures var t := Exec(s, es);
      t.dropped == s.dropped && t.rejected == s.rejected && t.limit == s.limit && Load(t) <= Load(s) + Publishes(es)
  {
    if es != [] {
      var most, e := es[..|es| - 1], es[|es| - 1];
      NothingLostWithinBound(s, most);
      StepKeepsLoad(Exec(s, most), e);
    }
  }

  lemma StepKeepsLoad(s: State, e: Event)
    requires Enabled(s, e) && Load(s) + (if IsEnqueue(e) then 1 else 0) <= s.limit
    ensures var t := Apply(s, e);
      && t.dropped == s.dropped && t.rejected == s.rejected && t.limit == s.limit
      && Load(t) <= Load(s) + if IsEnqueue(e) then 1 else 0
  {
    if e.StartTick? {
      assert |multiset(e.batch)| == |e.batch|;
    }
  }

  /** Between one drain and the next: a requeued task is lost only if the queue
      is full at that moment, and then it still is at its bound at the end. */
  lemma {:induction false} DropMeansFull(s: State, es: seq<Event>)
    requires Conserved(s) && CanRun(s, es) && forall k :: 0 <= k < |es| ==> !es[k].StartTick?
    ensures var t := Exec(s, es); t.limit == s.limit && (t.dropped != s.dropped ==> |t.queue| == t.limit)
  {
    if es != [] {
      var most, e := es[..|es| - 1], es[|es| - 1];
      DropMeansFull(s, most);
      RunKeepsConserved(s, es);
      var t := Exec(s, most);
      assert !e.StartTick?;
      assert |t.queue| <= |Apply(t, e).queue|;
    }
  }

  lemma {:induction false} RunKeepsConserved(s: State, es: seq<Event>)
    requires Conserved(s) && CanRun(s, es)
    ensures Conserved(Exec(s, es))
  {
    if es != [] {
      RunKeepsConserved(s, es[..|es| - 1]);
      StepKeepsConserved(Exec(s, es[..|es| - 1]), es[|es| - 1]);
    }
  }

  /** `a` is drained but not due, and `b` takes its place in a queue for one. */
  lemma DrainedThenFull(a: Task, b: Task, win: Window) returns (s: State)
    requires a.sequence == 1 && b.sequence == 2
    ensures Reachable(s) && s.phase == Scanning(win, [a]) && s.limit == 1
    ensures s.dropped == multiset{} && s.queue == multiset{b} && s.store.log == [a, b]
  {
    var s0 := Init(2, 1);
    assert CanRun(s0, []) && Exec(s0, []) == s0;
    assert Reachable(s0);
    hide Reachable, CanRun, Exec;
    var s1 := CanPublish(s0, a);
    assert multiset([a]) == s1.queue;
    var s2 := Apply(s1, StartTick(win, true, [a]));
    ReachableStep(s1, StartTick(win, true, [a]));
    s := CanPublish(s2, b);
  }

  /** So it does happen that putting `a` back fails unnoticed. */
  lemma RequeueCanLoseTask(a: Task, b: Task, win: Window) returns (s: State)
    requires a.sequence == 1 && b.sequence == 2 && !win.Contains(a.dueAt)
    ensures Reachable(s) && s.dropped == multiset{a} && s.queue == multiset{b} && s.store.log == [a, b]
  {
    var s3 := DrainedThenFull(a, b, win);
    hide Reachable;
    var s4 := Apply(s3, OutOfWindow);
    ReachableStep(s3, OutOfWindow);
    s := Apply(s4, Requeue);
    ReachableStep(s4, Requeue);
  }

  // ---------- Exactly when a requeue can lose a task ----------

  /** How many drained tasks the tick in progress is going to put back. */
  function ToRequeue(phase: Phase): nat {
    match phase
    case Idle => 0
    case Scanning(win, batch) => |batch| - InWindowPrefix(batch, win)
    case HandedOff(win, _, rest) => |rest| - InWindowPrefix(rest, win)
    case Marked(win, _, rest) => |rest| - InWindowPrefix(rest, win)
    case Requeueing(tail) => |tail|
  }

  ghost predicate NoNewTick(es: seq<Event>) {
    forall k :: 0 <= k < |es| ==> !es[k].StartTick?
  }

  /** Before the next drain, and with at most `c` enqueues of publishers, a
      drained task is lost. */
  ghost predicate Loses(s: State, es: seq<Event>, c: nat) {
    CanRun(s, es) && NoNewTick(es) && Publishes(es) <= c && Exec(s, es).dropped != s.dropped
  }

  lemma StepKeepsRequeueLoad(s: State, e: Event)
    requires Enabled(s, e) && !e.StartTick?
    ensures var t := Apply(s, e);
      && t.limit == s.limit && ToRequeue(t.phase) <= ToRequeue(s.phase)
      && |t.queue| + ToRequeue(t.phase) <= |s.queue| + ToRequeue(s.phase) + (if IsEnqueue(e) then 1 else 0)
      && (t.dropped != s.dropped ==> |s.queue| >= s.limit && ToRequeue(s.phase) > 0)
  {
  }

  lemma {:induction false} NothingLostWithinRoom(s: State, es: seq<Event>)
    requires CanRun(s, es) && NoNewTick(es)
    requires ToRequeue(s.phase) == 0 || |s.queue| + ToRequeue(s.phase) + Publishes(es) <= s.limit
    ensures var t := Exec(s, es);
      && t.dropped == s.dropped && t.limit == s.limit && ToRequeue(t.phase) <= ToRequeue(s.phase)
      && |t.queue| + ToRequeue(t.phase) <= |s.queue| + ToRequeue(s.phase) + Publishes(es)
  {
    hide Apply, Enabled, ToRequeue;
    if es != [] {
      var most, e := es[..|es| - 1], es[|es| - 1];
      NothingLostWithinRoom(s, most);
      assert !e.StartTick?;
      StepKeepsRequeueLoad(Exec(s, most), e);
    }
  }

  lemma {:induction false} PublishesAdd(es: seq<Event>, more: seq<Event>)
    ensures Publishes(es + more) == Publishes(es) + Publishes(more)
    decreases |more|
  {
    if more == [] {
      assert es + more == es;
    } else {
      PublishesAdd(es, more[..|more| - 1]);
      assert (es + more)[..|es + more| - 1] == es + more[..|more| - 1];
    }
  }

  /** A run of the pipeline from `s` to `t` without a new tick and with `c`
      enqueues. */
  ghost predicate Leads(s: State, es: seq<Event>, c: nat, t: State) {
    CanRun(s, es) && NoNewTick(es) && Publishes(es) == c && Exec(s, es) == t
  }

  lemma LeadsOn(s: State, es: seq<Event>, c: nat, t: State, more: seq<Event>, d: nat, u: State)
    requires Leads(s, es, c, t) && Leads(t, more, d, u)
    ensures Leads(s, es + more, c + d, u)
  {
    hide CanRun, Exec, Publishes;
    RunsCompose(s, es, more);
    PublishesAdd(es, more);
  }

  lemma OneStep(s: State, e: Event)
    requires Enabled(s, e) && !e.StartTick?
    ensures Leads(s, [e], if IsEnqueue(e) then 1 else 0, Apply(s, e))
  {
    hide Enabled, Apply;
    var none: seq<Event> := [];
    assert CanRun(s, none) && Exec(s, none) == s && Publishes(none) == 0;
    RunExtends(s, none, e);
    assert none + [e] == [e] && [e][..0] == none;
  }

  /** One step of the dispatcher on its way to put tasks back. */
  function NextOfScan(phase: Phase): Event
    requires phase.Scanning? || phase.HandedOff? || phase.Marked?
  {
    match phase
    case Scanning(win, batch) => if batch != [] && win.Contains(batch[0].dueAt) then Attempt(Limited) else OutOfWindow
    case HandedOff(_, _, _) => Mark
    case Marked(_, _, _) => Commit
  }

  /** Only the dispatcher moved: the queue and the log are as before. */
  ghost predicate SameQueue(s: State, t: State) {
    && t.queue == s.queue && t.limit == s.limit && t.dropped == s.dropped
    && t.store.log == s.store.log && t.store.capacity == s.store.capacity && t.store.last == s.store.last
  }

  lemma ScanStep(s: State)
    requires (s.phase.Scanning? || s.phase.HandedOff? || s.phase.Marked?) && ToRequeue(s.phase) > 0
    ensures var e := NextOfScan(s.phase);
      && Enabled(s, e) && !e.StartTick? && !IsEnqueue(e)
      && SameQueue(s, Apply(s, e)) && ToRequeue(Apply(s, e).phase) == ToRequeue(s.phase)
      && Distance(Apply(s, e).phase) < Distance(s.phase)
  {
  }

  function Distance(phase: Phase): nat {
    match phase
    case Idle => 0
    case Requeueing(_) => 0
    case Scanning(_, batch) => 3 * |batch| + 1
    case HandedOff(_, _, rest) => 3 * |rest| + 3
    case Marked(_, _, rest) => 3 * |rest| + 2
  }

  /** Whatever the tick is at, it can come to putting the tasks back. */
  lemma {:induction false} ScanComesToRequeue(s: State) returns (es: seq<Event>, t: State)
    requires ToRequeue(s.phase) > 0
    ensures Leads(s, es, 0, t) && SameQueue(s, t)
    ensures t.phase.Requeueing? && |t.phase.tail| == ToRequeue(s.phase)
    decreases Distance(s.phase)
  {
    if s.phase.Requeueing? {
      es, t := [], s;
    } else {
      var e := NextOfScan(s.phase);
      ScanStep(s);
      OneStep(s, e);
      hide Apply, Enabled, Leads, NextOfScan;
      es, t := ScanComesToRequeue(Apply(s, e));
      LeadsOn(s, [e], 0, Apply(s, e), es, 0, t);
      es := [e] + es;
    }
  }

  lemma PublishOne(s: State) returns (es: seq<Event>, t: State)
    requires |s.store.log| < s.store.capacity && |s.queue| < s.limit
    ensures Leads(s, es, 1, t) && t.phase == s.phase && t.limit == s.limit && t.dropped == s.dropped
    ensures |t.queue| == |s.queue| + 1 && |t.store.log| == |s.store.log| + 1 && t.store.capacity == s.store.capacity
  {
    var task := Task("", s.store.last + 1, "", "", ZERO_TIME, TaskPending);
    var s1 := Apply(s, Append(task));
    t := Apply(s1, FinishPublish(task, true));
    OneStep(s, Append(task));
    OneStep(s1, FinishPublish(task, true));
    hide Apply, Enabled, Leads;
    LeadsOn(s, [Append(task)], 0, s1, [FinishPublish(task, true)], 1, t);
    es := [Append(task)] + [FinishPublish(task, true)];
  }

  lemma {:induction false} PublishSome(s: State, c: nat) returns (es: seq<Event>, t: State)
    requires |s.store.log| + c <= s.store.capacity && |s.queue| + c <= s.limit
    ensures Leads(s, es, c, t) && t.phase == s.phase && t.limit == s.limit && t.dropped == s.dropped
    ensures |t.queue| == |s.queue| + c
    decreases c
  {
    if c == 0 {
      es, t := [], s;
    } else {
      var first, s1 := PublishOne(s);
      es, t := PublishSome(s1, c - 1);
      LeadsOn(s, first, 1, s1, es, c - 1, t);
      es := first + es;
    }
  }

  lemma {:induction false} RequeueUntilLost(s: State) returns (es: seq<Event>, t: State)
    requires s.phase.Requeueing? && s.phase.tail != [] && |s.queue| <= s.limit < |s.queue| + |s.phase.tail|
    ensures Leads(s, es, 0, t) && t.dropped != s.dropped
    decreases |s.phase.tail|
  {
    var s1 := Apply(s, Requeue);
    OneStep(s, Requeue);
    if |s.queue| >= s.limit {
      assert s1.dropped[s.phase.tail[0]] == s.dropped[s.phase.tail[0]] + 1;
      es, t := [Requeue], s1;
    } else {
      es, t := RequeueUntilLost(s1);
      LeadsOn(s, [Requeue], 0, s1, es, 0, t);
      es := [Requeue] + es;
    }
  }

  /** Exactly when: at any point of a tick, with room in the store for `c`
      appends, a drained task can still be lost before the next drain while
      publishers enqueue at most `c` times, if and only if the tick is going to
      put something back and that, what is queued, and `c` more exceed the
      bound. */
  lemma DrainedTaskCanBeLostIff(s: State, c: nat)
    requires |s.queue| <= s.limit && |s.store.log| + c <= s.store.capacity
    ensures (exists es :: Loses(s, es, c))
      <==> ToRequeue(s.phase) > 0 && |s.queue| + ToRequeue(s.phase) + c > s.limit
  {
    if ToRequeue(s.phase) > 0 && |s.queue| + ToRequeue(s.phase) + c > s.limit {
      var es := CanLose(s, c);
      assert Loses(s, es, c);
    } else {
      forall es | CanRun(s, es) && NoNewTick(es) && Publishes(es) <= c ensures !Loses(s, es, c) {
        NothingLostWithinRoom(s, es);
      }
    }
  }

  lemma CanLose(s: State, c: nat) returns (es: seq<Event>)
    requires |s.queue| <= s.limit && |s.store.log| + c <= s.store.capacity
    requires ToRequeue(s.phase) > 0 && |s.queue| + ToRequeue(s.phase) + c > s.limit
    ensures Loses(s, es, c)
  {
    hide CanRun, Exec, Publishes, ToRequeue;
    var scan, s1 := ScanComesToRequeue(s);
    var n := if c <= s.limit - |s.queue| then c else s.limit - |s.queue|;
    var publish, s2 := PublishSome(s1, n);
    var requeue, s3 := RequeueUntilLost(s2);
    LeadsOn(s, scan, 0, s1, publish, n, s2);
    LeadsOn(s, scan + publish, n, s2, requeue, 0, s3);
    es := scan + publish + requeue;
  }

  // ---------- The early exit of a tick ----------

  /** What the scan of a batch attempts before it meets a task outside the
      window, and what it leaves. */
  function InWindowPrefix(batch: seq<Task>, win: Window): (n: nat)
    ensures n <= |batch|
    ensures forall k :: 0 <= k < n ==> win.Contains(batch[k].dueAt)
    ensures n < |batch| ==> !win.Contains(batch[n].dueAt)
  {
    if batch == [] || !win.Contains(batch[0].dueAt) then 0 else 1 + InWindowPrefix(batch[1..], win)
  }

  /** The tasks due inside (or outside) the window, in their order. */
  function Due(batch: seq<Task>, win: Window, inside: bool): seq<Task> {
    if batch == [] then []
    else (if win.Contains(batch[0].dueAt) == inside then [batch[0]] else []) + Due(batch[1..], win, inside)
  }

  lemma {:induction false} DueOfAll(batch: seq<Task>, win: Window, inside: bool)
    ensures (forall t :: t in batch ==> win.Contains(t.dueAt) == inside) ==> Due(batch, win, inside) == batch
    ensures (forall t :: t in batch ==> win.Contains(t.dueAt) != inside) ==> Due(batch, win, inside) == []
    ensures forall t :: t in Due(batch, win, inside) <==> t in batch && win.Contains(t.dueAt) == inside
  {
    if batch != [] {
      DueOfAll(batch[1..], win, inside);
      assert batch == [batch[0]] + batch[1..];
    }
  }

  lemma {:induction false} DueSplits(a: seq<Task>, b: seq<Task>, win: Window, inside: bool)
    ensures Due(a + b, win, inside) == Due(a, win, inside) + Due(b, win, inside)
  {
    if a == [] {
      assert a + b == b;
    } else {
      DueSplits(a[1..], b, win, inside);
      assert (a + b)[1..] == a[1..] + b && (a + b)[0] == a[0];
      var head := if win.Contains(a[0].dueAt) == inside then [a[0]] else [];
      var tail, other := Due(a[1..], win, inside), Due(b, win, inside);
      assert head + (tail + other) == (head + tail) + other;
    }
  }

  /** Sorted by due time, a batch without overdue tasks has nothing due in the
      window behind the first task outside it. */
  lemma RestIsLater(batch: seq<Task>, win: Window)
    requires Sorted(batch) && forall t :: t in batch ==> win.begin <= t.dueAt
    ensures forall t :: t in batch[InWindowPrefix(batch, win)..] ==> !win.Contains(t.dueAt)
  {
    var n := InWindowPrefix(batch, win);
    forall k | n <= k < |batch| ensures !win.Contains(batch[k].dueAt) {
      assert batch[n] in batch;
      assert k == n || AtMost(batch[n], batch[k]);
    }
  }

  /** An overdue task is drained first and ends the scan at once. */
  lemma OverdueStopsScan(batch: seq<Task>, win: Window, t: Task)
    requires Sorted(batch) && t in batch && t.dueAt < win.begin
    ensures InWindowPrefix(batch, win) == 0
  {
    var k :| 0 <= k < |batch| && batch[k] == t;
    assert k == 0 || AtMost(batch[0], batch[k]);
  }

  lemma PrefixIsFilter(batch: seq<Task>, win: Window)
    requires forall t :: t in batch[InWindowPrefix(batch, win)..] ==> !win.Contains(t.dueAt)
    ensures var n := InWindowPrefix(batch, win);
      batch[..n] == Due(batch, win, true) && batch[n..] == Due(batch, win, false)
  {
    var n := InWindowPrefix(batch, win);
    var a, b := batch[..n], batch[n..];
    assert batch == a + b;
    DueSplits(a, b, win, true);
    DueSplits(a, b, win, false);
    DueOfAll(a, win, true);
    DueOfAll(a, win, false);
    DueOfAll(b, win, true);
    DueOfAll(b, win, false);
  }

  /** The early exit of a tick is a filter exactly when it can be: the tasks
      attempted are those due in the window, and those left are the others, if
      and only if no drained task is overdue or none is due in the window. One
      overdue task keeps the tick from attempting anything. */
  lemma EarlyExitIsFilter(batch: seq<Task>, win: Window)
    requires Sorted(batch)
    ensures var n := InWindowPrefix(batch, win);
      (batch[..n] == Due(batch, win, true) && batch[n..] == Due(batch, win, false))
      <==> (forall t :: t in batch ==> win.begin <= t.dueAt) || (forall t :: t in batch ==> !win.Contains(t.dueAt))
    ensures (exists t :: t in batch && t.dueAt < win.begin) ==> InWindowPrefix(batch, win) == 0
  {
    DueOfAll(batch, win, true);
    if t :| t in batch && t.dueAt < win.begin {
      OverdueStopsScan(batch, win, t);
      if forall t :: t in batch ==> !win.Contains(t.dueAt) {
        PrefixIsFilter(batch, win);
      }
    } else {
      RestIsLater(batch, win);
      PrefixIsFilter(batch, win);
    }
  }
}
