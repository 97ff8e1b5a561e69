/** The runner as the source writes it: an object with a method for each of its
    critical sections and goroutine steps, each proved to be one step of the
    system in module RunnerSteps. A section that needs the lock requires it free. */
module RunnerSections {
  import opened Model
  import opened RunnerSteps

  /** What the locked section of Enqueue decides. */
  datatype EnqueueOutcome = Queued | Buffering | ErrClosed | ErrDuplicate | MustWait

  function Answer(s: State, i: Instance): EnqueueOutcome {
    if s.Closed() then ErrClosed
    else if i.dedupeKey in s.inflight then ErrDuplicate
    else if s.replay then Buffering
    else if s.HasSpace() then Queued
    else MustWait
  }

  /** The steps of the receiver and of a shutdown. */
  predicate OfOthers(e: Event) {
    match e
    case Receive => true
    case Admit => true
    case HandlerReturns => true
    case RemoveKey => true
    case WorkDone => true
    case SeeStop => true
    case Shutdown => true
    case WaitPasses => true
    case CloseStop => true
    case CloseDone => true
    case _ => false
  }

  lemma {:induction false} OthersKeepSenders(s: State, es: seq<Event>)
    requires CanRun(s, es) && forall e :: e in es ==> OfOthers(e)
    ensures var t := Exec(s, es); t.lock == s.lock && t.waiting == s.waiting && t.readding == s.readding
    decreases |es|
  {
    if es != [] {
      assert OfOthers(es[0]);
      OthersKeepSenders(Apply(s, es[0]), es[1..]);
    }
  }

  lemma EnqueueKeepsLock(s: State, i: Instance)
    requires Enabled(s, RunnerSteps.Enqueue(i))
    ensures Apply(s, RunnerSteps.Enqueue(i)).lock == s.lock
  {
  }

  lemma SlowSendKeepsLock(s: State, i: Instance)
    requires Enabled(s, SlowSend(i))
    ensures var t := Apply(s, SlowSend(i)); t.lock == s.lock && i in t.readding
  {
  }

  lemma SlowEndKeepsLock(s: State, e: Event)
    requires Enabled(s, e) && (e.SlowReAdd? || e.SlowGiveUp?)
    ensures Apply(s, e).lock == s.lock
  {
  }

  /** What the caller of Enqueue gets. */
  datatype EnqueueResult = Accepted | SlotClosed | Duplicate | QueueFull

  /** The run `es` takes the runner from `s` to `t` while an Enqueue of `i` comes
      to its result `r`, the wait for space included. */
  ghost predicate EnqueueRun(s: State, i: Instance, es: seq<Event>, r: EnqueueResult, t: State) {
    && CanRun(s, es) && t == Exec(s, es)
    && es != [] && es[0] == RunnerSteps.Enqueue(i)
    && match Answer(s, i)
       case ErrClosed => es == [RunnerSteps.Enqueue(i)] && r == SlotClosed
       case ErrDuplicate => es == [RunnerSteps.Enqueue(i)] && r == Duplicate
       case Queued => es == [RunnerSteps.Enqueue(i)] && r == Accepted
       case Buffering => es == [RunnerSteps.Enqueue(i)] && r == Accepted
       case MustWait =>
         && (r == Accepted <==> SlowSend(i) in es)
         && (r == Accepted ==> es[|es| - 1] == SlowReAdd(i))
         && (r != Accepted ==> es[|es| - 1] == SlowGiveUp(i) && r in {QueueFull, SlotClosed})
  }

  /** An Enqueue that finds space is one step and succeeds. */
  lemma QueuedRunIsOneStep(s: State, i: Instance, t: State)
    requires Answer(s, i).Queued? && s.lock.Free?
    ensures forall es, r :: EnqueueRun(s, i, es, r, t) ==>
      r.Accepted? && es == [RunnerSteps.Enqueue(i)] && t == Apply(s, RunnerSteps.Enqueue(i))
  {
    OneStepRuns(s, RunnerSteps.Enqueue(i));
  }

  /** Why the wait for space can end without a send. */
  datatype WaitError = ErrFull | ErrStopped

  function ClosingOf(closed: bool, waitOver: bool, stopClosed: bool, doneClosed: bool): Closing {
    if !closed then Open
    else if doneClosed then Released
    else if stopClosed then Stopped
    else if waitOver then Drained
    else Waiting
  }

  class Runner {
    const size: nat
    var lock: Lock
    var inflight: set<string>
    var replay: bool
    var buffer: seq<Instance>
    var closed: bool
    var stopClosed: bool
    var doneClosed: bool
    var ch: seq<Instance>
    var inflightWG: int
    var worker: Worker
    var waitOver: bool
    ghost var waiting: multiset<Instance>
    ghost var readding: multiset<Instance>
    ghost var windows: seq<Window>
    ghost var sent: seq<Sent>
    ghost var handled: seq<Instance>
    ghost var discarded: seq<Instance>

    ghost function View(): State
      reads this
    {
      State(size, lock, inflight, replay, buffer, ClosingOf(closed, waitOver, stopClosed, doneClosed), ch, inflightWG,
            worker, waiting, readding, windows, sent, handled, discarded)
    }

    /** A shutdown goes through its stages in order, so the stage in the view
        tells all four fields. */
    ghost predicate Valid()
      reads this
    {
      (doneClosed ==> stopClosed) && (stopClosed ==> waitOver) && (waitOver ==> closed)
    }

    constructor (queueSize: nat)
      ensures Valid() && View() == Init(queueSize)
      ensures size == queueSize && ch == buffer == [] && inflight == {} && !replay
      ensures !closed && !stopClosed && !doneClosed
      ensures lock.Free? && worker.Selecting? && inflightWG == 0
    {
      size := queueSize;
      lock, inflight, replay, buffer := Free, {}, false, [];
      closed, stopClosed, doneClosed, waitOver := false, false, false, false;
      ch, inflightWG, worker := [], 0, Selecting;
      waiting, readding, windows := multiset{}, multiset{}, [];
      sent, handled, discarded := [], [], [];
    }

    /** Enqueue up to its first unlock. */
    method EnqueueSection(inst: Instance) returns (r: EnqueueOutcome)
      requires Valid() && lock.Free?
      modifies this
      ensures Valid() && View() == Apply(old(View()), RunnerSteps.Enqueue(inst))
      ensures r == Answer(old(View()), inst)
      ensures r.ErrClosed? <==> old(closed)
      ensures r.ErrDuplicate? <==> !old(closed) && inst.dedupeKey in old(inflight)
      ensures r.Buffering? <==> !old(closed) && inst.dedupeKey !in old(inflight) && old(replay)
      ensures r.Queued? <==> !old(closed) && inst.dedupeKey !in old(inflight) && !old(replay) && |old(ch)| < size
      ensures r.Queued? ==> ch == old(ch) + [inst]
      ensures r.Buffering? ==> buffer == old(buffer) + [inst]
      ensures r.MustWait? ==> waiting == old(waiting) + multiset{inst}
      ensures r.ErrClosed? || r.ErrDuplicate? ==> View() == old(View())
    {
      assert View().Closed() == closed;
      hide AfterFlush, OriginOf, InPhase, WithArrival, ClosingOf;
      if closed {
        return ErrClosed;
      }
      if inst.dedupeKey in inflight {
        return ErrDuplicate;
      }
      if replay {
        buffer := buffer + [inst];
        windows := WithArrival(windows, inst);
        return Buffering;
      }
      ghost var reserved := inflight;
      inflight := inflight + {inst.dedupeKey};
      if |ch| < size {
        ch := ch + [inst];
        sent := sent + [Sent(inst, Fast)];
        return Queued;
      }
      inflight := inflight - {inst.dedupeKey};
      assert inflight == reserved;
      waiting := waiting + multiset{inst};
      return MustWait;
    }

    /** The waiting send of Enqueue goes through, without the lock. */
    method SlowSendStep(inst: Instance)
      requires Valid() && inst in waiting && |ch| < size
      modifies this
      ensures Valid() && View() == Apply(old(View()), SlowSend(inst))
      ensures ch == old(ch) + [inst] && inflight == old(inflight)
    {
      hide AfterFlush, OriginOf, InPhase, Buffered, ClosingOf;
      ghost var before := View();
      ch := ch + [inst];
      waiting := before.waiting - multiset{inst};
      readding := before.readding + multiset{inst};
      sent := sent + [Sent(inst, Slow)];
      assert View() == before.(waiting := waiting, readding := readding, ch := ch, sent := sent);
    }

    /** The waiting send gives up: after the timeout, or because `stop` closed. */
    method SlowGiveUpStep(inst: Instance, timedOut: bool) returns (err: WaitError)
      requires Valid() && inst in waiting && (timedOut || stopClosed)
      modifies this
      ensures Valid() && View() == Apply(old(View()), SlowGiveUp(inst))
      ensures err == if timedOut then ErrFull else ErrStopped
      ensures ch == old(ch) && inflight == old(inflight)
    {
      waiting := waiting - multiset{inst};
      return if timedOut then ErrFull else ErrStopped;
    }

    /** The receiver goes on up to the end of a handler, if it can. */
    method ReceiverMeanwhile() returns (ghost es: seq<Event>)
      requires Valid() && lock.Free?
      modifies this
      ensures Valid() && |es| <= 1 && forall e :: e in es ==> OfOthers(e)
      ensures CanRun(old(View()), es) && View() == Exec(old(View()), es)
    {
      hide AfterFlush, OriginOf, InPhase, Buffered, Apply;
      es := [];
      var turn: nat := *;
      if turn == 0 && worker.Selecting? && ch != [] {
        ReceiveStep();
        es := [Receive];
      } else if turn == 1 && worker.Received? {
        AdmitSection();
        es := [Admit];
      } else if turn == 2 && worker.Handling? {
        HandlerReturnsStep();
        es := [HandlerReturns];
      }
      if es != [] {
        OneStepRuns(old(View()), es[0]);
      }
    }

    /** The receiver finishes an instance, or ends, if it can. */
    method FinishMeanwhile() returns (ghost es: seq<Event>)
      requires Valid() && lock.Free?
      modifies this
      ensures Valid() && |es| <= 1 && forall e :: e in es ==> OfOthers(e)
      ensures CanRun(old(View()), es) && View() == Exec(old(View()), es)
    {
      hide AfterFlush, OriginOf, InPhase, Buffered, Apply;
      es := [];
      var turn: nat := *;
      if turn == 0 && worker.Finishing? {
        RemoveKeySection();
        es := [RemoveKey];
      } else if turn == 1 && worker.KeyRemoved? {
        WorkDoneStep();
        es := [WorkDone];
      } else if turn == 2 && worker.Selecting? && stopClosed {
        SeeStopStep();
        es := [SeeStop];
      }
      if es != [] {
        OneStepRuns(old(View()), es[0]);
      }
    }

    /** One step of a shutdown, if any is possible. */
    method ShutdownMeanwhile() returns (ghost es: seq<Event>)
      requires Valid() && lock.Free?
      modifies this
      ensures Valid() && |es| <= 1 && forall e :: e in es ==> OfOthers(e)
      ensures CanRun(old(View()), es) && View() == Exec(old(View()), es)
    {
      hide AfterFlush, OriginOf, InPhase, Buffered, Apply;
      es := [];
      var turn: nat := *;
      if turn == 0 && closed && !waitOver && inflightWG == 0 {
        WaitPassesStep();
        es := [WaitPasses];
      } else if turn == 1 && waitOver && !stopClosed {
        CloseStopStep();
        es := [CloseStop];
      } else if turn == 2 && stopClosed && !doneClosed {
        CloseDoneStep();
        es := [CloseDone];
      } else if turn == 3 {
        var first := ShutdownSection();
        es := [Shutdown];
      }
      if es != [] {
        OneStepRuns(old(View()), es[0]);
      }
    }

    /** While an Enqueue waits the receiver works on, and the runner may be shut
        down. */
    method Meanwhile() returns (ghost es: seq<Event>)
      requires Valid() && lock.Free?
      modifies this
      ensures Valid() && lock.Free? && waiting == old(waiting) && readding == old(readding)
      ensures forall e :: e in es ==> OfOthers(e)
      ensures CanRun(old(View()), es) && View() == Exec(old(View()), es)
    {
      es := [];
      assert CanRun(View(), es) && View() == Exec(View(), es);
      hide CanRun, Exec, Apply, Enabled, ClosingOf;
      var rounds: nat := *;
      while rounds > 0
        invariant Valid() && (forall e :: e in es ==> OfOthers(e))
        invariant CanRun(old(View()), es) && View() == Exec(old(View()), es)
        invariant lock.Free? && waiting == old(waiting) && readding == old(readding)
      {
        ghost var s, more := View(), [];
        var turn: nat := *;
        if turn == 0 {
          more := ReceiverMeanwhile();
        } else if turn == 1 {
          more := FinishMeanwhile();
        } else {
          more := ShutdownMeanwhile();
        }
        OthersKeepSenders(s, more);
        RunsCompose(old(View()), es, more);
        es, rounds := es + more, rounds - 1;
      }
    }

    /** Enqueue as a whole: the locked part, and when the channel is full the
        wait for space without the lock. */
    method Enqueue(inst: Instance) returns (r: EnqueueResult, ghost es: seq<Event>)
      requires Valid() && lock.Free?
      modifies this
      ensures Valid() && lock.Free? && EnqueueRun(old(View()), inst, es, r, View())
    {
      hide CanRun, Exec, Apply, ClosingOf;
      ghost var s := View();
      OneStepRuns(s, RunnerSteps.Enqueue(inst));
      EnqueueKeepsLock(s, inst);
      var answer := EnqueueSection(inst);
      es := [RunnerSteps.Enqueue(inst)];
      match answer
      case ErrClosed => r := SlotClosed;
      case ErrDuplicate => r := Duplicate;
      case Queued => r := Accepted;
      case Buffering => r := Accepted;
      case MustWait => r, es := AwaitSpace(inst, s, es);
    }

    /** The select of the slow path. */
    method AwaitSpace(inst: Instance, ghost s: State, ghost before: seq<Event>)
      returns (r: EnqueueResult, ghost es: seq<Event>)
      requires Valid() && lock.Free? && inst in waiting
      requires CanRun(s, before) && View() == Exec(s, before)
      requires before != [] && forall e :: e in before ==> !e.SlowSend?
      modifies this
      ensures Valid() && lock.Free? && before <= es && es != []
      ensures CanRun(s, es) && View() == Exec(s, es)
      ensures r == Accepted <==> SlowSend(inst) in es
      ensures r == Accepted ==> es[|es| - 1] == SlowReAdd(inst)
      ensures r != Accepted ==> es[|es| - 1] == SlowGiveUp(inst) && r in {QueueFull, SlotClosed}
    {
      hide CanRun, Exec, Apply, ClosingOf;
      ghost var more := Meanwhile();
      RunsCompose(s, before, more);
      es := before + more;
      var chosen: nat := *;
      if chosen == 0 && |ch| < size {
        ghost var t := View();
        SlowSendKeepsLock(t, inst);
        SlowSendStep(inst);
        RunsExtend(s, es, SlowSend(inst));
        es := es + [SlowSend(inst)];
        t := View();
        more := Meanwhile();
        RunsCompose(s, es, more);
        es := es + more;
        t := View();
        SlowEndKeepsLock(t, SlowReAdd(inst));
        SlowReAddSection(inst);
        RunsExtend(s, es, SlowReAdd(inst));
        return Accepted, es + [SlowReAdd(inst)];
      }
      var timedOut := chosen != 1 || !stopClosed;
      SlowEndKeepsLock(View(), SlowGiveUp(inst));
      RunsExtend(s, es, SlowGiveUp(inst));
      var err := SlowGiveUpStep(inst, timedOut);
      return if timedOut then QueueFull else SlotClosed, es + [SlowGiveUp(inst)];
    }

    method SlowReAddSection(inst: Instance)
      requires Valid() && lock.Free? && inst in readding
      modifies this
      ensures Valid() && View() == Apply(old(View()), SlowReAdd(inst))
      ensures inflight == old(inflight) + {inst.dedupeKey} && ch == old(ch)
    {
      inflight := inflight + {inst.dedupeKey};
      readding := readding - multiset{inst};
    }

    /** ReplayWrite up to the wait for space; the caller is `who`. */
    method ReplayWriteSection(who: Sender, inst: Instance) returns (sending: bool)
      requires Valid() && Enabled(View(), ReplayWrite(who, inst))
      modifies this
      ensures Valid() && View() == Apply(old(View()), ReplayWrite(who, inst))
      ensures sending == !closed
      ensures sending ==> lock == Sending(who, inst) && inflight == old(inflight) + {inst.dedupeKey}
      ensures !sending ==> View() == old(View())
    {
      if closed {
        return false;
      }
      SendLockedBegin(who, inst);
      return true;
    }

    /** sendLocked up to its select. */
    method SendLockedBegin(who: Sender, inst: Instance)
      requires Valid() && lock.Free?
      modifies this
      ensures Valid() && View() == old(View()).(lock := Sending(who, inst),
        inflight := old(inflight) + {inst.dedupeKey})
    {
      lock := Sending(who, inst);
      inflight := inflight + {inst.dedupeKey};
    }

    method SendLockedOk()
      requires Valid() && lock.Sending? && |ch| < size
      modifies this
      ensures Valid() && View() == Apply(old(View()), SendOk)
      ensures ch == old(ch) + [old(lock).inst] && lock.Free? && inflight == old(inflight)
    {
      ch := ch + [lock.inst];
      sent := sent + [Sent(lock.inst, OriginOf(lock.who))];
      windows := AfterFlush(windows, lock.who, 0);
      lock := Free;
    }

    method SendLockedTimeout()
      requires Valid() && lock.Sending?
      modifies this
      ensures Valid() && View() == Apply(old(View()), SendTimeout)
      ensures inflight == old(inflight) - {old(lock).inst.dedupeKey} && lock.Free? && ch == old(ch)
    {
      inflight := inflight - {lock.inst.dedupeKey};
      windows := AfterFlush(windows, lock.who, 1);
      lock := Free;
    }

    method BeginReplaySection() returns (ok: bool)
      requires Valid() && lock.Free?
      modifies this
      ensures Valid() && View() == Apply(old(View()), BeginReplay)
      ensures ok == !(old(closed) || old(replay))
      ensures ok ==> replay && buffer == []
      ensures !ok ==> View() == old(View())
    {
      if closed || replay {
        return false;
      }
      replay := true;
      buffer := [];
      windows := windows + [Window(Replaying, [], 0)];
      return true;
    }

    /** EndReplay up to its first unlock: the buffer becomes the flush. */
    method EndReplaySection(ghost w: nat) returns (flush: seq<Instance>)
      requires Valid() && lock.Free? && InPhase(View(), w, true)
      modifies this
      ensures Valid() && View() == Apply(old(View()), EndReplay(w))
      ensures flush == old(buffer) && View().windows[w].phase == Flushing(flush)
      ensures !replay && buffer == []
    {
      flush := buffer;
      replay := false;
      buffer := [];
      windows := windows[w := windows[w].(phase := Flushing(flush))];
    }

    /** One round of the flush loop of EndReplay, up to the wait for space. */
    method FlushSection(w: nat, inst: Instance)
      requires Valid() && Enabled(View(), FlushNext(w)) && inst == View().windows[w].phase.rest[0]
      modifies this
      ensures Valid() && View() == Apply(old(View()), FlushNext(w))
      ensures lock == Sending(Flusher(w), inst) && inflight == old(inflight) + {inst.dedupeKey}
    {
      SendLockedBegin(Flusher(w), inst);
    }

    method ReceiveStep()
      requires Valid() && worker.Selecting? && ch != []
      modifies this
      ensures Valid() && View() == Apply(old(View()), Receive)
      ensures worker == Received(old(ch)[0]) && ch == old(ch)[1..]
    {
      worker := Received(ch[0]);
      ch := ch[1..];
    }

    /** The locked section of `run`: refuse when closed, else count the work. */
    method AdmitSection()
      requires Valid() && worker.Received? && lock.Free?
      modifies this
      ensures Valid() && View() == Apply(old(View()), Admit)
      ensures old(closed) ==> worker.Exited? && inflightWG == old(inflightWG)
      ensures !old(closed) ==> worker == Handling(old(worker).inst) && inflightWG == old(inflightWG) + 1
    {
      var inst := worker.inst;
      if closed {
        discarded := discarded + [inst];
        worker := Exited;
        return;
      }
      inflightWG := inflightWG + 1;
      worker := Handling(inst);
    }

    method HandlerReturnsStep()
      requires Valid() && worker.Handling?
      modifies this
      ensures Valid() && View() == Apply(old(View()), HandlerReturns)
      ensures worker == Finishing(old(worker).inst)
    {
      worker := Finishing(worker.inst);
    }

    method RemoveKeySection()
      requires Valid() && worker.Finishing? && lock.Free?
      modifies this
      ensures Valid() && View() == Apply(old(View()), RemoveKey)
      ensures worker == KeyRemoved(old(worker).inst) && inflight == old(inflight) - {old(worker).inst.dedupeKey}
    {
      inflight := inflight - {worker.inst.dedupeKey};
      worker := KeyRemoved(worker.inst);
    }

    method WorkDoneStep()
      requires Valid() && worker.KeyRemoved?
      modifies this
      ensures Valid() && View() == Apply(old(View()), WorkDone)
      ensures worker.Selecting? && inflightWG == old(inflightWG) - 1 && handled == old(handled) + [old(worker).inst]
    {
      inflightWG := inflightWG - 1;
      handled := handled + [worker.inst];
      worker := Selecting;
    }

    /** `run` finds `stop` closed in its select. */
    method SeeStopStep()
      requires Valid() && worker.Selecting? && stopClosed
      modifies this
      ensures Valid() && View() == Apply(old(View()), SeeStop)
      ensures worker.Exited?
    {
      worker := Exited;
    }

    /** Shutdown up to its unlock; only the first caller goes on to wait. */
    method ShutdownSection() returns (first: bool)
      requires Valid() && lock.Free?
      modifies this
      ensures Valid() && View() == Apply(old(View()), Shutdown)
      ensures first == !old(closed)
      ensures closed && stopClosed == old(stopClosed) && doneClosed == old(doneClosed)
    {
      if closed {
        return false;
      }
      closed := true;
      return true;
    }

    /** `inflightWG.Wait()` returns. */
    method WaitPassesStep()
      requires Valid() && View().closing.Waiting? && inflightWG == 0
      modifies this
      ensures Valid() && View() == Apply(old(View()), WaitPasses)
    {
      waitOver := true;
    }

    method CloseStopStep()
      requires Valid() && View().closing.Drained?
      modifies this
      ensures Valid() && View() == Apply(old(View()), CloseStop)
      ensures stopClosed && doneClosed == old(doneClosed)
    {
      stopClosed := true;
    }

    method CloseDoneStep()
      requires Valid() && View().closing.Stopped?
      modifies this
      ensures Valid() && View() == Apply(old(View()), CloseDone)
      ensures stopClosed && doneClosed
    {
      doneClosed := true;
    }
  }
}
