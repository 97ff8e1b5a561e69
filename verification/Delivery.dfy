/** The pipeline and the runners as one system: a hand-off of the dispatcher is
    one step with the runner step that takes the instance. What is handed off at
    most once is executed at most once. */
module Delivery {
  import opened Model
  import P = Pipeline
  import R = RunnerSteps

  /** The instance the dispatcher offers to runner `k` while its Enqueue waits
      for space. */
  datatype Offer = Offer(k: nat, inst: Instance)

  /** `made[a]` is the instance of hand-off `a`; `used` are the ids drawn. */
  datatype State = State(
    pipe: P.State,
    runners: seq<R.State>,
    offer: Option<Offer>,
    made: seq<Instance>,
    used: set<string>)

  function Init(capacity: int, limit: int): State {
    State(P.Init(capacity, limit), [], None, [], {})
  }

  datatype Event =
    | StartRunner(size: nat)
    | PipeStep(e: P.Event)
    | RunnerStep(k: nat, step: R.Event)
    | OfferTo(k: nat, id: string)
    | OfferSent
    | OfferGivenUp

  /** Whatever a runner does besides taking instances; nothing is replayed. */
  predicate OwnStep(e: R.Event) {
    !e.Enqueue? && !e.SlowSend? && !e.SlowGiveUp? && !e.ReplayWrite?
  }

  /** A hand-off happens only as an offer. While one waits, the dispatcher does
      nothing else, but publishers and runners go on. */
  ghost predicate Enabled(s: State, e: Event) {
    match e
    case StartRunner(size) => size >= 1
    case PipeStep(e) =>
      P.Enabled(s.pipe, e) && e != P.Attempt(P.Taken) && (s.offer.Some? ==> e.Append? || e.FinishPublish?)
    case RunnerStep(k, step) => k < |s.runners| && OwnStep(step) && R.Enabled(s.runners[k], step)
    case OfferTo(k, id) =>
      && s.offer.None? && k < |s.runners| && s.runners[k].lock.Free? && id !in s.used
      && P.Enabled(s.pipe, P.Attempt(P.Taken))
    case OfferSent =>
      && s.offer.Some? && s.offer.value.k < |s.runners|
      && R.Enabled(s.runners[s.offer.value.k], R.SlowSend(s.offer.value.inst))
      && P.Enabled(s.pipe, P.Attempt(P.Taken))
    case OfferGivenUp =>
      && s.offer.Some? && s.offer.value.k < |s.runners|
      && R.Enabled(s.runners[s.offer.value.k], R.SlowGiveUp(s.offer.value.inst))
      && P.Enabled(s.pipe, P.Attempt(P.Refused))
  }

  /** The instance a hand-off creates for the task at the head of the batch. */
  function NewInstance(s: State, id: string): Instance
    requires s.pipe.phase.Scanning? && s.pipe.phase.batch != []
  {
    var task := s.pipe.phase.batch[0];
    Instance(id, task.id, task.dedupeKey)
  }

  /** Runner `k` makes a step, and the attempt in progress ends. */
  function Answered(s: State, k: nat, step: R.Event, outcome: P.Outcome): State
    requires k < |s.runners| && R.Enabled(s.runners[k], step) && P.Enabled(s.pipe, P.Attempt(outcome))
  {
    s.(pipe := P.Apply(s.pipe, P.Attempt(outcome)),
       runners := s.runners[k := R.Apply(s.runners[k], step)], offer := None)
  }

  function Apply(s: State, e: Event): State
    requires Enabled(s, e)
  {
    match e
    case StartRunner(size) => s.(runners := s.runners + [R.Init(size)])
    case PipeStep(e) => s.(pipe := P.Apply(s.pipe, e))
    case RunnerStep(k, step) => s.(runners := s.runners[k := R.Apply(s.runners[k], step)])
    case OfferTo(k, id) =>
      var inst, r, drawn := NewInstance(s, id), s.runners[k], s.(used := s.used + {id});
      if r.Closed() || inst.dedupeKey in r.inflight then Answered(drawn, k, R.Enqueue(inst), P.Refused)
      else if r.replay || r.HasSpace() then
        Answered(drawn, k, R.Enqueue(inst), P.Taken).(made := s.made + [inst])
      else drawn.(runners := s.runners[k := R.Apply(r, R.Enqueue(inst))], offer := Some(Offer(k, inst)))
    case OfferSent =>
      var Offer(k, inst) := s.offer.value;
      Answered(s, k, R.SlowSend(inst), P.Taken).(made := s.made + [inst])
    case OfferGivenUp =>
      var Offer(k, inst) := s.offer.value;
      Answered(s, k, R.SlowGiveUp(inst), P.Refused)
  }

  ghost predicate CanRun(s: State, es: seq<Event>)
    decreases |es|
  {
    es == [] || (Enabled(s, es[0]) && CanRun(Apply(s, es[0]), es[1..]))
  }

  ghost function Exec(s: State, es: seq<Event>): State
    requires CanRun(s, es)
    decreases |es|
  {
    if es == [] then s else Exec(Apply(s, es[0]), es[1..])
  }

  // ---------- What a runner has taken ----------

  /** What the handler was called with, in order. */
  function Executions(r: R.State): seq<Instance> {
    r.handled + if r.worker.Busy() then [r.worker.inst] else []
  }

  lemma PartsCount(a: seq<Instance>, b: seq<Instance>, i: Instance)
    ensures R.Times(a, i) <= R.Times(a + b, i)
  {
  }

  lemma ExecutionsWereSent(r: R.State, i: Instance)
    requires R.Fifo(r)
    ensures R.Times(Executions(r), i) <= R.TimesSent(r.sent, i)
  {
    hide R.Insts, R.Times;
    var more := (if r.worker.Busy() then [] else r.worker.InHand()) + r.discarded + r.ch;
    assert R.Insts(r.sent) == Executions(r) + more;
    PartsCount(Executions(r), more, i);
  }

  /** Every execution was accepted and neither given up nor still waits. */
  lemma ExecutionsWereAccepted(size: nat, es: seq<R.Event>, i: Instance)
    requires R.CanRun(R.Init(size), es)
    ensures var r := R.Exec(R.Init(size), es);
      R.Times(Executions(r), i) + r.waiting[i] + R.GivenUp(R.Init(size), es, i) <= R.Accepted(R.Init(size), es, i)
  {
    NewRunnerHasInv(size);
    hide R.Insts, R.Times, R.TimesSent, R.TimesInWindows, R.TimesInLock, R.Apply, R.Init;
    R.RunKeepsInv(R.Init(size), es);
    R.AcceptedIsConserved(size, es, i);
    ExecutionsWereSent(R.Exec(R.Init(size), es), i);
  }

  /** How often the runner took `i` for good: sent, or buffered and not lost. */
  function Took(r: R.State, i: Instance): nat {
    R.TimesSent(r.sent, i) + R.TimesInWindows(r.windows, i) + R.TimesInLock(r.lock, i)
  }

  lemma TookIsAccount(r: R.State, i: Instance)
    ensures R.Account(r, i) == Took(r, i) + r.waiting[i]
  {
  }

  lemma OwnStepsLeaveWaiting(r: R.State, e: R.Event)
    requires R.Enabled(r, e) && OwnStep(e)
    ensures R.Apply(r, e).waiting == r.waiting
  {
  }

  lemma OwnStepTakesNothing(r: R.State, e: R.Event, i: Instance)
    requires R.Inv(r) && R.Enabled(r, e) && OwnStep(e)
    ensures Took(R.Apply(r, e), i) <= Took(r, i)
  {
    R.StepBalances(r, e, i);
    OwnStepsLeaveWaiting(r, e);
    hide R.Apply, R.Enabled, R.Account, Took, R.GivesUp;
    TookIsAccount(r, i);
    TookIsAccount(R.Apply(r, e), i);
  }

  lemma EnqueueTakes(r: R.State, x: Instance, i: Instance)
    requires R.Inv(r) && R.Enabled(r, R.Enqueue(x))
    ensures var t := R.Apply(r, R.Enqueue(x));
      var taken := !r.Closed() && x.dedupeKey !in r.inflight && (r.replay || r.HasSpace());
      Took(t, i) == Took(r, i) + if taken then R.One(x, i) else 0
  {
    var t := R.Apply(r, R.Enqueue(x));
    R.StepBalances(r, R.Enqueue(x), i);
    assert (r.waiting + multiset{x})[i] == r.waiting[i] + R.One(x, i);
    assert t.waiting == r.waiting || t.waiting == r.waiting + multiset{x};
    TookIsAccount(r, i);
    TookIsAccount(t, i);
    hide Took, R.Account, R.Inv;
  }

  lemma SlowEndLeavesQueue(r: R.State, e: R.Event, i: Instance)
    requires R.Enabled(r, e) && (e.SlowSend? || e.SlowGiveUp?)
    ensures R.Apply(r, e).waiting[i] + R.One(e.inst, i) == r.waiting[i]
  {
    assert (r.waiting - multiset{e.inst})[i] + R.One(e.inst, i) == r.waiting[i];
  }

  lemma SlowEndTakes(r: R.State, e: R.Event, i: Instance)
    requires R.Inv(r) && R.Enabled(r, e) && (e.SlowSend? || e.SlowGiveUp?)
    ensures Took(R.Apply(r, e), i) == Took(r, i) + if e.SlowSend? then R.One(e.inst, i) else 0
  {
    R.StepBalances(r, e, i);
    SlowEndLeavesQueue(r, e, i);
    hide R.Apply, R.Enabled, Took, R.Account, R.Inv, R.One;
    TookIsAccount(r, i);
    TookIsAccount(R.Apply(r, e), i);
  }

  // ---------- All runners together ----------

  function TotalTook(rs: seq<R.State>, i: Instance): nat {
    if rs == [] then 0 else TotalTook(rs[..|rs| - 1], i) + Took(rs[|rs| - 1], i)
  }

  lemma {:induction false} OneRunnerChanges(rs: seq<R.State>, k: nat, r: R.State, i: Instance)
    requires k < |rs|
    ensures TotalTook(rs[k := r], i) + Took(rs[k], i) == TotalTook(rs, i) + Took(r, i)
  {
    hide Took;
    var n := |rs| - 1;
    if k == n {
      assert rs[k := r][..n] == rs[..n];
    } else {
      assert rs[k := r][..n] == rs[..n][k := r];
      OneRunnerChanges(rs[..n], k, r, i);
    }
  }

  lemma OneRunnerStarts(rs: seq<R.State>, size: nat, i: Instance)
    ensures TotalTook(rs + [R.Init(size)], i) == TotalTook(rs, i)
  {
    assert (rs + [R.Init(size)])[..|rs|] == rs;
  }

  /** Whatever the runners took was made for a hand-off. */
  ghost predicate AllMade(rs: seq<R.State>, made: seq<Instance>) {
    && (forall k :: 0 <= k < |rs| ==> R.Inv(rs[k]))
    && (forall i :: TotalTook(rs, i) <= R.Times(made, i))
  }

  /** No instance was made with the id of `x`, and none will be. */
  ghost predicate IsNew(x: Instance, made: seq<Instance>, used: set<string>) {
    x.id in used && forall a :: 0 <= a < |made| ==> made[a].id != x.id
  }

  /** Hand-off `a` made an instance of its task, with an id of its own. */
  ghost predicate MadeFor(handed: seq<Task>, made: seq<Instance>, offer: Option<Offer>, used: set<string>) {
    && |made| == |handed|
    && (forall a :: 0 <= a < |made| ==> made[a].taskId == handed[a].id && made[a].dedupeKey == handed[a].dedupeKey)
    && (forall a, b :: 0 <= a < b < |made| ==> made[a].id != made[b].id)
    && (forall a :: 0 <= a < |made| ==> made[a].id in used)
    && (offer.Some? ==> IsNew(offer.value.inst, made, used))
  }

  /** A waiting offer is one of the task the dispatcher is at. */
  ghost predicate OfferOk(s: State) {
    s.offer.Some? ==>
      && s.pipe.phase.Scanning? && s.pipe.phase.batch != []
      && s.offer.value.inst.taskId == s.pipe.phase.batch[0].id
      && s.offer.value.inst.dedupeKey == s.pipe.phase.batch[0].dedupeKey
  }

  ghost predicate Inv(s: State) {
    P.Reachable(s.pipe) && AllMade(s.runners, s.made) && MadeFor(s.pipe.handed, s.made, s.offer, s.used) && OfferOk(s)
  }

  lemma RunnerChangeKeepsMade(rs: seq<R.State>, k: nat, r: R.State, made: seq<Instance>)
    requires AllMade(rs, made) && k < |rs| && R.Inv(r)
    requires forall i :: Took(r, i) <= Took(rs[k], i)
    ensures AllMade(rs[k := r], made)
  {
    hide R.Inv, Took, R.Times;
    forall i ensures TotalTook(rs[k := r], i) <= R.Times(made, i) {
      OneRunnerChanges(rs, k, r, i);
    }
  }

  lemma RunnerTakesMade(rs: seq<R.State>, k: nat, r: R.State, made: seq<Instance>, x: Instance)
    requires AllMade(rs, made) && k < |rs| && R.Inv(r)
    requires forall i :: Took(r, i) == Took(rs[k], i) + R.One(x, i)
    ensures AllMade(rs[k := r], made + [x])
  {
    hide R.Inv, Took;
    forall i ensures TotalTook(rs[k := r], i) <= R.Times(made + [x], i) {
      OneRunnerChanges(rs, k, r, i);
    }
  }

  /** Only an attempt that is taken adds a hand-off. */
  lemma PipeKeepsHanded(p: P.State, e: P.Event)
    requires P.Enabled(p, e)
    ensures P.Apply(p, e).handed == if e == P.Attempt(P.Taken) then p.handed + [p.phase.batch[0]] else p.handed
    ensures e.Append? || e.FinishPublish? ==> P.Apply(p, e).phase == p.phase
  {
  }

  lemma PipeStepKeepsInv(s: State, e: P.Event)
    requires Inv(s) && Enabled(s, PipeStep(e))
    ensures Inv(Apply(s, PipeStep(e)))
  {
    P.ReachableStep(s.pipe, e);
    PipeKeepsHanded(s.pipe, e);
    hide P.Reachable, P.Enabled, P.Apply, AllMade, MadeFor;
  }

  lemma RunnerStepKeepsInv(s: State, e: Event)
    requires Inv(s) && Enabled(s, e) && (e.RunnerStep? || e.StartRunner?)
    ensures Inv(Apply(s, e))
  {
    hide P.Reachable, MadeFor, Took, R.Inv, R.Apply, R.Enabled, R.Times, R.Init;
    match e
    case StartRunner(size) =>
      NewRunnerHasInv(size);
      forall i ensures TotalTook(s.runners + [R.Init(size)], i) <= R.Times(s.made, i) {
        OneRunnerStarts(s.runners, size, i);
      }
    case RunnerStep(k, step) =>
      var r := s.runners[k];
      R.StepKeepsInv(r, step);
      forall i ensures Took(R.Apply(r, step), i) <= Took(r, i) {
        OwnStepTakesNothing(r, step, i);
      }
      RunnerChangeKeepsMade(s.runners, k, R.Apply(r, step), s.made);
  }

  lemma NewRunnerHasInv(size: nat)
    ensures R.Inv(R.Init(size))
  {
  }

  lemma HandOffIsMadeFor(handed: seq<Task>, made: seq<Instance>, used: set<string>, task: Task, x: Instance)
    requires MadeFor(handed, made, None, used) && IsNew(x, made, used)
    requires x.taskId == task.id && x.dedupeKey == task.dedupeKey
    ensures MadeFor(handed + [task], made + [x], None, used)
  {
  }

  /** The runner's part of an answer. */
  lemma AnswerKeepsMade(s: State, k: nat, step: R.Event, taken: bool, x: Instance)
    requires AllMade(s.runners, s.made) && k < |s.runners| && R.Enabled(s.runners[k], step)
    requires forall i ::
      Took(R.Apply(s.runners[k], step), i) == Took(s.runners[k], i) + if taken then R.One(x, i) else 0
    ensures AllMade(s.runners[k := R.Apply(s.runners[k], step)], if taken then s.made + [x] else s.made)
  {
    hide Took, R.Inv, R.Apply, R.Enabled, R.Times, TotalTook, R.One;
    var r := R.Apply(s.runners[k], step);
    assert R.Inv(s.runners[k]);
    R.StepKeepsInv(s.runners[k], step);
    hide AllMade;
    if taken {
      RunnerTakesMade(s.runners, k, r, s.made, x);
    } else {
      RunnerChangeKeepsMade(s.runners, k, r, s.made);
    }
  }

  /** An attempt ends as the runner answered. */
  lemma AnsweredKeepsInv(s: State, k: nat, step: R.Event, outcome: P.Outcome, x: Instance, t: State)
    requires P.Reachable(s.pipe) && AllMade(s.runners, s.made) && MadeFor(s.pipe.handed, s.made, None, s.used)
    requires k < |s.runners| && R.Enabled(s.runners[k], step) && P.Enabled(s.pipe, P.Attempt(outcome))
    requires IsNew(x, s.made, s.used)
    requires x.taskId == s.pipe.phase.batch[0].id && x.dedupeKey == s.pipe.phase.batch[0].dedupeKey
    requires forall i ::
      Took(R.Apply(s.runners[k], step), i) == Took(s.runners[k], i) + if outcome.Taken? then R.One(x, i) else 0
    requires t == if outcome.Taken? then Answered(s, k, step, outcome).(made := s.made + [x])
                  else Answered(s, k, step, outcome)
    ensures Inv(t)
  {
    hide Took, R.Apply, R.Enabled, P.Reachable, AllMade, MadeFor, IsNew, R.One;
    P.ReachableStep(s.pipe, P.Attempt(outcome));
    PipeKeepsHanded(s.pipe, P.Attempt(outcome));
    AnswerKeepsMade(s, k, step, outcome.Taken?, x);
    hide P.Apply;
    if outcome.Taken? {
      HandOffIsMadeFor(s.pipe.handed, s.made, s.used, s.pipe.phase.batch[0], x);
    }
  }

  lemma RunnerHasInv(s: State, k: nat)
    requires AllMade(s.runners, s.made) && k < |s.runners|
    ensures R.Inv(s.runners[k])
  {
    hide R.Inv, TotalTook, R.Times;
  }

  lemma DrawnIsNew(handed: seq<Task>, made: seq<Instance>, used: set<string>, x: Instance)
    requires MadeFor(handed, made, None, used) && x.id !in used
    ensures MadeFor(handed, made, None, used + {x.id}) && IsNew(x, made, used + {x.id})
    ensures forall k :: MadeFor(handed, made, Some(Offer(k, x)), used + {x.id})
  {
  }

  lemma OfferKeepsInv(s: State, k: nat, id: string)
    requires Inv(s) && Enabled(s, OfferTo(k, id))
    ensures Inv(Apply(s, OfferTo(k, id)))
  {
    hide Took, P.Reachable, P.Apply, R.Inv, R.Apply, AllMade, MadeFor, IsNew, R.One;
    var r, x, drawn, t := s.runners[k], NewInstance(s, id), s.(used := s.used + {id}), Apply(s, OfferTo(k, id));
    RunnerHasInv(s, k);
    DrawnIsNew(s.pipe.handed, s.made, s.used, x);
    forall i ensures Took(R.Apply(r, R.Enqueue(x)), i) == Took(r, i)
      + if !r.Closed() && x.dedupeKey !in r.inflight && (r.replay || r.HasSpace()) then R.One(x, i) else 0
    {
      EnqueueTakes(r, x, i);
    }
    if r.Closed() || x.dedupeKey in r.inflight {
      AnsweredKeepsInv(drawn, k, R.Enqueue(x), P.Refused, x, t);
    } else if r.replay || r.HasSpace() {
      AnsweredKeepsInv(drawn, k, R.Enqueue(x), P.Taken, x, t);
    } else {
      AnswerKeepsMade(s, k, R.Enqueue(x), false, x);
    }
  }

  lemma OfferIsNew(s: State)
    requires MadeFor(s.pipe.handed, s.made, s.offer, s.used) && s.offer.Some?
    ensures MadeFor(s.pipe.handed, s.made, None, s.used) && IsNew(s.offer.value.inst, s.made, s.used)
  {
  }

  lemma OfferSentKeepsInv(s: State)
    requires Inv(s) && Enabled(s, OfferSent)
    ensures Inv(Apply(s, OfferSent))
  {
    var Offer(k, x) := s.offer.value;
    hide Took, P.Reachable, P.Apply, R.Inv, R.Apply, AllMade, MadeFor, IsNew, R.One;
    RunnerHasInv(s, k);
    OfferIsNew(s);
    forall i ensures Took(R.Apply(s.runners[k], R.SlowSend(x)), i) == Took(s.runners[k], i) + R.One(x, i) {
      SlowEndTakes(s.runners[k], R.SlowSend(x), i);
    }
    hide R.Enabled;
    AnsweredKeepsInv(s, k, R.SlowSend(x), P.Taken, x, Apply(s, OfferSent));
  }

  lemma OfferGivenUpKeepsInv(s: State)
    requires Inv(s) && Enabled(s, OfferGivenUp)
    ensures Inv(Apply(s, OfferGivenUp))
  {
    var Offer(k, x) := s.offer.value;
    hide Took, P.Reachable, P.Apply, R.Inv, R.Apply, AllMade, MadeFor, IsNew, R.One;
    RunnerHasInv(s, k);
    OfferIsNew(s);
    forall i ensures Took(R.Apply(s.runners[k], R.SlowGiveUp(x)), i) == Took(s.runners[k], i) {
      SlowEndTakes(s.runners[k], R.SlowGiveUp(x), i);
    }
    hide R.Enabled;
    AnsweredKeepsInv(s, k, R.SlowGiveUp(x), P.Refused, x, Apply(s, OfferGivenUp));
  }

  lemma StepKeepsInv(s: State, e: Event)
    requires Inv(s) && Enabled(s, e)
    ensures Inv(Apply(s, e))
  {
    hide Inv, Apply, Enabled;
    match e
    case StartRunner(_) => RunnerStepKeepsInv(s, e);
    case RunnerStep(_, _) => RunnerStepKeepsInv(s, e);
    case PipeStep(e) => PipeStepKeepsInv(s, e);
    case OfferTo(k, id) => OfferKeepsInv(s, k, id);
    case OfferSent => OfferSentKeepsInv(s);
    case OfferGivenUp => OfferGivenUpKeepsInv(s);
  }

  lemma {:induction false} RunKeepsInv(s: State, es: seq<Event>)
    requires Inv(s) && CanRun(s, es)
    ensures Inv(Exec(s, es))
    decreases |es|
  {
    hide Inv, Apply, Enabled;
    if es != [] {
      StepKeepsInv(s, es[0]);
      RunKeepsInv(Apply(s, es[0]), es[1..]);
    }
  }

  ghost predicate Reachable(s: State) {
    exists capacity, limit, es :: CanRun(Init(capacity, limit), es) && Exec(Init(capacity, limit), es) == s
  }

  lemma ReachableHasInv(s: State)
    requires Reachable(s)
    ensures Inv(s)
  {
    var capacity, limit, es :| CanRun(Init(capacity, limit), es) && Exec(Init(capacity, limit), es) == s;
    InitHasInv(capacity, limit);
    RunKeepsInv(Init(capacity, limit), es);
  }

  lemma InitHasInv(capacity: int, limit: int)
    ensures Inv(Init(capacity, limit))
  {
    assert P.CanRun(P.Init(capacity, limit), []) && P.Exec(P.Init(capacity, limit), []) == P.Init(capacity, limit);
    assert P.Reachable(P.Init(capacity, limit));
  }

  // ---------- At most once ----------

  /** Place `n` of runner `k`. */
  predicate IsExecution(rs: seq<R.State>, k: nat, n: nat) {
    k < |rs| && n < |Executions(rs[k])|
  }

  lemma {:induction false} RunnerCounts(rs: seq<R.State>, k: nat, i: Instance)
    requires k < |rs| && R.Inv(rs[k])
    ensures TotalTook(rs, i) >= R.Times(Executions(rs[k]), i)
  {
    hide R.Times, Executions, R.Inv;
    if k == |rs| - 1 {
      hide R.TimesSent, R.TimesInWindows;
      FifoOf(rs[k]);
      ExecutionsWereSent(rs[k], i);
    } else {
      RunnerCounts(rs[..|rs| - 1], k, i);
    }
  }

  lemma FifoOf(r: R.State)
    requires R.Inv(r)
    ensures R.Fifo(r)
  {
  }

  lemma {:induction false} TwoRunnersCount(rs: seq<R.State>, k: nat, l: nat, i: Instance)
    requires k < l < |rs| && R.Inv(rs[k]) && R.Inv(rs[l])
    ensures TotalTook(rs, i) >= R.Times(Executions(rs[k]), i) + R.Times(Executions(rs[l]), i)
  {
    hide R.Times, Executions, R.Inv;
    var n := |rs| - 1;
    if l == n {
      hide R.TimesSent, R.TimesInWindows;
      RunnerCounts(rs[..n], k, i);
      FifoOf(rs[l]);
      ExecutionsWereSent(rs[l], i);
    } else {
      TwoRunnersCount(rs[..n], k, l, i);
    }
  }

  lemma InstanceTwice(list: seq<Instance>, n: nat, m: nat)
    requires n < m < |list| && list[n] == list[m]
    ensures R.Times(list, list[n]) >= 2
  {
    var a, b := list[..m], list[m..];
    assert list == a + b && a[n] in a && b[0] in b;
  }

  lemma {:induction false} DistinctOnce(made: seq<Instance>, i: Instance)
    requires forall a, b :: 0 <= a < b < |made| ==> made[a].id != made[b].id
    ensures R.Times(made, i) <= 1
    ensures R.Times(made, i) == 1 ==> i in made
  {
    if made != [] {
      var n := |made| - 1;
      assert made == made[..n] + [made[n]];
      DistinctOnce(made[..n], i);
      assert made[n] !in made[..n];
    }
  }

  /** What was taken at all was taken once, for one hand-off. */
  lemma TakenOnce(s: State, i: Instance) returns (a: nat)
    requires Inv(s) && TotalTook(s.runners, i) >= 1
    ensures TotalTook(s.runners, i) <= 1
    ensures a < |s.pipe.handed| == |s.made| && s.made[a] == i && i.taskId == s.pipe.handed[a].id
  {
    hide R.Inv, P.Reachable, OfferOk, TotalTook, R.Times;
    assert TotalTook(s.runners, i) <= R.Times(s.made, i);
    hide AllMade;
    DistinctOnce(s.made, i);
    a :| 0 <= a < |s.made| && s.made[a] == i;
  }

  lemma ExecutionWasTaken(s: State, k: nat, n: nat)
    requires Inv(s) && IsExecution(s.runners, k, n)
    ensures TotalTook(s.runners, Executions(s.runners[k])[n]) >= 1
  {
    var list := Executions(s.runners[k]);
    assert list[n] in multiset(list);
    assert R.Times(list, list[n]) >= 1;
    hide R.Times, Executions, TotalTook;
    RunnerHasInv(s, k);
    RunnerCounts(s.runners, k, list[n]);
  }

  lemma DifferentPlaces(s: State, k: nat, n: nat, l: nat, m: nat)
    requires Inv(s) && IsExecution(s.runners, k, n) && IsExecution(s.runners, l, m)
    requires k < l || (k == l && n < m)
    requires TotalTook(s.runners, Executions(s.runners[k])[n]) <= 1
    ensures Executions(s.runners[k])[n] != Executions(s.runners[l])[m]
  {
    hide R.Inv, P.Reachable, Executions, TotalTook, MadeFor, OfferOk;
    RunnerHasInv(s, k);
    RunnerHasInv(s, l);
    hide AllMade;
    var list, other := Executions(s.runners[k]), Executions(s.runners[l]);
    if list[n] == other[m] {
      if k == l {
        InstanceTwice(list, n, m);
        RunnerCounts(s.runners, k, list[n]);
      } else {
        assert list[n] in multiset(list) && other[m] in multiset(other);
        TwoRunnersCount(s.runners, k, l, list[n]);
      }
    }
  }

  /** End to end, at most once: in every interleaving of publishers, dispatcher
      and runners, two different executions, at one runner or at two, are of
      tasks with different sequences. */
  lemma ExecutedAtMostOnce(s: State, k: nat, n: nat, l: nat, m: nat) returns (a: nat, b: nat)
    requires Reachable(s) && IsExecution(s.runners, k, n) && IsExecution(s.runners, l, m) && (k, n) != (l, m)
    ensures a < |s.pipe.handed| && Executions(s.runners[k])[n].taskId == s.pipe.handed[a].id
    ensures b < |s.pipe.handed| && Executions(s.runners[l])[m].taskId == s.pipe.handed[b].id
    ensures s.pipe.handed[a].sequence != s.pipe.handed[b].sequence
  {
    ReachableHasInv(s);
    hide Reachable, Inv, Executions, TotalTook;
    ExecutionWasTaken(s, k, n);
    a := TakenOnce(s, Executions(s.runners[k])[n]);
    ExecutionWasTaken(s, l, m);
    b := TakenOnce(s, Executions(s.runners[l])[m]);
    if k < l || (k == l && n < m) {
      DifferentPlaces(s, k, n, l, m);
    } else {
      DifferentPlaces(s, l, m, k, n);
    }
    HandOffsDiffer(s, a, b);
  }

  lemma HandOffsDiffer(s: State, a: nat, b: nat)
    requires Inv(s) && a < |s.pipe.handed| && b < |s.pipe.handed| && a != b
    ensures s.pipe.handed[a].sequence != s.pipe.handed[b].sequence
  {
    hide P.Reachable, AllMade, MadeFor, OfferOk;
    if a < b {
      P.HandedOffAtMostOnce(s.pipe, a, b);
    } else {
      P.HandedOffAtMostOnce(s.pipe, b, a);
    }
  }
}
