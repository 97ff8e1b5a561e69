/** One executor's runner as a system of atomic steps.

    Each critical section of the source is one step. The exception is
    `sendLocked`, which keeps the lock while it waits for space: there the lock
    has a holder, and taking it and sending (or timing out) are separate steps.
    `time.After` is a timeout that may happen at any moment. */
module RunnerSteps {
  import opened Model

  /** How an instance came into the channel. */
  datatype Origin = Fast | Slow | Replayed(w: nat) | Flushed(w: nat) | Direct

  datatype Sent = Sent(inst: Instance, origin: Origin)

  /** Who is inside `sendLocked`: the work of replay window `w`, the flush that
      ends window `w`, or a caller of ReplayWrite outside any window. */
  datatype Sender = InWindow(w: nat) | Flusher(w: nat) | Outside

  datatype Lock = Free | Sending(who: Sender, inst: Instance)

  /** Where the goroutine `run` stands; the instance is the one in its hand. */
  datatype Worker =
    | Selecting
    | Received(inst: Instance)
    | Handling(inst: Instance)
    | Finishing(inst: Instance)
    | KeyRemoved(inst: Instance)
    | Exited
  {
    /** Between `inflightWG.Add(1)` and `Done`. */
    predicate Busy() {
      Handling? || Finishing? || KeyRemoved?
    }

    function InHand(): seq<Instance> {
      if Selecting? || Exited? then [] else [inst]
    }
  }

  /** How far Shutdown has come: `closed` set, the wait over, `stop` closed,
      `done` closed. */
  datatype Closing = Open | Waiting | Drained | Stopped | Released

  datatype Phase = Replaying | Flushing(rest: seq<Instance>)

  /** A replay window with what Enqueue buffered during it, in arrival order,
      and how many of those the flush gave up on. */
  datatype Window = Window(phase: Phase, arrivals: seq<Instance>, lost: nat)

  datatype State = State(
    size: nat,
    lock: Lock,
    inflight: set<string>,
    replay: bool,
    buffer: seq<Instance>,
    closing: Closing,
    ch: seq<Instance>,
    wg: int,
    worker: Worker,
    waiting: multiset<Instance>,
    readding: multiset<Instance>,
    windows: seq<Window>,
    sent: seq<Sent>,
    handled: seq<Instance>,
    discarded: seq<Instance>)
  {
    predicate Closed() {
      closing != Open
    }

    predicate HasSpace() {
      |ch| < size
    }
  }

  function Init(size: nat): State {
    State(size, Free, {}, false, [], Open, [], 0, Selecting, multiset{}, multiset{}, [], [], [], [])
  }

  datatype Event =
    | Enqueue(inst: Instance)
    | SlowSend(inst: Instance)
    | SlowReAdd(inst: Instance)
    | SlowGiveUp(inst: Instance)
    | BeginReplay
    | ReplayWrite(who: Sender, inst: Instance)
    | EndReplay(w: nat)
    | FlushNext(w: nat)
    | SendOk
    | SendTimeout
    | Receive
    | Admit
    | HandlerReturns
    | RemoveKey
    | WorkDone
    | SeeStop
    | Shutdown
    | WaitPasses
    | CloseStop
    | CloseDone

  predicate InPhase(s: State, w: nat, replaying: bool) {
    w < |s.windows| && s.windows[w].phase.Replaying? == replaying
  }

  predicate Enabled(s: State, e: Event) {
    match e
    case Enqueue(_) => s.lock.Free?
    case SlowSend(i) => i in s.waiting && s.HasSpace()
    case SlowReAdd(i) => s.lock.Free? && i in s.readding
    case SlowGiveUp(i) => i in s.waiting
    case BeginReplay => s.lock.Free?
    case ReplayWrite(who, _) => s.lock.Free? && (who.Outside? || (who.InWindow? && InPhase(s, who.w, true)))
    case EndReplay(w) => s.lock.Free? && InPhase(s, w, true)
    case FlushNext(w) => s.lock.Free? && InPhase(s, w, false) && s.windows[w].phase.rest != []
    case SendOk => s.lock.Sending? && s.HasSpace()
    case SendTimeout => s.lock.Sending?
    case Receive => s.worker.Selecting? && s.ch != []
    case Admit => s.worker.Received? && s.lock.Free?
    case HandlerReturns => s.worker.Handling?
    case RemoveKey => s.worker.Finishing? && s.lock.Free?
    case WorkDone => s.worker.KeyRemoved?
    case SeeStop => s.worker.Selecting? && (s.closing.Stopped? || s.closing.Released?)
    case Shutdown => s.lock.Free?
    case WaitPasses => s.closing.Waiting? && s.wg == 0
    case CloseStop => s.closing.Drained?
    case CloseDone => s.closing.Stopped?
  }

  function OriginOf(who: Sender): Origin {
    match who
    case InWindow(w) => Replayed(w)
    case Flusher(w) => Flushed(w)
    case Outside => Direct
  }

  /** The flush of a window moves on to its next instance. */
  function AfterFlush(windows: seq<Window>, who: Sender, lost: nat): (r: seq<Window>)
    ensures |r| == |windows|
    ensures forall w :: 0 <= w < |r| ==>
      r[w].arrivals == windows[w].arrivals && r[w].phase.Replaying? == windows[w].phase.Replaying?
  {
    if who.Flusher? && who.w < |windows| && windows[who.w].phase.Flushing? && windows[who.w].phase.rest != [] then
      var win := windows[who.w];
      windows[who.w := Window(Flushing(win.phase.rest[1..]), win.arrivals, win.lost + lost)]
    else windows
  }

  /** Enqueue while a window is open: the arrival is noted on that window. */
  function WithArrival(windows: seq<Window>, i: Instance): seq<Window> {
    var n := |windows|;
    if n == 0 then [] else windows[n - 1 := windows[n - 1].(arrivals := windows[n - 1].arrivals + [i])]
  }

  function Buffered(s: State, i: Instance): State {
    s.(buffer := s.buffer + [i], windows := WithArrival(s.windows, i))
  }

  function Apply(s: State, e: Event): State
    requires Enabled(s, e)
  {
    match e
    case Enqueue(i) =>
      if s.Closed() || i.dedupeKey in s.inflight then s
      else if s.replay then Buffered(s, i)
      else if s.HasSpace() then
        s.(inflight := s.inflight + {i.dedupeKey}, ch := s.ch + [i], sent := s.sent + [Sent(i, Fast)])
      else s.(waiting := s.waiting + multiset{i})
    case SlowSend(i) =>
      s.(waiting := s.waiting - multiset{i}, readding := s.readding + multiset{i},
         ch := s.ch + [i], sent := s.sent + [Sent(i, Slow)])
    case SlowReAdd(i) =>
      s.(readding := s.readding - multiset{i}, inflight := s.inflight + {i.dedupeKey})
    case SlowGiveUp(i) => s.(waiting := s.waiting - multiset{i})
    case BeginReplay =>
      if s.Closed() || s.replay then s
      else s.(replay := true, buffer := [], windows := s.windows + [Window(Replaying, [], 0)])
    case ReplayWrite(who, i) =>
      if s.Closed() then s
      else s.(lock := Sending(who, i), inflight := s.inflight + {i.dedupeKey})
    case EndReplay(w) =>
      s.(replay := false, buffer := [], windows := s.windows[w := s.windows[w].(phase := Flushing(s.buffer))])
    case FlushNext(w) =>
      var i := s.windows[w].phase.rest[0];
      s.(lock := Sending(Flusher(w), i), inflight := s.inflight + {i.dedupeKey})
    case SendOk =>
      s.(lock := Free, ch := s.ch + [s.lock.inst], sent := s.sent + [Sent(s.lock.inst, OriginOf(s.lock.who))],
         windows := AfterFlush(s.windows, s.lock.who, 0))
    case SendTimeout =>
      s.(lock := Free, inflight := s.inflight - {s.lock.inst.dedupeKey},
         windows := AfterFlush(s.windows, s.lock.who, 1))
    case Receive => s.(worker := Received(s.ch[0]), ch := s.ch[1..])
    case Admit =>
      if s.Closed() then s.(worker := Exited, discarded := s.discarded + [s.worker.inst])
      else s.(worker := Handling(s.worker.inst), wg := s.wg + 1)
    case HandlerReturns => s.(worker := Finishing(s.worker.inst))
    case RemoveKey => s.(worker := KeyRemoved(s.worker.inst), inflight := s.inflight - {s.worker.inst.dedupeKey})
    case WorkDone => s.(worker := Selecting, wg := s.wg - 1, handled := s.handled + [s.worker.inst])
    case SeeStop => s.(worker := Exited)
    case Shutdown => if s.Closed() then s else s.(closing := Waiting)
    case WaitPasses => s.(closing := Drained)
    case CloseStop => s.(closing := Stopped)
    case CloseDone => s.(closing := Released)
  }

  // ---------- Runs ----------

  predicate CanRun(s: State, es: seq<Event>)
    decreases |es|
  {
    es == [] || (Enabled(s, es[0]) && CanRun(Apply(s, es[0]), es[1..]))
  }

  function Exec(s: State, es: seq<Event>): State
    requires CanRun(s, es)
    decreases |es|
  {
    if es == [] then s else Exec(Apply(s, es[0]), es[1..])
  }

  lemma {:induction false} RunsCompose(s: State, es: seq<Event>, more: seq<Event>)
    requires CanRun(s, es) && CanRun(Exec(s, es), more)
    ensures CanRun(s, es + more) && Exec(s, es + more) == Exec(Exec(s, es), more)
    decreases |es|
  {
    hide Enabled, Apply;
    if es == [] {
      assert es + more == more;
    } else {
      RunsCompose(Apply(s, es[0]), es[1..], more);
      assert (es + more)[1..] == es[1..] + more;
    }
  }

  lemma OneStepRuns(s: State, e: Event)
    requires Enabled(s, e)
    ensures CanRun(s, [e]) && Exec(s, [e]) == Apply(s, e)
  {
    hide Enabled, Apply;
    assert [e][1..] == [];
  }

  lemma RunsExtend(s: State, es: seq<Event>, e: Event)
    requires CanRun(s, es) && Enabled(Exec(s, es), e)
    ensures CanRun(s, es + [e]) && Exec(s, es + [e]) == Apply(Exec(s, es), e)
  {
    OneStepRuns(Exec(s, es), e);
    RunsCompose(s, es, [e]);
  }

  // ---------- First in, first out ----------

  function Insts(sent: seq<Sent>): seq<Instance> {
    if sent == [] then [] else Insts(sent[..|sent| - 1]) + [sent[|sent| - 1].inst]
  }

  /** Everything sent was handled, or is in the worker's hand, or was dropped
      by the worker on shutdown, or waits in the channel: in that order. */
  ghost predicate Fifo(s: State) {
    && |s.ch| <= s.size
    && Insts(s.sent) == s.handled + s.worker.InHand() + s.discarded + s.ch
    && |s.discarded| <= 1
    && (s.discarded != [] ==> s.worker.Exited? && s.Closed())
    && (s.worker.Exited? ==> s.Closed())
  }

  lemma InstsGrow(sent: seq<Sent>, x: Sent)
    ensures Insts(sent + [x]) == Insts(sent) + [x.inst]
  {
    assert (sent + [x])[..|sent|] == sent;
  }

  lemma SendKeepsFifo(s: State, e: Event)
    requires Fifo(s) && Enabled(s, e) && (e.Enqueue? || e.SlowSend? || e.SendOk?)
    ensures Fifo(Apply(s, e))
  {
    var t := Apply(s, e);
    if t.sent != s.sent {
      var x := t.sent[|s.sent|];
      assert t.sent == s.sent + [x] && t.ch == s.ch + [x.inst];
      InstsGrow(s.sent, x);
    }
  }

  lemma StepKeepsFifo(s: State, e: Event)
    requires Fifo(s) && Enabled(s, e)
    ensures Fifo(Apply(s, e))
  {
    if e.Enqueue? || e.SlowSend? || e.SendOk? {
      SendKeepsFifo(s, e);
    } else if e.Receive? {
      assert s.ch == [s.ch[0]] + s.ch[1..];
    }
  }

  // ---------- Shutdown ----------

  /** The WaitGroup counts the one instance being worked on, and once
      Shutdown's wait is over there is none. */
  ghost predicate Quiet(s: State) {
    && s.wg == (if s.worker.Busy() then 1 else 0)
    && (s.closing.Drained? || s.closing.Stopped? || s.closing.Released? ==> !s.worker.Busy())
  }

  lemma StepKeepsQuiet(s: State, e: Event)
    requires Quiet(s) && Enabled(s, e)
    ensures Quiet(Apply(s, e))
  {
  }

  // ---------- Replay windows ----------

  function Project(sent: seq<Sent>, o: Origin): seq<Instance> {
    if sent == [] then []
    else
      var last := sent[|sent| - 1];
      Project(sent[..|sent| - 1], o) + if last.origin == o then [last.inst] else []
  }

  /** `a` keeps the order of `b` and leaves some of it out. */
  ghost predicate IsSubsequence<T(!new)>(a: seq<T>, b: seq<T>)
    decreases |b|
  {
    a == []
    || (b != []
        && ((a[|a| - 1] == b[|b| - 1] && IsSubsequence(a[..|a| - 1], b[..|b| - 1]))
            || IsSubsequence(a, b[..|b| - 1])))
  }

  lemma SubsequenceGrows<T(!new)>(a: seq<T>, b: seq<T>, x: T)
    requires IsSubsequence(a, b)
    ensures IsSubsequence(a, b + [x]) && IsSubsequence(a + [x], b + [x])
  {
    assert (b + [x])[..|b|] == b && (a + [x])[..|a|] == a;
  }

  lemma {:induction false} FullSubsequence<T(!new)>(a: seq<T>, b: seq<T>)
    requires IsSubsequence(a, b)
    ensures |a| <= |b|
    ensures |a| == |b| ==> a == b
    decreases |b|
  {
    if a != [] {
      if a[|a| - 1] == b[|b| - 1] && IsSubsequence(a[..|a| - 1], b[..|b| - 1]) {
        FullSubsequence(a[..|a| - 1], b[..|b| - 1]);
      } else {
        FullSubsequence(a, b[..|b| - 1]);
      }
    }
  }

  /** The flush of window `w` has worked through its arrivals up to `rest`,
      sending some in arrival order and giving up on the others. */
  ghost predicate FlushOrder(win: Window, flushed: seq<Instance>) {
    match win.phase
    case Replaying => flushed == [] && win.lost == 0
    case Flushing(rest) =>
      && |rest| <= |win.arrivals|
      && rest == win.arrivals[|win.arrivals| - |rest|..]
      && IsSubsequence(flushed, win.arrivals[..|win.arrivals| - |rest|])
      && |flushed| + win.lost + |rest| == |win.arrivals|
  }

  /** Only the last window can be open and `replay` says whether it is; the
      buffer holds what arrived during it, and without one it is empty. */
  ghost predicate WindowShape(s: State) {
    && (s.replay <==> s.windows != [] && s.windows[|s.windows| - 1].phase.Replaying?)
    && (forall w :: 0 <= w < |s.windows| - 1 ==> s.windows[w].phase.Flushing?)
    && s.buffer == if s.replay then s.windows[|s.windows| - 1].arrivals else []
  }

  /** Whoever holds the lock belongs to a window in the matching phase. */
  ghost predicate LockPhase(s: State) {
    s.lock.Sending? ==>
      match s.lock.who
      case InWindow(w) => InPhase(s, w, true)
      case Flusher(w) => InPhase(s, w, false) && s.windows[w].phase.rest != []
        && s.lock.inst == s.windows[w].phase.rest[0]
      case Outside => true
  }

  ghost predicate FlushedAreEnded(s: State) {
    forall i :: 0 <= i < |s.sent| && s.sent[i].origin.Flushed? ==> InPhase(s, s.sent[i].origin.w, false)
  }

  ghost predicate FlushOrders(s: State) {
    forall w :: 0 <= w < |s.windows| ==> FlushOrder(s.windows[w], Project(s.sent, Flushed(w)))
  }

  /** In the order of the channel, everything a window's work replayed comes
      before everything that was buffered during that window. */
  ghost predicate Precedence(sent: seq<Sent>) {
    forall i, j ::
      0 <= i < |sent| && 0 <= j < |sent| && sent[i].origin.Replayed? && sent[j].origin == Flushed(sent[i].origin.w)
      ==> i < j
  }

  ghost predicate Windowed(s: State) {
    WindowShape(s) && LockPhase(s) && FlushedAreEnded(s) && FlushOrders(s) && Precedence(s.sent)
  }

  lemma StepKeepsShape(s: State, e: Event)
    requires WindowShape(s) && Enabled(s, e)
    ensures WindowShape(Apply(s, e))
  {
    if e.SendOk? || e.SendTimeout? {
      SendKeepsShape(s, e);
    } else if e.Enqueue? || e.BeginReplay? || e.EndReplay? {
      WindowStepKeepsShape(s, e);
    } else {
      OtherStepKeepsWindows(s, e);
      hide Apply;
    }
  }

  lemma OtherStepKeepsWindows(s: State, e: Event)
    requires Enabled(s, e) && !e.SendOk? && !e.SendTimeout? && !e.Enqueue? && !e.BeginReplay? && !e.EndReplay?
    ensures var t := Apply(s, e); t.windows == s.windows && t.replay == s.replay && t.buffer == s.buffer
  {
  }

  lemma WindowStepKeepsShape(s: State, e: Event)
    requires WindowShape(s) && Enabled(s, e) && (e.Enqueue? || e.BeginReplay? || e.EndReplay?)
    ensures WindowShape(Apply(s, e))
  {
  }

  lemma SendKeepsShape(s: State, e: Event)
    requires WindowShape(s) && Enabled(s, e) && (e.SendOk? || e.SendTimeout?)
    ensures WindowShape(Apply(s, e))
  {
    hide AfterFlush, OriginOf;
  }

  lemma StepKeepsLockPhase(s: State, e: Event)
    requires WindowShape(s) && LockPhase(s) && Enabled(s, e)
    ensures LockPhase(Apply(s, e))
  {
    hide AfterFlush, OriginOf;
  }

  lemma StepKeepsFlushedEnded(s: State, e: Event)
    requires LockPhase(s) && FlushedAreEnded(s) && Enabled(s, e)
    ensures FlushedAreEnded(Apply(s, e))
  {
  }

  lemma StepKeepsPrecedence(s: State, e: Event)
    requires LockPhase(s) && FlushedAreEnded(s) && Precedence(s.sent) && Enabled(s, e)
    ensures Precedence(Apply(s, e).sent)
  {
  }

  lemma {:induction false} ProjectNothing(sent: seq<Sent>, o: Origin)
    requires forall i :: 0 <= i < |sent| ==> sent[i].origin != o
    ensures Project(sent, o) == []
  {
    if sent != [] {
      ProjectNothing(sent[..|sent| - 1], o);
    }
  }

  lemma ProjectGrows(sent: seq<Sent>, x: Sent, o: Origin)
    ensures Project(sent + [x], o) == if x.origin == o then Project(sent, o) + [x.inst] else Project(sent, o)
  {
    assert (sent + [x])[..|sent|] == sent;
  }

  /** One instance leaves the flush of a window: sent, or given up on. */
  lemma FlushAdvances(win: Window, flushed: seq<Instance>)
    requires win.phase.Flushing? && win.phase.rest != [] && FlushOrder(win, flushed)
    ensures FlushOrder(Window(Flushing(win.phase.rest[1..]), win.arrivals, win.lost), flushed + [win.phase.rest[0]])
    ensures FlushOrder(Window(Flushing(win.phase.rest[1..]), win.arrivals, win.lost + 1), flushed)
  {
    var rest := win.phase.rest;
    var k := |win.arrivals| - |rest|;
    assert win.arrivals[..k + 1] == win.arrivals[..k] + [rest[0]];
    SubsequenceGrows(flushed, win.arrivals[..k], rest[0]);
  }

  /** A window opens with nothing flushed; arrivals and its end change nothing
      about that. */
  lemma OpenWindowOrder(win: Window, flushed: seq<Instance>, arrivals: seq<Instance>)
    requires win.phase.Replaying?
    ensures flushed == [] && win.lost == 0 ==> FlushOrder(win, flushed)
    ensures FlushOrder(win, flushed) ==> FlushOrder(win.(arrivals := arrivals), flushed)
    ensures FlushOrder(win, flushed) ==> FlushOrder(win.(phase := Flushing(win.arrivals)), flushed)
  {
    assert win.arrivals[0..] == win.arrivals;
  }

  lemma SendKeepsFlushOrder(s: State, e: Event, v: nat)
    requires LockPhase(s) && FlushOrders(s) && Enabled(s, e) && v < |s.windows|
    requires e.SlowSend? || e.SendOk? || (e.Enqueue? && Apply(s, e).sent != s.sent)
    ensures var t := Apply(s, e); FlushOrder(t.windows[v], Project(t.sent, Flushed(v)))
  {
    hide FlushOrder, Project;
    var t := Apply(s, e);
    var flushed := Project(s.sent, Flushed(v));
    if s.windows[v].phase.Flushing? && s.windows[v].phase.rest != [] {
      FlushAdvances(s.windows[v], flushed);
    }
    ProjectGrows(s.sent, t.sent[|s.sent|], Flushed(v));
    assert t.sent == s.sent + [t.sent[|s.sent|]];
  }

  /** What a step that sends nothing makes of a window: it arrives, ends, gives
      up on one instance, or is as before. */
  ghost predicate Follows(win: Window, next: Window) {
    || next == win
    || (win.phase.Replaying? && next == win.(arrivals := next.arrivals))
    || (win.phase.Replaying? && next == win.(phase := Flushing(win.arrivals)))
    || (win.phase.Flushing? && win.phase.rest != []
        && next == Window(Flushing(win.phase.rest[1..]), win.arrivals, win.lost + 1))
  }

  lemma QuietStepFollows(s: State, e: Event, v: nat)
    requires WindowShape(s) && Enabled(s, e) && Apply(s, e).sent == s.sent && v < |Apply(s, e).windows|
    ensures if v < |s.windows| then Follows(s.windows[v], Apply(s, e).windows[v])
            else v == |s.windows| && Apply(s, e).windows[v] == Window(Replaying, [], 0)
  {
  }

  lemma FollowingKeepsOrder(win: Window, next: Window, flushed: seq<Instance>)
    requires Follows(win, next) && FlushOrder(win, flushed)
    ensures FlushOrder(next, flushed)
  {
    hide FlushOrder;
    if win.phase.Replaying? {
      OpenWindowOrder(win, flushed, next.arrivals);
    } else if win.phase.rest != [] {
      FlushAdvances(win, flushed);
    }
  }

  lemma QuietStepKeepsFlushOrder(s: State, e: Event, v: nat)
    requires WindowShape(s) && FlushedAreEnded(s) && FlushOrders(s) && Enabled(s, e)
    requires v < |Apply(s, e).windows| && Apply(s, e).sent == s.sent
    ensures FlushOrder(Apply(s, e).windows[v], Project(s.sent, Flushed(v)))
  {
    QuietStepFollows(s, e, v);
    hide FlushOrder, Project, WindowShape, Apply, Enabled, Follows;
    if v < |s.windows| {
      FollowingKeepsOrder(s.windows[v], Apply(s, e).windows[v], Project(s.sent, Flushed(v)));
    } else {
      ProjectNothing(s.sent, Flushed(v));
      OpenWindowOrder(Apply(s, e).windows[v], [], []);
    }
  }

  lemma StepKeepsFlushOrders(s: State, e: Event)
    requires WindowShape(s) && LockPhase(s) && FlushedAreEnded(s) && FlushOrders(s) && Enabled(s, e)
    ensures FlushOrders(Apply(s, e))
  {
    hide FlushOrder, Project, WindowShape, LockPhase, FlushedAreEnded;
    var t := Apply(s, e);
    forall v | 0 <= v < |t.windows| ensures FlushOrder(t.windows[v], Project(t.sent, Flushed(v))) {
      if t.sent != s.sent {
        SendKeepsFlushOrder(s, e, v);
      } else {
        QuietStepKeepsFlushOrder(s, e, v);
      }
    }
  }

  // ---------- In-flight keys ----------

  /** What should hold its dedupe key: what the worker dropped on shutdown, what
      it holds until it removes the key, and the channel. */
  ghost function Carried(s: State): seq<Instance> {
    s.discarded + (if s.worker.KeyRemoved? then [] else s.worker.InHand()) + s.ch
  }

  ghost predicate KeysMatch(carried: seq<Instance>, keys: set<string>) {
    && (forall i, j :: 0 <= i < j < |carried| ==> carried[i].dedupeKey != carried[j].dedupeKey)
    && (forall i :: 0 <= i < |carried| ==> carried[i].dedupeKey in keys)
    && (forall k :: k in keys ==> exists i :: 0 <= i < |carried| && carried[i].dedupeKey == k)
  }

  /** No slow send, and the lock is taken to send only what has a free key. */
  predicate Clean(s: State, e: Event)
    requires Enabled(s, e)
  {
    match e
    case SlowSend(_) => false
    case ReplayWrite(_, i) => s.Closed() || i.dedupeKey !in s.inflight
    case FlushNext(w) => s.windows[w].phase.rest[0].dedupeKey !in s.inflight
    case _ => true
  }

  /** The carried keys are distinct and are the in-flight set; while someone
      waits for space with the lock, its reserved key comes on top. */
  ghost predicate KeysAgree(s: State) {
    && s.readding == multiset{}
    && (s.discarded != [] ==> s.worker.Exited?)
    && match s.lock
       case Free => KeysMatch(Carried(s), s.inflight)
       case Sending(_, i) => i.dedupeKey in s.inflight && KeysMatch(Carried(s), s.inflight - {i.dedupeKey})
  }

  lemma KeyJoins(carried: seq<Instance>, keys: set<string>, i: Instance)
    requires KeysMatch(carried, keys) && i.dedupeKey !in keys
    ensures KeysMatch(carried + [i], keys + {i.dedupeKey})
  {
    var more := carried + [i];
    forall k | k in keys + {i.dedupeKey} ensures exists j :: 0 <= j < |more| && more[j].dedupeKey == k {
      if k == i.dedupeKey {
        assert more[|carried|].dedupeKey == k;
      } else {
        var j :| 0 <= j < |carried| && carried[j].dedupeKey == k;
        assert more[j].dedupeKey == k;
      }
    }
  }

  lemma FirstKeyLeaves(carried: seq<Instance>, keys: set<string>)
    requires carried != [] && KeysMatch(carried, keys)
    ensures KeysMatch(carried[1..], keys - {carried[0].dedupeKey})
  {
    forall k | k in keys - {carried[0].dedupeKey}
      ensures exists j :: 0 <= j < |carried[1..]| && carried[1..][j].dedupeKey == k
    {
      var j :| 0 <= j < |carried| && carried[j].dedupeKey == k;
      assert carried[1..][j - 1].dedupeKey == k;
    }
  }

  lemma TakenKeyJoins(carried: seq<Instance>, keys: set<string>, i: Instance)
    requires i.dedupeKey in keys && KeysMatch(carried, keys - {i.dedupeKey})
    ensures KeysMatch(carried + [i], keys)
  {
    KeyJoins(carried, keys - {i.dedupeKey}, i);
    assert keys - {i.dedupeKey} + {i.dedupeKey} == keys;
  }

  lemma EnqueueKeepsKeys(s: State, i: Instance)
    requires KeysAgree(s) && Enabled(s, Enqueue(i))
    ensures KeysAgree(Apply(s, Enqueue(i)))
  {
    hide KeysMatch, WithArrival;
    var t := Apply(s, Enqueue(i));
    if t.ch != s.ch {
      KeyJoins(Carried(s), s.inflight, i);
      assert Carried(t) == Carried(s) + [i];
    } else {
      assert Carried(t) == Carried(s);
    }
  }

  lemma LockStepKeepsKeys(s: State, e: Event)
    requires KeysAgree(s) && Enabled(s, e) && Clean(s, e)
    requires e.ReplayWrite? || e.FlushNext? || e.SendOk? || e.SendTimeout?
    ensures KeysAgree(Apply(s, e))
  {
    hide KeysMatch, AfterFlush, OriginOf, InPhase;
    var t := Apply(s, e);
    if e.SendOk? {
      TakenKeyJoins(Carried(s), s.inflight, s.lock.inst);
      assert Carried(t) == Carried(s) + [s.lock.inst];
    } else {
      assert Carried(t) == Carried(s);
      if t.lock.Sending? {
        assert s.inflight + {t.lock.inst.dedupeKey} - {t.lock.inst.dedupeKey} == s.inflight;
      }
    }
  }

  lemma RemoveKeyKeepsKeys(s: State)
    requires KeysAgree(s) && Enabled(s, RemoveKey)
    ensures KeysAgree(Apply(s, RemoveKey))
  {
    hide KeysMatch;
    FirstKeyLeaves(Carried(s), s.inflight);
    assert Carried(Apply(s, RemoveKey)) == Carried(s)[1..];
  }

  lemma WorkerStepCarries(s: State, e: Event)
    requires Enabled(s, e) && (e.Receive? || e.Admit? || e.HandlerReturns? || e.WorkDone? || e.SeeStop?)
    requires s.discarded != [] ==> s.worker.Exited?
    ensures Carried(Apply(s, e)) == Carried(s)
  {
    if e.Receive? {
      assert s.ch == [s.ch[0]] + s.ch[1..];
    }
  }

  lemma WorkerStepKeepsKeys(s: State, e: Event)
    requires KeysAgree(s) && Enabled(s, e)
    requires e.Receive? || e.Admit? || e.HandlerReturns? || e.WorkDone? || e.SeeStop?
    ensures KeysAgree(Apply(s, e))
  {
    WorkerStepCarries(s, e);
    hide KeysMatch, Carried;
  }

  /** The steps that touch neither the keys nor what is carried. */
  predicate KeepsCarried(e: Event) {
    match e
    case SlowGiveUp(_) => true
    case BeginReplay => true
    case EndReplay(_) => true
    case Shutdown => true
    case WaitPasses => true
    case CloseStop => true
    case CloseDone => true
    case _ => false
  }

  lemma OtherStepKeepsKeys(s: State, e: Event)
    requires KeysAgree(s) && Enabled(s, e) && KeepsCarried(e)
    ensures KeysAgree(Apply(s, e))
  {
    hide KeysMatch, InPhase;
    assert Carried(Apply(s, e)) == Carried(s);
  }

  lemma StepKeepsKeys(s: State, e: Event)
    requires KeysAgree(s) && Enabled(s, e) && Clean(s, e)
    ensures KeysAgree(Apply(s, e))
  {
    NothingToReAdd(s, e);
    hide KeysAgree, Apply, Enabled;
    match e
    case Enqueue(i) => EnqueueKeepsKeys(s, i);
    case ReplayWrite(_, _) => LockStepKeepsKeys(s, e);
    case FlushNext(_) => LockStepKeepsKeys(s, e);
    case SendOk => LockStepKeepsKeys(s, e);
    case SendTimeout => LockStepKeepsKeys(s, e);
    case Receive => WorkerStepKeepsKeys(s, e);
    case Admit => WorkerStepKeepsKeys(s, e);
    case HandlerReturns => WorkerStepKeepsKeys(s, e);
    case RemoveKey => RemoveKeyKeepsKeys(s);
    case WorkDone => WorkerStepKeepsKeys(s, e);
    case SeeStop => WorkerStepKeepsKeys(s, e);
    case _ => OtherStepKeepsKeys(s, e);
  }

  lemma NothingToReAdd(s: State, e: Event)
    requires KeysAgree(s) && Enabled(s, e)
    ensures !e.SlowReAdd?
  {
  }

  /** Distinct keys, all of them reserved. */
  ghost predicate KeysFit(carried: seq<Instance>, keys: set<string>) {
    && (forall i, j :: 0 <= i < j < |carried| ==> carried[i].dedupeKey != carried[j].dedupeKey)
    && (forall i :: 0 <= i < |carried| ==> carried[i].dedupeKey in keys)
  }

  /** The lock is held for something carried under the same key, or with other
      keys out of order. */
  ghost predicate Clash(s: State) {
    s.lock.Sending? && !KeysFit(Carried(s), s.inflight - {s.lock.inst.dedupeKey})
  }

  lemma MoreDoesNotFit(carried: seq<Instance>, more: seq<Instance>, keys: set<string>)
    requires !KeysFit(carried, keys)
    ensures !KeysFit(carried + more, keys)
  {
    var all := carried + more;
    if KeysFit(all, keys) {
      forall i | 0 <= i < |carried| ensures carried[i].dedupeKey in keys {
        assert all[i] == carried[i];
      }
      forall i, j | 0 <= i < j < |carried| ensures carried[i].dedupeKey != carried[j].dedupeKey {
        assert all[i] == carried[i] && all[j] == carried[j];
      }
    }
  }

  lemma ClashSurfacesAtSend(carried: seq<Instance>, keys: set<string>, i: Instance)
    requires !KeysFit(carried, keys - {i.dedupeKey})
    ensures !KeysMatch(carried + [i], keys) && !KeysMatch(carried, keys - {i.dedupeKey})
  {
    var all := carried + [i];
    if KeysMatch(all, keys) {
      forall j | 0 <= j < |carried| ensures carried[j].dedupeKey in keys - {i.dedupeKey} {
        assert all[j] == carried[j] && all[|carried|] == i;
      }
      forall j, k | 0 <= j < k < |carried| ensures carried[j].dedupeKey != carried[k].dedupeKey {
        assert all[j] == carried[j] && all[k] == carried[k];
      }
    }
  }

  /** A clash lasts while the lock is held, and shows as soon as it is free. */
  lemma ClashStep(s: State, e: Event)
    requires Clash(s) && Enabled(s, e)
    ensures var t := Apply(s, e);
      if t.lock.Free? then !KeysMatch(Carried(t), t.inflight) else Clash(t)
  {
    hide KeysFit, KeysMatch, AfterFlush, OriginOf, InPhase;
    var t := Apply(s, e);
    if e.SendOk? {
      ClashSurfacesAtSend(Carried(s), s.inflight, s.lock.inst);
      assert Carried(t) == Carried(s) + [s.lock.inst];
    } else if e.SendTimeout? {
      ClashSurfacesAtSend(Carried(s), s.inflight, s.lock.inst);
      assert Carried(t) == Carried(s);
    } else if e.SlowSend? {
      MoreDoesNotFit(Carried(s), [e.inst], s.inflight - {s.lock.inst.dedupeKey});
      assert Carried(t) == Carried(s) + [e.inst];
    } else {
      LockedStepCarries(s, e);
    }
  }

  lemma LockedStepCarries(s: State, e: Event)
    requires s.lock.Sending? && Enabled(s, e) && !e.SendOk? && !e.SendTimeout? && !e.SlowSend?
    ensures var t := Apply(s, e);
      t.lock == s.lock && t.inflight == s.inflight && Carried(t) == Carried(s)
  {
    hide AfterFlush, OriginOf, InPhase;
    if e.Receive? {
      assert s.ch == [s.ch[0]] + s.ch[1..];
    }
  }

  lemma TwoKeysDoNotFit(carried: seq<Instance>, keys: set<string>, i: Instance)
    requires KeysMatch(carried, keys)
    ensures !KeysFit(carried + [i], keys)
  {
    var all := carried + [i];
    assert all[|carried|] == i;
    if i.dedupeKey in keys {
      var j :| 0 <= j < |carried| && carried[j].dedupeKey == i.dedupeKey;
      assert all[j] == carried[j];
    }
  }

  lemma MatchesFit(carried: seq<Instance>, keys: set<string>)
    requires KeysMatch(carried, keys)
    ensures KeysFit(carried, keys)
  {
  }

  lemma ReservedKeyClashes(carried: seq<Instance>, keys: set<string>, k: string)
    requires KeysMatch(carried, keys) && k in keys
    ensures !KeysFit(carried, keys - {k})
  {
    var j :| 0 <= j < |carried| && carried[j].dedupeKey == k;
    assert carried[j].dedupeKey !in keys - {k};
  }

  /** Every step that is not clean shows: at once, or as a clash when the lock
      is held. */
  lemma UncleanStepClashes(s: State, e: Event)
    requires KeysAgree(s) && Enabled(s, e) && !Clean(s, e)
    ensures var t := Apply(s, e);
      if t.lock.Free? then !KeysMatch(Carried(t), t.inflight) else Clash(t)
  {
    hide KeysFit, KeysMatch, InPhase;
    var t := Apply(s, e);
    if e.SlowSend? {
      assert Carried(t) == Carried(s) + [e.inst];
      var keys := if s.lock.Free? then s.inflight else s.inflight - {s.lock.inst.dedupeKey};
      TwoKeysDoNotFit(Carried(s), keys, e.inst);
      if KeysMatch(Carried(t), keys) {
        MatchesFit(Carried(t), keys);
      }
    } else {
      assert Carried(t) == Carried(s);
      ReservedKeyClashes(Carried(s), s.inflight, t.lock.inst.dedupeKey);
      assert s.inflight + {t.lock.inst.dedupeKey} == s.inflight;
    }
  }

  // ---------- Every reachable state ----------

  ghost predicate Inv(s: State) {
    Fifo(s) && Quiet(s) && Windowed(s)
  }

  lemma StepKeepsInv(s: State, e: Event)
    requires Inv(s) && Enabled(s, e)
    ensures Inv(Apply(s, e))
  {
    hide Apply, Fifo, Quiet, WindowShape, LockPhase, FlushedAreEnded, FlushOrders, Precedence;
    StepKeepsFifo(s, e);
    StepKeepsQuiet(s, e);
    StepKeepsShape(s, e);
    StepKeepsLockPhase(s, e);
    StepKeepsFlushedEnded(s, e);
    StepKeepsFlushOrders(s, e);
    StepKeepsPrecedence(s, e);
  }

  lemma {:induction false} RunKeepsInv(s: State, es: seq<Event>)
    requires Inv(s) && CanRun(s, es)
    ensures Inv(Exec(s, es))
    decreases |es|
  {
    if es != [] {
      StepKeepsInv(s, es[0]);
      RunKeepsInv(Apply(s, es[0]), es[1..]);
    }
  }

  ghost predicate Reachable(s: State) {
    exists size: nat, es :: size >= 1 && CanRun(Init(size), es) && Exec(Init(size), es) == s
  }

  lemma ReachableHasInv(s: State)
    requires Reachable(s)
    ensures Inv(s) && s.size >= 1
  {
    var size: nat, es :| size >= 1 && CanRun(Init(size), es) && Exec(Init(size), es) == s;
    assert Inv(Init(size));
    RunKeepsInv(Init(size), es);
    SizeIsFixed(Init(size), es);
  }

  lemma {:induction false} SizeIsFixed(s: State, es: seq<Event>)
    requires CanRun(s, es)
    ensures Exec(s, es).size == s.size
    decreases |es|
  {
    if es != [] {
      SizeIsFixed(Apply(s, es[0]), es[1..]);
    }
  }

  /** FIFO and conservation: what was sent is, in order, what was handled, the
      at most one instance in hand or dropped on shutdown, and the channel;
      the channel is bounded. */
  lemma SentIsConserved(s: State)
    requires Reachable(s)
    ensures Insts(s.sent) == s.handled + s.worker.InHand() + s.discarded + s.ch
    ensures |s.ch| <= s.size && |s.worker.InHand() + s.discarded| <= 1
    ensures s.discarded != [] ==> s.Closed()
  {
    ReachableHasInv(s);
  }

  /** Replay precedence: per window, all replayed instances enter the channel
      before all instances buffered during it; buffered instances enter in
      arrival order, every arrival is sent, given up on, or still waiting; and
      outside a window the buffer is empty, so opening one discards nothing. */
  lemma ReplayedPrecedeBuffered(s: State)
    requires Reachable(s)
    ensures Precedence(s.sent)
    ensures forall w :: 0 <= w < |s.windows| ==>
              var sent := Project(s.sent, Flushed(w));
              var left := if s.windows[w].phase.Replaying? then s.windows[w].arrivals else s.windows[w].phase.rest;
              && IsSubsequence(sent, s.windows[w].arrivals)
              && |sent| + s.windows[w].lost + |left| == |s.windows[w].arrivals|
              && (s.windows[w].lost == 0 && left == [] ==> sent == s.windows[w].arrivals)
    ensures !s.replay ==> s.buffer == []
  {
    ReachableHasInv(s);
    forall w | 0 <= w < |s.windows|
      ensures IsSubsequence(Project(s.sent, Flushed(w)), s.windows[w].arrivals)
      ensures |Project(s.sent, Flushed(w))| == |s.windows[w].arrivals|
        ==> Project(s.sent, Flushed(w)) == s.windows[w].arrivals
    {
      var win, sent := s.windows[w], Project(s.sent, Flushed(w));
      assert FlushOrder(win, sent);
      if win.phase.Flushing? {
        var k := |win.arrivals| - |win.phase.rest|;
        SubsequenceExtends(sent, win.arrivals[..k], win.phase.rest);
        assert win.arrivals == win.arrivals[..k] + win.phase.rest;
      }
      FullSubsequence(sent, win.arrivals);
    }
  }

  lemma {:induction false} SubsequenceExtends<T(!new)>(a: seq<T>, b: seq<T>, c: seq<T>)
    requires IsSubsequence(a, b)
    ensures IsSubsequence(a, b + c)
    decreases |c|
  {
    hide IsSubsequence;
    if c == [] {
      assert b + c == b;
    } else {
      SubsequenceExtends(a, b, c[..|c| - 1]);
      SubsequenceGrows(a, b + c[..|c| - 1], c[|c| - 1]);
      assert b + c == b + c[..|c| - 1] + [c[|c| - 1]];
    }
  }

  // ---------- What is accepted is accounted for ----------

  function One(x: Instance, i: Instance): nat {
    if x == i then 1 else 0
  }

  /** How often a step takes on `i`: an Enqueue or a replay write not turned
      away. */
  function Accepts(s: State, e: Event, i: Instance): nat {
    match e
    case Enqueue(x) => if s.Closed() || x.dedupeKey in s.inflight then 0 else One(x, i)
    case ReplayWrite(_, x) => if s.Closed() then 0 else One(x, i)
    case _ => 0
  }

  /** How often a step gives up on `i` for want of space. */
  function GivesUp(s: State, e: Event, i: Instance): nat
    requires Enabled(s, e)
  {
    match e
    case SlowGiveUp(x) => One(x, i)
    case SendTimeout => One(s.lock.inst, i)
    case _ => 0
  }

  function Accepted(s: State, es: seq<Event>, i: Instance): nat
    requires CanRun(s, es)
    decreases |es|
  {
    if es == [] then 0 else Accepts(s, es[0], i) + Accepted(Apply(s, es[0]), es[1..], i)
  }

  function GivenUp(s: State, es: seq<Event>, i: Instance): nat
    requires CanRun(s, es)
    decreases |es|
  {
    if es == [] then 0 else GivesUp(s, es[0], i) + GivenUp(Apply(s, es[0]), es[1..], i)
  }

  function Times(list: seq<Instance>, i: Instance): nat {
    multiset(list)[i]
  }

  function TimesSent(sent: seq<Sent>, i: Instance): nat {
    Times(Insts(sent), i)
  }

  /** What a window still has to send. */
  function Held(win: Window): seq<Instance> {
    if win.phase.Replaying? then win.arrivals else win.phase.rest
  }

  function TimesInWindows(windows: seq<Window>, i: Instance): nat {
    if windows == [] then 0
    else TimesInWindows(windows[..|windows| - 1], i) + Times(Held(windows[|windows| - 1]), i)
  }

  /** What a replay write is waiting to send; a flush's is still in its window. */
  function TimesInLock(lock: Lock, i: Instance): nat {
    if lock.Sending? && !lock.who.Flusher? then One(lock.inst, i) else 0
  }

  /** How often `i` was sent or is on its way to the channel. */
  function Account(s: State, i: Instance): nat {
    TimesSent(s.sent, i) + s.waiting[i] + TimesInWindows(s.windows, i) + TimesInLock(s.lock, i)
  }

  lemma {:induction false} OneWindowChanges(windows: seq<Window>, w: nat, win: Window, i: Instance)
    requires w < |windows|
    ensures TimesInWindows(windows[w := win], i) + Times(Held(windows[w]), i)
      == TimesInWindows(windows, i) + Times(Held(win), i)
  {
    hide Times, Held;
    var n := |windows| - 1;
    if w == n {
      assert windows[w := win][..n] == windows[..n];
    } else {
      assert windows[w := win][..n] == windows[..n][w := win];
      OneWindowChanges(windows[..n], w, win, i);
    }
  }

  lemma OneWindowOpens(windows: seq<Window>, i: Instance)
    ensures TimesInWindows(windows + [Window(Replaying, [], 0)], i) == TimesInWindows(windows, i)
  {
    assert (windows + [Window(Replaying, [], 0)])[..|windows|] == windows;
  }

  lemma ArrivalBalances(windows: seq<Window>, x: Instance, i: Instance)
    requires windows != [] && windows[|windows| - 1].phase.Replaying?
    ensures TimesInWindows(WithArrival(windows, x), i) == TimesInWindows(windows, i) + One(x, i)
  {
    var win := windows[|windows| - 1];
    OneWindowChanges(windows, |windows| - 1, win.(arrivals := win.arrivals + [x]), i);
  }

  lemma ClosingBalances(windows: seq<Window>, w: nat, i: Instance)
    requires w < |windows| && windows[w].phase.Replaying?
    ensures TimesInWindows(windows[w := windows[w].(phase := Flushing(windows[w].arrivals))], i)
      == TimesInWindows(windows, i)
  {
    OneWindowChanges(windows, w, windows[w].(phase := Flushing(windows[w].arrivals)), i);
  }

  lemma SendBalances(sent: seq<Sent>, x: Sent, i: Instance)
    ensures TimesSent(sent + [x], i) == TimesSent(sent, i) + One(x.inst, i)
  {
    InstsGrow(sent, x);
  }

  lemma FlushBalances(s: State, lost: nat, i: Instance)
    requires LockPhase(s) && s.lock.Sending?
    ensures TimesInWindows(AfterFlush(s.windows, s.lock.who, lost), i) + One(s.lock.inst, i)
      == TimesInWindows(s.windows, i) + TimesInLock(s.lock, i)
  {
    hide TimesInWindows;
    if s.lock.who.Flusher? {
      var w := s.lock.who.w;
      var win := s.windows[w];
      OneWindowChanges(s.windows, w, Window(Flushing(win.phase.rest[1..]), win.arrivals, win.lost + lost), i);
      assert win.phase.rest == [s.lock.inst] + win.phase.rest[1..];
    }
  }

  lemma EnqueueBalances(s: State, x: Instance, i: Instance)
    requires WindowShape(s) && Enabled(s, Enqueue(x))
    ensures Account(Apply(s, Enqueue(x)), i) == Account(s, i) + Accepts(s, Enqueue(x), i)
  {
    hide TimesSent, TimesInWindows, TimesInLock, WithArrival;
    SendBalances(s.sent, Sent(x, Fast), i);
    if s.replay {
      ArrivalBalances(s.windows, x, i);
    }
    assert (s.waiting + multiset{x})[i] == s.waiting[i] + One(x, i);
  }

  lemma SlowSendBalances(s: State, x: Instance, i: Instance)
    requires Enabled(s, SlowSend(x))
    ensures Account(Apply(s, SlowSend(x)), i) == Account(s, i)
  {
    hide TimesSent, TimesInWindows, TimesInLock;
    SendBalances(s.sent, Sent(x, Slow), i);
    assert (s.waiting - multiset{x})[i] + One(x, i) == s.waiting[i];
  }

  lemma SendOkBalances(s: State, i: Instance)
    requires LockPhase(s) && Enabled(s, SendOk)
    ensures Account(Apply(s, SendOk), i) == Account(s, i)
  {
    SendBalances(s.sent, Sent(s.lock.inst, OriginOf(s.lock.who)), i);
    FlushBalances(s, 0, i);
    hide TimesSent, TimesInWindows, AfterFlush, OriginOf, LockPhase;
  }

  lemma SendTimeoutBalances(s: State, i: Instance)
    requires LockPhase(s) && Enabled(s, SendTimeout)
    ensures Account(Apply(s, SendTimeout), i) + GivesUp(s, SendTimeout, i) == Account(s, i)
  {
    FlushBalances(s, 1, i);
    hide TimesSent, TimesInWindows, AfterFlush, OriginOf, LockPhase;
  }

  lemma WindowStepBalances(s: State, e: Event, i: Instance)
    requires WindowShape(s) && Enabled(s, e) && (e.BeginReplay? || e.EndReplay?)
    ensures Account(Apply(s, e), i) == Account(s, i)
  {
    hide TimesSent, TimesInWindows, TimesInLock;
    if e.BeginReplay? {
      OneWindowOpens(s.windows, i);
    } else {
      assert e.w == |s.windows| - 1;
      ClosingBalances(s.windows, e.w, i);
    }
  }

  lemma LockStepBalances(s: State, e: Event, i: Instance)
    requires Enabled(s, e) && (e.ReplayWrite? || e.FlushNext? || e.SlowGiveUp?)
    ensures Account(Apply(s, e), i) + GivesUp(s, e, i) == Account(s, i) + Accepts(s, e, i)
  {
    hide TimesSent, TimesInWindows;
    if e.SlowGiveUp? {
      assert (s.waiting - multiset{e.inst})[i] + One(e.inst, i) == s.waiting[i];
    }
  }

  predicate IsOther(e: Event) {
    match e
    case Enqueue(_) => false
    case SlowSend(_) => false
    case SlowGiveUp(_) => false
    case BeginReplay => false
    case ReplayWrite(_, _) => false
    case EndReplay(_) => false
    case FlushNext(_) => false
    case SendOk => false
    case SendTimeout => false
    case _ => true
  }

  lemma OtherStepBalances(s: State, e: Event, i: Instance)
    requires Enabled(s, e) && IsOther(e)
    ensures Account(Apply(s, e), i) + GivesUp(s, e, i) == Account(s, i) + Accepts(s, e, i)
  {
    hide TimesSent, TimesInWindows, TimesInLock, AfterFlush, OriginOf, Buffered;
  }

  lemma StepBalances(s: State, e: Event, i: Instance)
    requires WindowShape(s) && LockPhase(s) && Enabled(s, e)
    ensures Account(Apply(s, e), i) + GivesUp(s, e, i) == Account(s, i) + Accepts(s, e, i)
  {
    hide Account, Apply, Enabled, WindowShape, LockPhase;
    match e
    case Enqueue(x) => EnqueueBalances(s, x, i);
    case SlowSend(x) => SlowSendBalances(s, x, i);
    case SendOk => SendOkBalances(s, i);
    case SendTimeout => SendTimeoutBalances(s, i);
    case BeginReplay => WindowStepBalances(s, e, i);
    case EndReplay(_) => WindowStepBalances(s, e, i);
    case ReplayWrite(_, _) => LockStepBalances(s, e, i);
    case FlushNext(_) => LockStepBalances(s, e, i);
    case SlowGiveUp(_) => LockStepBalances(s, e, i);
    case _ => OtherStepBalances(s, e, i);
  }

  lemma {:induction false} RunBalances(s: State, es: seq<Event>, i: Instance)
    requires Inv(s) && CanRun(s, es)
    ensures Account(Exec(s, es), i) + GivenUp(s, es, i) == Account(s, i) + Accepted(s, es, i)
    decreases |es|
  {
    if es != [] {
      hide Account, Accepts, GivesUp, Enabled, Apply, Fifo, Quiet, FlushedAreEnded, FlushOrders, Precedence;
      StepBalances(s, es[0], i);
      StepKeepsInv(s, es[0]);
      RunBalances(Apply(s, es[0]), es[1..], i);
    }
  }

  /** Conservation up to the channel: over any run an instance was accepted as
      often as it was sent, waits on the slow path, is buffered or still to be
      flushed, is in the hand of a replay write, or was given up. */
  lemma AcceptedIsConserved(size: nat, es: seq<Event>, i: Instance)
    requires CanRun(Init(size), es)
    ensures var s := Exec(Init(size), es);
      Accepted(Init(size), es, i) == TimesSent(s.sent, i) + s.waiting[i] + TimesInWindows(s.windows, i)
        + TimesInLock(s.lock, i) + GivenUp(Init(size), es, i)
  {
    assert Inv(Init(size));
    RunBalances(Init(size), es, i);
  }

  ghost predicate WaitOver(s: State) {
    s.closing.Drained? || s.closing.Stopped? || s.closing.Released?
  }

  /** Shutdown quiescence: from the moment the wait is over, and so whenever
      `done` is closed, no handler runs and none ever starts or completes. */
  lemma NothingRunsAfterDone(s: State, es: seq<Event>)
    requires Reachable(s) && WaitOver(s) && CanRun(s, es)
    ensures !s.worker.Busy() && !Exec(s, es).worker.Busy() && Exec(s, es).handled == s.handled
  {
    ReachableHasInv(s);
    StaysQuiet(s, es);
  }

  /** From `s` to `t` no work was begun: what is being worked on at `t` already
      was at `s`, and at most that was finished. */
  ghost predicate NothingBegun(s: State, t: State) {
    && t.closing != Open
    && (t.worker.Busy() ==> s.worker.Busy() && t.worker.inst == s.worker.inst && t.handled == s.handled)
    && (t.handled != s.handled ==>
          s.worker.Busy() && !t.worker.Busy() && t.handled == s.handled + [s.worker.inst])
  }

  lemma ClosedStepBeginsNothing(s: State, e: Event)
    requires s.closing != Open && Enabled(s, e)
    ensures NothingBegun(s, Apply(s, e))
  {
    hide AfterFlush, OriginOf, InPhase, Buffered;
  }

  /** A closed runner takes up no work, however far its shutdown has come: in any
      continuation at most the instance already in work is finished. */
  lemma {:induction false} ClosedBeginsNothing(s: State, es: seq<Event>)
    requires s.closing != Open && CanRun(s, es)
    ensures NothingBegun(s, Exec(s, es))
    decreases |es|
  {
    hide Apply, Enabled;
    if es != [] {
      ClosedStepBeginsNothing(s, es[0]);
      ClosedBeginsNothing(Apply(s, es[0]), es[1..]);
    }
  }

  /** From `s` to `t` nothing was let in: what was sent in between waited on the
      slow path, was buffered, or was being sent at `s`. */
  ghost predicate NothingLetIn(s: State, t: State) {
    && t.closing != Open
    && t.waiting <= s.waiting
    && |t.windows| == |s.windows|
    && (forall w :: 0 <= w < |s.windows| ==> t.windows[w].arrivals == s.windows[w].arrivals)
    && s.sent <= t.sent
    && (forall k :: |s.sent| <= k < |t.sent| ==> WasOnItsWay(s, t.sent[k]))
    && (t.lock.Sending? ==> t.lock.who.Flusher? || t.lock == s.lock)
  }

  ghost predicate WasOnItsWay(s: State, x: Sent) {
    || x.origin.Slow? || x.origin.Flushed?
    || (s.lock.Sending? && x == Sent(s.lock.inst, OriginOf(s.lock.who)))
  }

  lemma ClosedStepLetsNothingIn(s: State, e: Event)
    requires s.closing != Open && Enabled(s, e)
    ensures NothingLetIn(s, Apply(s, e))
  {
    hide AfterFlush, Buffered;
  }

  lemma LetInComposes(s: State, t: State, u: State)
    requires NothingLetIn(s, t) && NothingLetIn(t, u)
    ensures NothingLetIn(s, u)
  {
    forall k | |s.sent| <= k < |u.sent| ensures WasOnItsWay(s, u.sent[k]) {
      if k < |t.sent| {
        assert u.sent[k] == t.sent[k];
      } else {
        assert WasOnItsWay(t, u.sent[k]);
      }
    }
  }

  /** Nor does a closed runner accept anything, by Enqueue, by a replay write or
      by opening a window. */
  lemma {:induction false} ClosedLetsNothingIn(s: State, es: seq<Event>)
    requires s.closing != Open && CanRun(s, es)
    ensures NothingLetIn(s, Exec(s, es))
    decreases |es|
  {
    hide Apply, Enabled, WasOnItsWay;
    if es != [] {
      var s1 := Apply(s, es[0]);
      ClosedStepLetsNothingIn(s, es[0]);
      ClosedLetsNothingIn(s1, es[1..]);
      LetInComposes(s, s1, Exec(s1, es[1..]));
    }
  }

  /** An open runner takes every Enqueue with a free key: behind everything sent
      so far, behind everything buffered in the open window, or as a waiter. */
  lemma OpenRunnerTakes(s: State, i: Instance)
    requires WindowShape(s) && s.closing == Open && s.lock.Free? && i.dedupeKey !in s.inflight
    ensures var t := Apply(s, Enqueue(i));
      if s.replay then
        var w := |s.windows| - 1;
        && Insts(t.sent) == Insts(s.sent) && t.waiting == s.waiting
        && t.windows[w].arrivals == s.windows[w].arrivals + [i]
      else if |s.ch| < s.size then
        Insts(t.sent) == Insts(s.sent) + [i] && t.waiting == s.waiting && i.dedupeKey in t.inflight
      else Insts(t.sent) == Insts(s.sent) && t.waiting == s.waiting + multiset{i}
  {
    InstsGrow(s.sent, Sent(i, Fast));
  }

  lemma {:induction false} StaysQuiet(s: State, es: seq<Event>)
    requires Quiet(s) && WaitOver(s) && CanRun(s, es)
    ensures Quiet(Exec(s, es)) && WaitOver(Exec(s, es)) && Exec(s, es).handled == s.handled
    decreases |es|
  {
    if es != [] {
      StepKeepsQuiet(s, es[0]);
      StaysQuiet(Apply(s, es[0]), es[1..]);
    }
  }

  predicate AllClean(s: State, es: seq<Event>)
    requires CanRun(s, es)
    decreases |es|
  {
    es == [] || (Clean(s, es[0]) && AllClean(Apply(s, es[0]), es[1..]))
  }

  /** Whenever the lock is free in this run, the carried keys are distinct and
      are exactly the in-flight set. */
  ghost predicate AlwaysExact(s: State, es: seq<Event>)
    requires CanRun(s, es)
    decreases |es|
  {
    && (s.lock.Free? ==> KeysMatch(Carried(s), s.inflight))
    && (es != [] ==> AlwaysExact(Apply(s, es[0]), es[1..]))
  }

  lemma {:induction false} ClashComesToLight(s: State, es: seq<Event>)
    requires CanRun(s, es) && Exec(s, es).lock.Free?
    requires if s.lock.Free? then !KeysMatch(Carried(s), s.inflight) else Clash(s)
    ensures !AlwaysExact(s, es)
    decreases |es|
  {
    hide KeysMatch, Carried, Apply, Enabled, KeysFit;
    if s.lock.Sending? && es != [] {
      ClashStep(s, es[0]);
      ClashComesToLight(Apply(s, es[0]), es[1..]);
    }
  }

  lemma {:induction false} CleanRunKeepsKeys(s: State, es: seq<Event>)
    requires KeysAgree(s) && CanRun(s, es)
    ensures AllClean(s, es) ==> AlwaysExact(s, es) && KeysAgree(Exec(s, es))
    ensures Exec(s, es).lock.Free? && AlwaysExact(s, es) ==> AllClean(s, es)
    decreases |es|
  {
    hide KeysMatch, Carried, Apply, Enabled, Clean, Clash;
    if es != [] {
      if Clean(s, es[0]) {
        StepKeepsKeys(s, es[0]);
        CleanRunKeepsKeys(Apply(s, es[0]), es[1..]);
      } else if Exec(s, es).lock.Free? {
        UncleanStepClashes(s, es[0]);
        ClashComesToLight(Apply(s, es[0]), es[1..]);
      }
    }
  }

  /** Exactly when dedupe works: in a run that ends with the lock free, the keys
      of what is carried are distinct and are the in-flight set at every moment
      the lock is free, if and only if nothing was sent on the slow path and the
      lock was never taken to send something whose key was in flight. */
  lemma InflightIsExact(size: nat, es: seq<Event>)
    requires CanRun(Init(size), es)
    ensures AllClean(Init(size), es) ==> AlwaysExact(Init(size), es) && KeysAgree(Exec(Init(size), es))
    ensures Exec(Init(size), es).lock.Free? ==> (AlwaysExact(Init(size), es) <==> AllClean(Init(size), es))
  {
    assert KeysAgree(Init(size));
    CleanRunKeepsKeys(Init(size), es);
  }

  /** Every slow send breaks this: what it sends is carried without its key
      being reserved for it. A re-add at once repairs it if and only if the key
      was free; one that comes after the instance was worked off strands the
      key, as `SlowPathCanStrandKey` shows. */
  lemma SlowSendBreaksKeys(s: State, i: Instance)
    requires KeysAgree(s) && s.lock.Free? && Enabled(s, SlowSend(i))
    ensures var t := Apply(s, SlowSend(i));
      && !KeysMatch(Carried(t), t.inflight)
      && Enabled(t, SlowReAdd(i))
      && (KeysMatch(Carried(t), Apply(t, SlowReAdd(i)).inflight) <==> i.dedupeKey !in s.inflight)
  {
    UncleanStepClashes(s, SlowSend(i));
    hide KeysMatch;
    var t := Apply(s, SlowSend(i));
    assert Carried(t) == Carried(s) + [i];
    if i.dedupeKey in s.inflight {
      assert s.inflight + {i.dedupeKey} == s.inflight;
    } else {
      KeyJoins(Carried(s), s.inflight, i);
    }
  }

  // ---------- What the slow path and replay do not promise ----------

  lemma ReachableStep(s: State, e: Event)
    requires Reachable(s) && Enabled(s, e)
    ensures Reachable(Apply(s, e))
  {
    var size: nat, es :| size >= 1 && CanRun(Init(size), es) && Exec(Init(size), es) == s;
    RunsExtend(Init(size), es, e);
  }

  lemma FullChannel(a: Instance) returns (s: State)
    ensures Reachable(s) && s == Init(1).(inflight := {a.dedupeKey}, ch := [a], sent := [Sent(a, Fast)])
  {
    assert CanRun(Init(1), []) && Exec(Init(1), []) == Init(1);
    assert Reachable(Init(1));
    hide Reachable, CanRun, Exec;
    s := Apply(Init(1), Enqueue(a));
    ReachableStep(Init(1), Enqueue(a));
  }

  /** A runner with room for one whose channel is full of `a` while `b` waits
      on the slow path. */
  lemma FullWithWaiter(a: Instance, b: Instance) returns (s: State)
    requires a.dedupeKey != b.dedupeKey
    ensures Reachable(s)
      && s == Init(1).(inflight := {a.dedupeKey}, ch := [a], sent := [Sent(a, Fast)], waiting := multiset{b})
  {
    hide Reachable;
    var s0 := FullChannel(a);
    s := Apply(s0, Enqueue(b));
    ReachableStep(s0, Enqueue(b));
  }

  /** An open, unlocked runner can take the instance at the head of its channel
      and call the handler. */
  lemma HeadIsTaken(s: State) returns (t: State)
    requires Reachable(s) && s.lock.Free? && s.closing.Open? && s.worker.Selecting? && s.ch != []
    ensures Reachable(t) && t == s.(worker := Handling(s.ch[0]), ch := s.ch[1..], wg := s.wg + 1)
  {
    hide Reachable, AfterFlush, OriginOf, InPhase, Buffered;
    var s1 := Apply(s, Receive);
    ReachableStep(s, Receive);
    t := Apply(s1, Admit);
    ReachableStep(s1, Admit);
  }

  /** And it can go on to the next one. */
  lemma HeadIsWorkedOff(s: State) returns (t: State)
    requires Reachable(s) && s.lock.Free? && s.closing.Open? && s.worker.Selecting? && s.ch != []
    ensures Reachable(t)
    ensures t == s.(ch := s.ch[1..], inflight := s.inflight - {s.ch[0].dedupeKey}, handled := s.handled + [s.ch[0]])
  {
    hide Reachable, AfterFlush, OriginOf, InPhase, Buffered;
    var s1 := HeadIsTaken(s);
    var s2 := Apply(s1, HandlerReturns);
    ReachableStep(s1, HandlerReturns);
    var s3 := Apply(s2, RemoveKey);
    ReachableStep(s2, RemoveKey);
    t := Apply(s3, WorkDone);
    ReachableStep(s3, WorkDone);
  }

  /** `b` and `c` both wait, whatever their keys, when the channel is free
      again. */
  lemma TwoWait(a: Instance, b: Instance, c: Instance) returns (s: State)
    requires a.dedupeKey != b.dedupeKey && a.dedupeKey != c.dedupeKey
    ensures Reachable(s) && s.windows == [] && s.lock.Free? && s.worker.Selecting? && s.size == 1
    ensures s.ch == [] && s.waiting == multiset{b, c}
  {
    hide Reachable;
    var s0 := FullWithWaiter(a, b);
    var s1 := Apply(s0, Enqueue(c));
    ReachableStep(s0, Enqueue(c));
    s := HeadIsWorkedOff(s1);
  }

  /** The slow path drops its reservation while it waits: two instances with
      one key can both be accepted and be in the runner together, one in hand
      and one in the channel. */
  lemma SlowPathAdmitsDuplicates(a: Instance, b: Instance, c: Instance) returns (s: State)
    requires a.dedupeKey != b.dedupeKey == c.dedupeKey
    ensures Reachable(s) && s.windows == [] && s.worker == Received(b) && s.ch == [c]
  {
    hide Reachable;
    var s2 := TwoWait(a, b, c);
    var s3 := Apply(s2, SlowSend(b));
    ReachableStep(s2, SlowSend(b));
    var s4 := Apply(s3, Receive);
    ReachableStep(s3, Receive);
    s := Apply(s4, SlowSend(c));
    ReachableStep(s4, SlowSend(c));
  }

  /** The slow path reserves its key only after sending: if the instance was
      already handled by then, the key stays in flight with nothing behind it,
      and every later Enqueue of that key is refused as a duplicate. */
  lemma SlowPathCanStrandKey(a: Instance, b: Instance, again: Instance) returns (s: State)
    requires a.dedupeKey != b.dedupeKey == again.dedupeKey
    ensures Reachable(s) && s.handled == [a, b] && s.ch == [] && s.worker.Selecting? && s.lock.Free?
    ensures s.waiting == s.readding == multiset{} && s.inflight == {b.dedupeKey}
    ensures Apply(s, Enqueue(again)) == s
  {
    hide Reachable;
    var s0 := FullWithWaiter(a, b);
    var s1 := HeadIsWorkedOff(s0);
    var s2 := Apply(s1, SlowSend(b));
    ReachableStep(s1, SlowSend(b));
    var s3 := HeadIsWorkedOff(s2);
    s := Apply(s3, SlowReAdd(b));
    ReachableStep(s3, SlowReAdd(b));
  }

  /** ReplayWrite does not look at the in-flight set: it can put two instances
      with one key behind each other. */
  lemma ReplayAdmitsDuplicates(a: Instance, b: Instance) returns (s: State)
    requires a.dedupeKey == b.dedupeKey
    ensures Reachable(s) && s.ch == [a, b]
  {
    var s0 := Init(2);
    assert CanRun(s0, []) && Exec(s0, []) == s0;
    assert Reachable(s0);
    hide Reachable, CanRun, Exec, AfterFlush;
    var s1 := Apply(s0, BeginReplay);
    ReachableStep(s0, BeginReplay);
    var s2 := SendInWindow(s1, a);
    s := SendInWindow(s2, b);
  }

  lemma SendInWindow(s: State, i: Instance) returns (t: State)
    requires Reachable(s) && s.lock.Free? && s.closing.Open? && InPhase(s, 0, true) && s.HasSpace()
    ensures Reachable(t) && t.lock.Free? && t.closing.Open? && InPhase(t, 0, true) && t.ch == s.ch + [i]
      && t.size == s.size
  {
    hide Reachable;
    var s1 := Apply(s, ReplayWrite(InWindow(0), i));
    ReachableStep(s, ReplayWrite(InWindow(0), i));
    t := Apply(s1, SendOk);
    ReachableStep(s1, SendOk);
  }
}
