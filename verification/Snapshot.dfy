/** The dispatcher's version-stamped snapshot of a group (`ordered`). */
module Snapshot {
  import opened Model
  import opened TaskRegistry

  /** One uninterrupted pass over the ids: the live tasks in group order, or
      None when one of them is due before its predecessor. */
  function Scan(r: RegState, ids: seq<string>, previous: Time, live: seq<Task>): Option<seq<Task>> {
    if ids == [] then Some(live)
    else if !r.Alive(ids[0]) then Scan(r, ids[1..], previous, live)
    else
      var current := r.byId[ids[0]];
      if previous != ZERO_TIME && current.dueAt < previous then None
      else Scan(r, ids[1..], current.dueAt, live + [current])
  }

  function Recompute(r: RegState, g: string): Option<seq<Task>> {
    Scan(r, r.Ids(g), ZERO_TIME, [])
  }

  /** What `Scan` reads is the group: tables that agree on it scan alike. */
  lemma {:induction false} ScanReadsOnlyIds(r: RegState, s: RegState, ids: seq<string>, previous: Time, live: seq<Task>)
    requires forall id :: id in ids ==> r.Get(id) == s.Get(id)
    ensures Scan(r, ids, previous, live) == Scan(s, ids, previous, live)
    decreases |ids|
  {
    if ids != [] {
      assert r.Get(ids[0]) == s.Get(ids[0]);
      if r.Alive(ids[0]) {
        ScanReadsOnlyIds(r, s, ids[1..], r.byId[ids[0]].dueAt, live + [r.byId[ids[0]]]);
      } else {
        ScanReadsOnlyIds(r, s, ids[1..], previous, live);
      }
    }
  }

  /** A live task among `ids` shows in what the pass comes to. */
  lemma {:induction false} ScanGrows(r: RegState, ids: seq<string>, previous: Time, live: seq<Task>)
    ensures var tasks := Scan(r, ids, previous, live);
      && (tasks.Some? ==> |live| <= |tasks.value|)
      && (tasks == Some(live) <==> forall id :: id in ids ==> !r.Alive(id))
    decreases |ids|
  {
    if ids != [] {
      assert forall id :: id in ids <==> id == ids[0] || id in ids[1..];
      if r.Alive(ids[0]) {
        var current := r.byId[ids[0]];
        ScanGrows(r, ids[1..], current.dueAt, live + [current]);
      } else {
        ScanGrows(r, ids[1..], previous, live);
      }
    }
  }

  lemma SameGroupRecomputesAlike(r: RegState, s: RegState, g: string)
    requires SameGroup(r, s, g)
    ensures Recompute(r, g) == Recompute(s, g)
  {
    ScanReadsOnlyIds(r, s, r.Ids(g), ZERO_TIME, []);
  }

  /** The live tasks of `ids`, in their order. */
  function LiveTasks(r: RegState, ids: seq<string>): seq<Task> {
    if ids == [] then []
    else (if r.Alive(ids[0]) then [r.byId[ids[0]]] else []) + LiveTasks(r, ids[1..])
  }

  /** No task with a due time is followed by one due before it. */
  ghost predicate InDueOrder(tasks: seq<Task>) {
    forall k :: 0 < k < |tasks| ==> tasks[k - 1].dueAt == ZERO_TIME || tasks[k - 1].dueAt <= tasks[k].dueAt
  }

  /** The pass with its early exit is a filter and one check of the result. */
  lemma {:induction false} ScanIsFilter(r: RegState, ids: seq<string>, live: seq<Task>)
    requires InDueOrder(live)
    ensures var previous := if live == [] then ZERO_TIME else live[|live| - 1].dueAt;
      var all := live + LiveTasks(r, ids);
      Scan(r, ids, previous, live) == if InDueOrder(all) then Some(all) else None
    decreases |ids|
  {
    if ids == [] {
      assert live + LiveTasks(r, ids) == live;
    } else if !r.Alive(ids[0]) {
      ScanIsFilter(r, ids[1..], live);
      assert LiveTasks(r, ids) == LiveTasks(r, ids[1..]);
    } else {
      var current := r.byId[ids[0]];
      var more := live + [current];
      var all := live + LiveTasks(r, ids);
      assert all == more + LiveTasks(r, ids[1..]);
      if live != [] && live[|live| - 1].dueAt != ZERO_TIME && current.dueAt < live[|live| - 1].dueAt {
        assert all[|live| - 1] == live[|live| - 1] && all[|live|] == current;
      } else {
        assert InDueOrder(more);
        ScanIsFilter(r, ids[1..], more);
      }
    }
  }

  lemma RecomputeIsFilter(r: RegState, g: string)
    ensures var all := LiveTasks(r, r.Ids(g));
      Recompute(r, g) == if InDueOrder(all) then Some(all) else None
  {
    ScanIsFilter(r, r.Ids(g), []);
    assert [] + LiveTasks(r, r.Ids(g)) == LiveTasks(r, r.Ids(g));
  }

  // ---------- The object, when nothing interrupts it ----------

  datatype Entry = Entry(version: nat, tasks: Option<seq<Task>>)

  /** An entry stamped with the current version is what a recompute gives. */
  ghost predicate Coherent(cache: map<string, Entry>, r: RegState) {
    forall g :: g in cache ==>
      && cache[g].version <= r.Version(g)
      && (cache[g].version == r.Version(g) ==> cache[g].tasks == Recompute(r, g))
  }

  /** Whatever happens to the table keeps the cache coherent. */
  lemma MutationKeepsCoherent(cache: map<string, Entry>, r: RegState, op: Op)
    requires WellGrouped(r) && KeepsGroups(r, op) && Coherent(cache, r)
    ensures Coherent(cache, Apply(r, op))
  {
    forall g | g in cache
      ensures cache[g].version <= Apply(r, op).Version(g)
      ensures cache[g].version == Apply(r, op).Version(g) ==> cache[g].tasks == Recompute(Apply(r, op), g)
    {
      StepRaisesVersion(r, op, g);
      if r.Version(g) == Apply(r, op).Version(g) {
        SameGroupRecomputesAlike(r, Apply(r, op), g);
      }
    }
  }

  class Dispatcher {
    const reg: Registry
    var cache: map<string, Entry>
    var hits: nat
    var misses: nat

    constructor (reg: Registry)
      ensures this.reg == reg && cache == map[] && hits == misses == 0
    {
      this.reg := reg;
      cache, hits, misses := map[], 0, 0;
    }

    /** Hit or miss, the answer is that of a recompute. */
    method Ordered(group: string) returns (tasks: Option<seq<Task>>)
      requires Coherent(cache, reg.View())
      modifies this
      ensures tasks == Recompute(reg.View(), group)
      ensures Coherent(cache, reg.View())
      ensures group in cache && cache[group] == Entry(reg.View().Version(group), tasks)
      ensures forall g :: g != group ==> (g in cache <==> g in old(cache)) && (g in cache ==> cache[g] == old(cache)[g])
      ensures var hit := group in old(cache) && old(cache)[group].version == reg.View().Version(group);
        hits == old(hits) + (if hit then 1 else 0) && misses == old(misses) + if hit then 0 else 1
    {
      var version := reg.Version(group);
      if group in cache {
        var entry := cache[group];
        if entry.version == version {
          hits := hits + 1;
          return entry.tasks;
        }
        cache := cache - {group};
      }
      misses := misses + 1;
      var live: seq<Task> := [];
      var previous := ZERO_TIME;
      var ids := reg.GroupTasks(group);
      for k := 0 to |ids|
        invariant Scan(reg.View(), ids[k..], previous, live) == Recompute(reg.View(), group)
        invariant cache == old(cache) - {group} && hits == old(hits) && misses == old(misses) + 1
      {
        assert ids[k..][1..] == ids[k + 1..];
        var current := reg.Get(ids[k]);
        if current.None? {
          continue;
        }
        var alive := reg.Alive(ids[k]);
        if !alive {
          continue;
        }
        if previous != ZERO_TIME && current.value.dueAt < previous {
          cache := cache[group := Entry(version, None)];
          return None;
        }
        previous := current.value.dueAt;
        live := live + [current.value];
      }
      cache := cache[group := Entry(version, Some(live))];
      return Some(live);
    }
  }
}

/** `ordered` interleaved with table mutations and with other callers: every
    read of the registry is a step of its own. */
module SnapshotSteps {
  import opened Model
  import opened TaskRegistry
  import opened Snapshot

  /** A filled entry, with when its version was read and when it was stored,
      as positions in the history of the table. */
  datatype Stamped = Stamped(version: nat, tasks: Option<seq<Task>>, at: nat, stored: nat)

  /** A caller that has read the version of `group` and waits for the mutex. */
  datatype Caller = Caller(group: string, version: nat, at: nat)

  /** A miss in progress, holding the mutex: the ids still to visit once they
      are read, and the task just read for the first of them. */
  datatype Fill = Fill(
    caller: Caller,
    ids: Option<seq<string>>,
    current: Option<Option<Task>>,
    previous: Time,
    live: seq<Task>)

  datatype Mutex = Unlocked | Filling(fill: Fill)

  datatype Hit = Hit(caller: Caller, entry: Stamped)

  datatype State = State(
    past: seq<RegState>,
    cache: map<string, Stamped>,
    mutex: Mutex,
    callers: map<nat, Caller>,
    hits: seq<Hit>)
  {
    /** The current table is the last one in the history. */
    function Reg(): RegState {
      if past == [] then EMPTY else past[|past| - 1]
    }
  }

  const INIT := State([EMPTY], map[], Unlocked, map[], [])

  datatype Event =
    | Mutate(op: Op)
    | ReadVersion(c: nat, group: string)
    | Lookup(c: nat)
    | ReadIds
    | ReadTask
    | ReadAlive
    | Store

  predicate Enabled(s: State, e: Event) {
    match e
    case Mutate(op) => KeepsGroups(s.Reg(), op)
    case ReadVersion(c, _) => c !in s.callers
    case Lookup(c) => c in s.callers && s.mutex.Unlocked?
    case ReadIds => s.mutex.Filling? && s.mutex.fill.ids.None?
    case ReadTask => s.mutex.Filling? && s.mutex.fill.ids.Some? && s.mutex.fill.ids.value != []
      && s.mutex.fill.current.None?
    case ReadAlive => s.mutex.Filling? && s.mutex.fill.ids.Some? && s.mutex.fill.ids.value != []
      && s.mutex.fill.current.Some?
    case Store => s.mutex.Filling? && s.mutex.fill.ids == Some([])
  }

  function Stored(s: State, tasks: Option<seq<Task>>): State
    requires s.mutex.Filling? && s.past != []
  {
    var c := s.mutex.fill.caller;
    s.(mutex := Unlocked, cache := s.cache[c.group := Stamped(c.version, tasks, c.at, |s.past| - 1)])
  }

  /** The loop body from the aliveness check on. */
  function AfterAlive(s: State): State
    requires Enabled(s, ReadAlive) && s.past != []
  {
    var f := s.mutex.fill;
    var next := f.(ids := Some(f.ids.value[1..]), current := None);
    if f.current.value.None? || !s.Reg().Alive(f.ids.value[0]) then s.(mutex := Filling(next))
    else
      var task := f.current.value.value;
      if f.previous != ZERO_TIME && task.dueAt < f.previous then Stored(s, None)
      else s.(mutex := Filling(next.(previous := task.dueAt, live := f.live + [task])))
  }

  function Apply(s: State, e: Event): State
    requires Enabled(s, e) && s.past != []
  {
    match e
    case Mutate(op) => s.(past := s.past + [TaskRegistry.Apply(s.Reg(), op)])
    case ReadVersion(c, g) => s.(callers := s.callers[c := Caller(g, s.Reg().Version(g), |s.past| - 1)])
    case Lookup(c) =>
      var k := s.callers[c];
      if k.group in s.cache && s.cache[k.group].version == k.version then
        s.(callers := s.callers - {c}, hits := s.hits + [Hit(k, s.cache[k.group])])
      else
        s.(callers := s.callers - {c}, cache := s.cache - {k.group},
          mutex := Filling(Fill(k, None, None, ZERO_TIME, [])))
    case ReadIds => s.(mutex := Filling(s.mutex.fill.(ids := Some(s.Reg().Ids(s.mutex.fill.caller.group)))))
    case ReadTask => s.(mutex := Filling(s.mutex.fill.(current := Some(s.Reg().Get(s.mutex.fill.ids.value[0])))))
    case ReadAlive => AfterAlive(s)
    case Store => Stored(s, Some(s.mutex.fill.live))
  }

  // ---------- Invariants ----------

  /** Later tables in the history are later for every group. */
  ghost predicate Historical(past: seq<RegState>) {
    && past != []
    && WellGrouped(past[|past| - 1])
    && forall i, j, g :: 0 <= i <= j < |past| ==> Later(past[i], past[j], g)
  }

  ghost predicate CallerOk(past: seq<RegState>, c: Caller) {
    c.at < |past| && c.version == past[c.at].Version(c.group)
  }

  /** As long as the version still stands, the rest of the pass will come to
      what a recompute gives. */
  ghost predicate OnCourse(r: RegState, f: Fill) {
    match f.ids
    case None => f.previous == ZERO_TIME && f.live == [] && f.current.None?
    case Some(ids) =>
      && Scan(r, ids, f.previous, f.live) == Recompute(r, f.caller.group)
      && (forall id :: id in ids ==> id in r.Ids(f.caller.group))
      && (ids != [] && f.current.Some? ==> f.current.value == r.Get(ids[0]))
  }

  ghost predicate FillOk(past: seq<RegState>, f: Fill)
    requires past != []
  {
    var r := past[|past| - 1];
    CallerOk(past, f.caller) && (r.Version(f.caller.group) == f.caller.version ==> OnCourse(r, f))
  }

  /** The version still stood when the entry was stored. */
  ghost predicate Untorn(past: seq<RegState>, g: string, e: Stamped) {
    e.stored < |past| && past[e.stored].Version(g) == e.version
  }

  /** The entry is what a recompute gives in the table at position `at`. */
  ghost predicate Exact(past: seq<RegState>, g: string, tasks: Option<seq<Task>>, at: nat) {
    at < |past| && tasks == Recompute(past[at], g)
  }

  ghost predicate EntryOk(past: seq<RegState>, g: string, e: Stamped) {
    && e.at <= e.stored < |past|
    && e.version == past[e.at].Version(g)
    && (Untorn(past, g, e) ==> Exact(past, g, e.tasks, e.at))
  }

  ghost predicate HitOk(past: seq<RegState>, h: Hit) {
    CallerOk(past, h.caller) && EntryOk(past, h.caller.group, h.entry) && h.entry.version == h.caller.version
  }

  ghost predicate Inv(s: State) {
    && Historical(s.past)
    && (forall c :: c in s.callers ==> CallerOk(s.past, s.callers[c]))
    && (s.mutex.Filling? ==> FillOk(s.past, s.mutex.fill))
    && (forall g :: g in s.cache ==> EntryOk(s.past, g, s.cache[g]))
    && (forall k :: 0 <= k < |s.hits| ==> HitOk(s.past, s.hits[k]))
  }

  lemma LaterRecomputesAlike(past: seq<RegState>, i: nat, j: nat, g: string)
    requires Historical(past) && i < |past| && j < |past|
    ensures past[i].Version(g) == past[j].Version(g) ==> Recompute(past[i], g) == Recompute(past[j], g)
  {
    if past[i].Version(g) == past[j].Version(g) {
      assert Later(past[i], past[j], g) || Later(past[j], past[i], g);
      if i <= j {
        SameGroupRecomputesAlike(past[i], past[j], g);
      } else {
        SameGroupRecomputesAlike(past[j], past[i], g);
      }
    }
  }

  lemma MutationExtendsHistory(past: seq<RegState>, op: Op)
    requires Historical(past) && KeepsGroups(past[|past| - 1], op)
    ensures Historical(past + [TaskRegistry.Apply(past[|past| - 1], op)])
  {
    var last := past[|past| - 1];
    var next := TaskRegistry.Apply(last, op);
    var more := past + [next];
    StepRaisesVersion(last, op, "");
    forall i, j, g | 0 <= i <= j < |more| ensures Later(more[i], more[j], g) {
      StepRaisesVersion(last, op, g);
      if j == |past| && i < j {
        assert Later(past[i], last, g) && Later(last, next, g);
      }
    }
  }

  /** A mutation leaves a pass in progress on course, or raises the version
      and so takes it off the record. */
  lemma MutationKeepsFill(past: seq<RegState>, op: Op, f: Fill)
    requires Historical(past) && KeepsGroups(past[|past| - 1], op) && FillOk(past, f)
    ensures FillOk(past + [TaskRegistry.Apply(past[|past| - 1], op)], f)
  {
    var r, g := past[|past| - 1], f.caller.group;
    var r' := TaskRegistry.Apply(r, op);
    StepRaisesVersion(r, op, g);
    assert Later(past[f.caller.at], r, g);
    if r'.Version(g) == f.caller.version {
      assert SameGroup(r, r', g);
      SameGroupRecomputesAlike(r, r', g);
      if f.ids.Some? {
        ScanReadsOnlyIds(r, r', f.ids.value, f.previous, f.live);
      }
    }
  }

  lemma MutationKeepsInv(s: State, op: Op)
    requires Inv(s) && KeepsGroups(s.Reg(), op)
    ensures Inv(Apply(s, Mutate(op)))
  {
    MutationExtendsHistory(s.past, op);
    if s.mutex.Filling? {
      MutationKeepsFill(s.past, op, s.mutex.fill);
    }
    var next := TaskRegistry.Apply(s.Reg(), op);
    hide Historical, FillOk, EntryOk, CallerOk, TaskRegistry.Apply, Recompute, Scan;
    var t := Apply(s, Mutate(op));
    assert t.past == s.past + [next];
    forall c | c in t.callers ensures CallerOk(t.past, t.callers[c]) {
      CallerStaysOk(s.past, next, s.callers[c]);
    }
    forall g | g in t.cache ensures EntryOk(t.past, g, t.cache[g]) {
      EntryStaysOk(s.past, next, g, s.cache[g]);
    }
    forall k | 0 <= k < |t.hits| ensures HitOk(t.past, t.hits[k]) {
      assert HitOk(s.past, s.hits[k]);
      CallerStaysOk(s.past, next, s.hits[k].caller);
      EntryStaysOk(s.past, next, s.hits[k].caller.group, s.hits[k].entry);
    }
  }

  lemma CallerStaysOk(past: seq<RegState>, next: RegState, c: Caller)
    requires CallerOk(past, c)
    ensures CallerOk(past + [next], c)
  {
  }

  lemma EntryStaysOk(past: seq<RegState>, next: RegState, g: string, e: Stamped)
    requires EntryOk(past, g, e)
    ensures EntryOk(past + [next], g, e)
  {
    hide Recompute;
  }

  /** What a fill stores is right if its version still stands. */
  lemma StoreKeepsInv(s: State, tasks: Option<seq<Task>>)
    requires Inv(s) && s.mutex.Filling?
    requires var c := s.mutex.fill.caller;
      s.Reg().Version(c.group) == c.version ==> tasks == Recompute(s.Reg(), c.group)
    ensures Inv(Stored(s, tasks))
  {
    var c := s.mutex.fill.caller;
    LaterRecomputesAlike(s.past, c.at, |s.past| - 1, c.group);
    assert EntryOk(s.past, c.group, Stored(s, tasks).cache[c.group]);
  }

  lemma AliveStepKeepsCourse(s: State)
    requires Inv(s) && Enabled(s, ReadAlive)
    ensures Inv(AfterAlive(s))
  {
    var f, r := s.mutex.fill, s.Reg();
    if AfterAlive(s).mutex.Unlocked? {
      StoreKeepsInv(s, None);
    } else {
      assert FillOk(s.past, AfterAlive(s).mutex.fill);
    }
  }

  lemma StepKeepsInv(s: State, e: Event)
    requires Inv(s) && Enabled(s, e)
    ensures Inv(Apply(s, e))
  {
    hide Historical, EntryOk, Recompute, Scan, TaskRegistry.Apply, AfterAlive, Stored;
    match e
    case Mutate(op) => MutationKeepsInv(s, op);
    case ReadAlive => AliveStepKeepsCourse(s);
    case Store => StoreAfterPass(s);
    case ReadIds => ReadIdsStartsOnCourse(s);
    case _ =>
  }

  lemma StoreAfterPass(s: State)
    requires Inv(s) && Enabled(s, Store)
    ensures Inv(Stored(s, Some(s.mutex.fill.live)))
  {
    StoreKeepsInv(s, Some(s.mutex.fill.live));
  }

  lemma ReadIdsStartsOnCourse(s: State)
    requires Inv(s) && Enabled(s, ReadIds)
    ensures Inv(Apply(s, ReadIds))
  {
    assert FillOk(s.past, Apply(s, ReadIds).mutex.fill);
  }

  // ---------- Runs ----------

  predicate CanRun(s: State, es: seq<Event>)
    decreases |es|
  {
    s.past != [] && (es == [] || (Enabled(s, es[0]) && CanRun(Apply(s, es[0]), es[1..])))
  }

  function Exec(s: State, es: seq<Event>): State
    requires CanRun(s, es)
    decreases |es|
  {
    if es == [] then s else Exec(Apply(s, es[0]), es[1..])
  }

  lemma {:induction false} RunKeepsInv(s: State, es: seq<Event>)
    requires Inv(s) && CanRun(s, es)
    ensures Inv(Exec(s, es))
    decreases |es|
  {
    if es != [] {
      StepKeepsInv(s, es[0]);
      RunKeepsInv(Apply(s, es[0]), es[1..]);
    }
  }

  lemma InitHasInv()
    ensures Inv(INIT)
  {
  }

  /** A hit whose version was read no earlier than its entry was stored is of
      an untorn entry; and a hit of an untorn entry, however the calls
      overlapped, returns exactly what a recompute gave when the hit's version
      was read. */
  lemma HitsAreCoherent(es: seq<Event>, k: nat)
    requires CanRun(INIT, es) && k < |Exec(INIT, es).hits|
    ensures var s := Exec(INIT, es);
      var h := s.hits[k];
      && (h.entry.stored <= h.caller.at ==> Untorn(s.past, h.caller.group, h.entry))
      && (Untorn(s.past, h.caller.group, h.entry) ==> Exact(s.past, h.caller.group, h.entry.tasks, h.caller.at))
  {
    InitHasInv();
    RunKeepsInv(INIT, es);
    var past, h := Exec(INIT, es).past, Exec(INIT, es).hits[k];
    assert HitOk(past, h);
    var g := h.caller.group;
    assert Later(past[h.entry.at], past[h.entry.stored], g);
    if h.entry.stored <= h.caller.at {
      assert Later(past[h.entry.stored], past[h.caller.at], g);
    }
    LaterRecomputesAlike(past, h.entry.at, h.caller.at, g);
  }

  // ---------- Calls on one group that do not overlap ----------

  /** A call on `g` is between its version read and its end. */
  predicate InProgress(s: State, g: string) {
    (exists c :: c in s.callers && s.callers[c].group == g) || (s.mutex.Filling? && s.mutex.fill.caller.group == g)
  }

  /** No call starts while another on the same group is in progress. */
  predicate SerialPerGroup(s: State, es: seq<Event>)
    requires CanRun(s, es)
    decreases |es|
  {
    es == [] || ((es[0].ReadVersion? ==> !InProgress(s, es[0].group)) && SerialPerGroup(Apply(s, es[0]), es[1..]))
  }

  /** Every entry a waiting caller may find was stored before that caller read
      its version. */
  ghost predicate InTurn(s: State) {
    && s.past != []
    && (forall c, d :: c in s.callers && d in s.callers && s.callers[c].group == s.callers[d].group ==> c == d)
    && (s.mutex.Filling? ==> forall c :: c in s.callers ==> s.callers[c].group != s.mutex.fill.caller.group)
    && (forall g :: g in s.cache ==> s.cache[g].stored < |s.past|)
    && (forall c :: c in s.callers && s.callers[c].group in s.cache ==>
          s.cache[s.callers[c].group].stored <= s.callers[c].at)
    && (forall k :: 0 <= k < |s.hits| ==> s.hits[k].entry.stored <= s.hits[k].caller.at)
  }

  lemma SerialStepKeepsTurn(s: State, e: Event)
    requires InTurn(s) && Enabled(s, e) && (e.ReadVersion? ==> !InProgress(s, e.group))
    ensures InTurn(Apply(s, e))
  {
    hide TaskRegistry.Apply, KeepsGroups;
  }

  lemma {:induction false} SerialRunIsInTurn(s: State, es: seq<Event>)
    requires InTurn(s) && CanRun(s, es) && SerialPerGroup(s, es)
    ensures InTurn(Exec(s, es))
    decreases |es|
  {
    if es != [] {
      SerialStepKeepsTurn(s, es[0]);
      SerialRunIsInTurn(Apply(s, es[0]), es[1..]);
    }
  }

  /** Cache coherence: when calls on one group do not overlap one another, then
      with any mutations between any two reads, and calls on other groups at
      any moment, every hit returns exactly what an uninterrupted recompute
      gave when the hit's version was read. */
  lemma SerialHitsAreExact(es: seq<Event>)
    requires CanRun(INIT, es) && SerialPerGroup(INIT, es)
    ensures var s := Exec(INIT, es);
      forall h :: h in s.hits ==> Exact(s.past, h.caller.group, h.entry.tasks, h.caller.at)
  {
    SerialRunIsInTurn(INIT, es);
    var s := Exec(INIT, es);
    forall h | h in s.hits ensures Exact(s.past, h.caller.group, h.entry.tasks, h.caller.at) {
      var k :| 0 <= k < |s.hits| && s.hits[k] == h;
      HitsAreCoherent(es, k);
    }
  }

  // ---------- Calls that overlap ----------

  lemma Prepend(s: State, e: Event, rest: seq<Event>)
    requires s.past != [] && Enabled(s, e) && CanRun(Apply(s, e), rest)
    ensures CanRun(s, [e] + rest) && Exec(s, [e] + rest) == Exec(Apply(s, e), rest)
  {
    assert ([e] + rest)[1..] == rest;
  }

  /** Nobody looks up until the fill in progress is over. */
  predicate NoLookup(es: seq<Event>) {
    forall k :: 0 <= k < |es| ==> !es[k].Lookup?
  }

  /** The run `es` ends the fill in progress in `s` with these tasks. */
  ghost predicate FillsWith(s: State, es: seq<Event>, tasks: Option<seq<Task>>)
    requires s.mutex.Filling?
  {
    CanRun(s, es) && NoLookup(es)
    && var t, f := Exec(s, es), s.mutex.fill;
       && t.mutex.Unlocked? && s.past <= t.past && t.hits == s.hits && t.past != []
       && (forall c :: c in s.callers ==> c in t.callers && t.callers[c] == s.callers[c])
       && f.caller.group in t.cache
       && t.cache[f.caller.group].version == f.caller.version && t.cache[f.caller.group].tasks == tasks
  }

  /** One more step in front, taken by the fill or by a mutation. */
  lemma FillsLater(s: State, e: Event, es: seq<Event>, tasks: Option<seq<Task>>)
    requires s.past != [] && s.mutex.Filling? && Enabled(s, e)
      && (e.Mutate? || e.ReadIds? || e.ReadTask? || e.ReadAlive?)
    requires Apply(s, e).mutex.Filling? && FillsWith(Apply(s, e), es, tasks)
    ensures FillsWith(s, [e] + es, tasks)
  {
    Prepend(s, e, es);
    hide CanRun, Exec, TaskRegistry.Apply;
    assert s.past <= Apply(s, e).past && Apply(s, e).mutex.fill.caller == s.mutex.fill.caller;
  }

  /** If every task still to be checked is removed in time, the fill ends with
      what it has. */
  lemma {:induction false} RemovedTasksAreSkipped(s: State) returns (es: seq<Event>)
    requires s.past != [] && s.mutex.Filling? && s.mutex.fill.ids.Some?
    ensures FillsWith(s, es, Some(s.mutex.fill.live))
    decreases |s.mutex.fill.ids.value|
  {
    var f := s.mutex.fill;
    if f.ids.value == [] {
      Prepend(s, Store, []);
      es := [Store] + [];
    } else {
      var remove := Mutate(OpSetState(f.ids.value[0], TaskRemoved));
      var s1 := Apply(s, remove);
      var s2 := if f.current.None? then Apply(s1, ReadTask) else s1;
      var s3 := Apply(s2, ReadAlive);
      es := RemovedTasksAreSkipped(s3);
      FillsLater(s2, ReadAlive, es, Some(f.live));
      es := [ReadAlive] + es;
      if f.current.None? {
        FillsLater(s1, ReadTask, es, Some(f.live));
        es := [ReadTask] + es;
      }
      FillsLater(s, remove, es, Some(f.live));
      es := [remove] + es;
    }
  }


  /** While there are tasks to check, a fill on course can still be thrown off:
      by removing what it has not checked, or by reviving a removed task. */
  lemma UncheckedTasksTear(s: State) returns (es: seq<Event>, tasks: Option<seq<Task>>)
    requires Inv(s) && s.mutex.Filling? && s.mutex.fill.ids.Some? && s.mutex.fill.ids.value != []
    requires OnCourse(s.Reg(), s.mutex.fill)
    ensures FillsWith(s, es, tasks) && tasks != Recompute(s.Reg(), s.mutex.fill.caller.group)
  {
    var f, r := s.mutex.fill, s.Reg();
    ScanGrows(r, f.ids.value, f.previous, f.live);
    if exists id :: id in f.ids.value && r.Alive(id) {
      es := RemovedTasksAreSkipped(s);
      tasks := Some(f.live);
    } else {
      var id := f.ids.value[0];
      assert id in r.byId;
      var revive := Mutate(OpSetState(id, TaskPending));
      var s1 := Apply(s, revive);
      var s2 := if f.current.None? then Apply(s1, ReadTask) else s1;
      es, tasks := LiveTaskIsKept(s2);
      if f.current.None? {
        FillsLater(s1, ReadTask, es, tasks);
        es := [ReadTask] + es;
      }
      FillsLater(s, revive, es, tasks);
      es := [revive] + es;
    }
  }

  /** A task that is alive when it is checked adds to the fill or ends it. */
  lemma LiveTaskIsKept(s: State) returns (es: seq<Event>, tasks: Option<seq<Task>>)
    requires s.past != [] && Enabled(s, ReadAlive) && s.mutex.fill.current.value.Some?
    requires s.Reg().Alive(s.mutex.fill.ids.value[0])
    ensures FillsWith(s, es, tasks) && tasks != Some(s.mutex.fill.live)
  {
    var s1 := Apply(s, ReadAlive);
    if s1.mutex.Unlocked? {
      Prepend(s, ReadAlive, []);
      es, tasks := [ReadAlive] + [], None;
    } else {
      es := RemovedTasksAreSkipped(s1);
      tasks := Some(s1.mutex.fill.live);
      FillsLater(s, ReadAlive, es, tasks);
      es := [ReadAlive] + es;
    }
  }

  lemma {:induction false} LengthsOf(ids: set<string>) returns (n: nat)
    ensures forall id :: id in ids ==> |id| < n
  {
    n := 0;
    if ids != {} {
      var id :| id in ids;
      n := LengthsOf(ids - {id});
      n := if |id| < n then n else |id| + 1;
      assert forall other :: other in ids ==> other == id || other in ids - {id};
    }
  }

  /** A fill that has not read its ids yet can be thrown off in any case. */
  lemma NewFillTears(s: State) returns (es: seq<Event>, tasks: Option<seq<Task>>)
    requires Inv(s) && s.mutex.Filling? && s.mutex.fill.ids.None? && OnCourse(s.Reg(), s.mutex.fill)
    ensures FillsWith(s, es, tasks) && tasks != Recompute(s.Reg(), s.mutex.fill.caller.group)
  {
    var g, r := s.mutex.fill.caller.group, s.Reg();
    if r.Ids(g) == [] {
      var n := LengthsOf(r.byId.Keys);
      var id := seq(n, _ => 'x');
      var register := Mutate(OpRegister(Task(id, 0, g, "", ZERO_TIME, TaskPending)));
      var s1 := Apply(s, register);
      assert s1.Reg().Ids(g) == [id];
      var s2 := Apply(s1, ReadIds);
      var s3 := Apply(s2, ReadTask);
      es, tasks := LiveTaskIsKept(s3);
      FillsLater(s2, ReadTask, es, tasks);
      FillsLater(s1, ReadIds, [ReadTask] + es, tasks);
      FillsLater(s, register, [ReadIds] + ([ReadTask] + es), tasks);
      es := [register] + ([ReadIds] + ([ReadTask] + es));
    } else {
      var s1 := Apply(s, ReadIds);
      ReadIdsStartsOnCourse(s);
      es, tasks := UncheckedTasksTear(s1);
      FillsLater(s, ReadIds, es, tasks);
      es := [ReadIds] + es;
    }
  }

  /** All ids are checked and `live` is what will be stored, or was. */
  ghost predicate ReadOut(s: State, g: string, live: seq<Task>) {
    match s.mutex
    case Filling(f) => f.ids == Some([]) && f.live == live && f.caller.group == g
    case Unlocked => g in s.cache && s.cache[g].tasks == Some(live)
  }

  lemma {:induction false} ReadOutStays(s: State, es: seq<Event>, g: string, live: seq<Task>)
    requires ReadOut(s, g, live) && CanRun(s, es) && NoLookup(es)
    ensures ReadOut(Exec(s, es), g, live)
    decreases |es|
  {
    if es != [] {
      assert !es[0].Lookup?;
      assert forall k :: 0 <= k < |es| - 1 ==> es[1..][k] == es[k + 1];
      ReadOutStays(Apply(s, es[0]), es[1..], g, live);
    }
  }

  /** Exactly when a fill can go wrong: while its version stands, some
      continuation stores something else than a recompute gave when its version
      was read, if and only if it has not yet checked the last of its ids. */
  lemma FillCanTearIffStillReading(s: State)
    requires Inv(s) && s.mutex.Filling? && s.Reg().Version(s.mutex.fill.caller.group) == s.mutex.fill.caller.version
    ensures var c := s.mutex.fill.caller;
      (exists es, tasks :: FillsWith(s, es, tasks) && !Exact(s.past, c.group, tasks, c.at))
      <==> s.mutex.fill.ids != Some([])
  {
    var f, c := s.mutex.fill, s.mutex.fill.caller;
    LaterRecomputesAlike(s.past, c.at, |s.past| - 1, c.group);
    if f.ids == Some([]) {
      forall es, tasks | FillsWith(s, es, tasks) ensures Exact(s.past, c.group, tasks, c.at) {
        ReadOutStays(s, es, c.group, f.live);
      }
    } else {
      var es, tasks := FillTears(s);
      assert FillsWith(s, es, tasks) && !Exact(s.past, c.group, tasks, c.at);
    }
  }

  lemma FillTears(s: State) returns (es: seq<Event>, tasks: Option<seq<Task>>)
    requires Inv(s) && s.mutex.Filling? && s.Reg().Version(s.mutex.fill.caller.group) == s.mutex.fill.caller.version
    requires s.mutex.fill.ids != Some([])
    ensures FillsWith(s, es, tasks) && tasks != Recompute(s.Reg(), s.mutex.fill.caller.group)
  {
    hide Historical, EntryOk;
    if s.mutex.fill.ids.None? {
      es, tasks := NewFillTears(s);
    } else {
      es, tasks := UncheckedTasksTear(s);
    }
  }

  /** `c` is served a list that was not what a recompute gave when `c` read the
      version. */
  ghost predicate ServedTorn(s: State, es: seq<Event>, c: nat)
    requires c in s.callers
  {
    CanRun(s, es)
    && var t := Exec(s, es);
       |t.hits| == |s.hits| + 1
       && var h := t.hits[|s.hits|];
          h.caller == s.callers[c] && !Exact(t.past, h.caller.group, h.entry.tasks, h.caller.at)
  }

  lemma {:induction false} RunsExtend(s: State, es: seq<Event>, e: Event)
    requires CanRun(s, es) && Exec(s, es).past != [] && Enabled(Exec(s, es), e)
    ensures Apply(Exec(s, es), e).past != []
    ensures CanRun(s, es + [e]) && Exec(s, es + [e]) == Apply(Exec(s, es), e)
    decreases |es|
  {
    if es == [] {
      assert [e][1..] == [];
    } else {
      RunsExtend(Apply(s, es[0]), es[1..], e);
      assert (es + [e])[1..] == es[1..] + [e];
    }
  }

  /** The other side of `SerialHitsAreExact`: whenever a caller has read the
      version of a fill in progress that still has ids to check, it can be
      served a torn list. */
  lemma OverlapWithFillServesTorn(s: State, c: nat) returns (es: seq<Event>)
    requires Inv(s) && c in s.callers && s.mutex.Filling? && s.mutex.fill.ids != Some([])
    requires var k, f := s.callers[c], s.mutex.fill.caller;
      k.group == f.group && k.version == f.version == s.Reg().Version(f.group)
    ensures ServedTorn(s, es, c)
  {
    var k, tasks := s.callers[c], None;
    LaterRecomputesAlike(s.past, k.at, |s.past| - 1, k.group);
    es, tasks := FillTears(s);
    hide Inv, Recompute, CanRun, Exec, Historical;
    RunsExtend(s, es, Lookup(c));
    es := es + [Lookup(c)];
  }

  /** The same for two callers that both wait with the version that stands,
      when no list is cached for it. */
  lemma OverlapOfWaitersServesTorn(s: State, c: nat, d: nat) returns (es: seq<Event>)
    requires Inv(s) && c in s.callers && d in s.callers && c != d && s.mutex.Unlocked?
    requires var k, l := s.callers[c], s.callers[d];
      && k.group == l.group && k.version == l.version == s.Reg().Version(k.group)
      && !(k.group in s.cache && s.cache[k.group].version == k.version)
    ensures ServedTorn(s, es, c)
  {
    StepKeepsInv(s, Lookup(d));
    es := OverlapWithFillServesTorn(Apply(s, Lookup(d)), c);
    hide Inv, Recompute;
    Prepend(s, Lookup(d), es);
    es := [Lookup(d)] + es;
  }

  lemma {:induction false} BoundOf(callers: set<nat>) returns (n: nat)
    ensures forall c :: c in callers ==> c < n
  {
    n := 0;
    if callers != {} {
      var c :| c in callers;
      n := BoundOf(callers - {c});
      n := if c < n then n else c + 1;
      assert forall other :: other in callers ==> other == c || other in callers - {c};
    }
  }

  /** A single waiter is enough, as a new caller can always read the same
      version and look up first. */
  lemma WaiterCanBeServedTorn(s: State, c: nat) returns (es: seq<Event>)
    requires Inv(s) && c in s.callers && s.mutex.Unlocked?
    requires var k := s.callers[c];
      && k.version == s.Reg().Version(k.group)
      && !(k.group in s.cache && s.cache[k.group].version == k.version)
    ensures ServedTorn(s, es, c)
  {
    var d := BoundOf(s.callers.Keys);
    assert d !in s.callers;
    var read := ReadVersion(d, s.callers[c].group);
    StepKeepsInv(s, read);
    es := OverlapOfWaitersServesTorn(Apply(s, read), c, d);
    hide Inv, Recompute;
    Prepend(s, read, es);
    es := [read] + es;
  }

  /** A whole run: `a` is registered, two callers read its group's version, and
      the second is served a torn list. */
  lemma OverlappingHitCanBeTorn(a: Task) returns (es: seq<Event>)
    ensures CanRun(INIT, es) && |Exec(INIT, es).hits| == 1
    ensures var s := Exec(INIT, es);
      var h := s.hits[0]; !Exact(s.past, h.caller.group, h.entry.tasks, h.caller.at)
  {
    InitHasInv();
    var register, read1, read2 := Mutate(OpRegister(a)), ReadVersion(1, a.group), ReadVersion(2, a.group);
    var s1 := Apply(INIT, register);
    var s2 := Apply(s1, read1);
    var s3 := Apply(s2, read2);
    hide Inv, Recompute, TaskRegistry.Apply;
    StepKeepsInv(INIT, register);
    StepKeepsInv(s1, read1);
    StepKeepsInv(s2, read2);
    es := OverlapOfWaitersServesTorn(s3, 1, 2);
    Prepend(s2, read2, es);
    Prepend(s1, read1, [read2] + es);
    Prepend(INIT, register, [read1] + ([read2] + es));
    es := [register] + ([read1] + ([read2] + es));
  }
}
