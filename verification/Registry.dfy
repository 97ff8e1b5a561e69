/** The live task table with its per-group versions. */
module TaskRegistry {
  import opened Model

  datatype RegState = RegState(
    byId: map<string, Task>,
    versions: map<string, nat>,
    incarnations: map<string, nat>,
    groups: map<string, seq<string>>)
  {
    // What reading the Go maps gives, missing keys included.

    function Version(g: string): nat {
      if g in versions then versions[g] else 0
    }

    function Incarnation(id: string): nat {
      if id in incarnations then incarnations[id] else 0
    }

    function Ids(g: string): seq<string> {
      if g in groups then groups[g] else []
    }

    function Get(id: string): Option<Task> {
      if id in byId then Some(byId[id]) else None
    }

    predicate Alive(id: string) {
      id in byId && byId[id].state != TaskRemoved
    }

    function Bumped(g: string): map<string, nat> {
      versions[g := Version(g) + 1]
    }
  }

  const EMPTY := RegState(map[], map[], map[], map[])

  /** Registering a known id again appends it to its group once more. */
  function RegisterIn(r: RegState, task: Task): RegState {
    RegState(
      r.byId[task.id := task],
      r.Bumped(task.group),
      if task.id !in r.byId then r.incarnations[task.id := 1]
      else if r.byId[task.id].state in {TaskDone, TaskRemoved} then
        r.incarnations[task.id := r.Incarnation(task.id) + 1]
      else r.incarnations,
      r.groups[task.group := r.Ids(task.group) + [task.id]])
  }

  function Without(ids: seq<string>, id: string): (kept: seq<string>)
    ensures forall x :: x in kept <==> x in ids && x != id
  {
    if ids == [] then []
    else
      var last := ids[|ids| - 1];
      Without(ids[..|ids| - 1], id) + if last == id then [] else [last]
  }

  function DeleteFrom(r: RegState, id: string): RegState {
    if id !in r.byId then r
    else
      var g := r.byId[id].group;
      RegState(r.byId - {id}, r.Bumped(g), r.incarnations,
               if g in r.groups then r.groups[g := Without(r.groups[g], id)] else r.groups)
  }

  function SetStateIn(r: RegState, id: string, state: TaskState): RegState {
    if id !in r.byId then r
    else r.(byId := r.byId[id := r.byId[id].(state := state)], versions := r.Bumped(r.byId[id].group))
  }

  class Registry {
    var byId: map<string, Task>
    var versions: map<string, nat>
    var incarnations: map<string, nat>
    var groups: map<string, seq<string>>

    ghost function View(): RegState
      reads this
    {
      RegState(byId, versions, incarnations, groups)
    }

    constructor ()
      ensures View() == EMPTY
    {
      byId, versions, incarnations, groups := map[], map[], map[], map[];
    }

    method Bump(g: string)
      modifies this`versions
      ensures versions == old(View()).Bumped(g)
    {
      versions := versions[g := (if g in versions then versions[g] else 0) + 1];
    }

    method Register(task: Task)
      modifies this
      ensures View() == RegisterIn(old(View()), task)
    {
      if task.id in byId {
        var was := byId[task.id];
        if was.state == TaskDone || was.state == TaskRemoved {
          incarnations := incarnations[task.id := (if task.id in incarnations then incarnations[task.id] else 0) + 1];
        }
      } else {
        incarnations := incarnations[task.id := 1];
      }
      byId := byId[task.id := task];
      groups := groups[task.group := (if task.group in groups then groups[task.group] else []) + [task.id]];
      Bump(task.group);
    }

    method Delete(id: string)
      modifies this
      ensures View() == DeleteFrom(old(View()), id)
    {
      if id !in byId {
        return;
      }
      var g := byId[id].group;
      byId := byId - {id};
      if g in groups {
        var ids := groups[g];
        var kept := [];
        for k := 0 to |ids|
          invariant kept == Without(ids[..k], id)
        {
          assert ids[..k + 1][..k] == ids[..k];
          if ids[k] != id {
            kept := kept + [ids[k]];
          }
        }
        assert ids[..|ids|] == ids;
        groups := groups[g := kept];
      }
      Bump(g);
    }

    method SetState(id: string, state: TaskState)
      modifies this
      ensures View() == SetStateIn(old(View()), id, state)
    {
      if id in byId {
        var task := byId[id];
        byId := byId[id := task.(state := state)];
        Bump(task.group);
      }
    }

    method Version(g: string) returns (v: nat)
      ensures v == if g in versions then versions[g] else 0
    {
      return if g in versions then versions[g] else 0;
    }

    method GroupTasks(g: string) returns (ids: seq<string>)
      ensures ids == if g in groups then groups[g] else []
    {
      return if g in groups then groups[g] else [];
    }

    method Get(id: string) returns (task: Option<Task>)
      ensures task == if id in byId then Some(byId[id]) else None
    {
      return if id in byId then Some(byId[id]) else None;
    }

    method Alive(id: string) returns (alive: bool)
      ensures alive <==> id in byId && byId[id].state != TaskRemoved
    {
      return id in byId && byId[id].state != TaskRemoved;
    }
  }

  // ---------- Versions ----------

  datatype Op = OpRegister(task: Task) | OpDelete(id: string) | OpSetState(id: string, state: TaskState)

  function Apply(r: RegState, op: Op): RegState {
    match op
    case OpRegister(task) => RegisterIn(r, task)
    case OpDelete(id) => DeleteFrom(r, id)
    case OpSetState(id, state) => SetStateIn(r, id, state)
  }

  /** The hypothesis on callers: an id in the table is never registered again
      under another group. */
  predicate KeepsGroups(r: RegState, op: Op) {
    op.OpRegister? && op.task.id in r.byId ==> r.byId[op.task.id].group == op.task.group
  }

  /** A group lists only ids in the table that belong to it. */
  ghost predicate WellGrouped(r: RegState) {
    forall g, id :: id in r.Ids(g) ==> id in r.byId && r.byId[id].group == g
  }

  /** Everything about group `g` that a recompute reads is the same. */
  ghost predicate SameGroup(r: RegState, s: RegState, g: string) {
    r.Ids(g) == s.Ids(g) && forall id :: id in r.Ids(g) ==> r.Get(id) == s.Get(id)
  }

  /** Every mutation of a group strictly raises its version: a version never
      falls, and while it stays the same the group stays the same. */
  lemma StepRaisesVersion(r: RegState, op: Op, g: string)
    requires WellGrouped(r) && KeepsGroups(r, op)
    ensures WellGrouped(Apply(r, op))
    ensures r.Version(g) <= Apply(r, op).Version(g)
    ensures r.Version(g) == Apply(r, op).Version(g) ==> SameGroup(r, Apply(r, op), g)
  {
    var s := Apply(r, op);
    forall h, id | id in s.Ids(h) ensures id in s.byId && s.byId[id].group == h {
      assert id in r.Ids(h) || (op.OpRegister? && h == op.task.group && id == op.task.id);
    }
    if r.Version(g) == s.Version(g) {
      forall id | id in r.Ids(g) ensures r.Get(id) == s.Get(id) {
        assert id in r.byId && r.byId[id].group == g;
      }
    }
  }

  /** `s` is a later state of the table than `r`, as far as `g` can tell. */
  ghost predicate Later(r: RegState, s: RegState, g: string) {
    r.Version(g) <= s.Version(g) && (r.Version(g) == s.Version(g) ==> SameGroup(r, s, g))
  }

  /** Without the hypothesis versions do not tell: an id moved to another group
      leaves its old group's version standing while its task changes there. */
  lemma MovedIdChangesOldGroupSilently(a: Task)
    requires a.state != TaskRemoved && a.group != "other"
    ensures var r := RegisterIn(RegisterIn(EMPTY, a), a.(group := "other"));
      var s := SetStateIn(r, a.id, TaskRemoved);
      r.Version(a.group) == s.Version(a.group) && !SameGroup(r, s, a.group)
  {
    var r := RegisterIn(RegisterIn(EMPTY, a), a.(group := "other"));
    assert r.Ids(a.group) == [a.id];
    assert a.id in r.Ids(a.group);
  }

  // ---------- The table against its history ----------

  function Run(ops: seq<Op>): RegState {
    if ops == [] then EMPTY else Apply(Run(ops[..|ops| - 1]), ops[|ops| - 1])
  }

  /** The hypothesis on callers, along a run. */
  predicate RunKeepsGroups(ops: seq<Op>) {
    ops == [] || (RunKeepsGroups(ops[..|ops| - 1]) && KeepsGroups(Run(ops[..|ops| - 1]), ops[|ops| - 1]))
  }

  predicate RegistersId(op: Op, id: string) {
    op.OpRegister? && op.task.id == id
  }

  predicate SetsState(op: Op, id: string) {
    op.OpSetState? && op.id == id
  }

  /** Operation `i` is the last Register of `id`, which was not deleted since. */
  ghost predicate LastRegister(ops: seq<Op>, i: nat, id: string) {
    && i < |ops| && RegistersId(ops[i], id)
    && forall j: nat :: i < j < |ops| ==> !RegistersId(ops[j], id) && ops[j] != OpDelete(id)
  }

  /** The state of `id` was last set to `state` after operation `i`. */
  ghost predicate StateSetAfter(ops: seq<Op>, i: nat, id: string, state: TaskState) {
    exists j: nat :: i < j < |ops| && ops[j] == OpSetState(id, state)
      && forall k: nat :: j < k < |ops| ==> !SetsState(ops[k], id)
  }

  ghost predicate StateNotSetAfter(ops: seq<Op>, i: nat, id: string) {
    forall j: nat :: i < j < |ops| ==> !SetsState(ops[j], id)
  }

  /** `t` is what Register number `i` recorded, with the last state set since. */
  ghost predicate TaskSince(ops: seq<Op>, i: nat, id: string, t: Task) {
    && LastRegister(ops, i, id)
    && t == ops[i].task.(state := t.state)
    && (StateSetAfter(ops, i, id, t.state) || (StateNotSetAfter(ops, i, id) && t.state == ops[i].task.state))
  }

  lemma LastRegisterAfter(ops: seq<Op>, op: Op, i: nat, id: string)
    ensures LastRegister(ops + [op], i, id) <==>
      if i == |ops| then RegistersId(op, id)
      else i < |ops| && LastRegister(ops, i, id) && !RegistersId(op, id) && op != OpDelete(id)
  {
    var all := ops + [op];
    assert forall j: nat :: j < |ops| ==> all[j] == ops[j];
    if i < |ops| && LastRegister(all, i, id) {
      assert !RegistersId(all[|ops|], id) && all[|ops|] != OpDelete(id);
      forall j: nat | i < j < |ops| ensures !RegistersId(ops[j], id) && ops[j] != OpDelete(id) {
        assert !RegistersId(all[j], id) && all[j] != OpDelete(id);
      }
    }
  }

  lemma TaskSinceAfter(ops: seq<Op>, op: Op, i: nat, id: string, t: Task)
    requires TaskSince(ops, i, id, t) && !RegistersId(op, id) && op != OpDelete(id)
    ensures TaskSince(ops + [op], i, id, if SetsState(op, id) then t.(state := op.state) else t)
  {
    LastRegisterAfter(ops, op, i, id);
    var all, n := ops + [op], |ops|;
    hide LastRegister;
    assert i < n by {
      assert LastRegister(ops, i, id);
      RegisterIsAPosition(ops, i, id);
    }
    if SetsState(op, id) {
      assert all[n] == OpSetState(id, op.state);
      assert StateSetAfter(all, i, id, op.state);
    } else if StateSetAfter(ops, i, id, t.state) {
      var j: nat :| i < j < |ops| && ops[j] == OpSetState(id, t.state)
        && forall k: nat :: j < k < |ops| ==> !SetsState(ops[k], id);
      assert all[j] == OpSetState(id, t.state);
      assert StateSetAfter(all, i, id, t.state);
    }
  }

  lemma RegisterIsAPosition(ops: seq<Op>, i: nat, id: string)
    requires LastRegister(ops, i, id)
    ensures i < |ops|
  {
  }

  /** Over every run: what Get finds is the task of the last Register not deleted
      since, in the last state set since, and nothing if there is none. */
  lemma {:induction false} GetIsLastRegistered(ops: seq<Op>, id: string)
    ensures match Run(ops).Get(id)
      case Some(t) => exists i: nat :: TaskSince(ops, i, id, t)
      case None => forall i: nat :: !LastRegister(ops, i, id)
  {
    if ops != [] {
      var n := |ops| - 1;
      var most, op := ops[..n], ops[n];
      assert ops == most + [op];
      GetIsLastRegistered(most, id);
      assert Run(ops) == Apply(Run(most), op);
      var found := Run(most).Get(id);
      GetAfter(Run(most), op, id);
      forall i: nat ensures LastRegister(ops, i, id) <==>
        if i == n then RegistersId(op, id)
        else i < n && LastRegister(most, i, id) && !RegistersId(op, id) && op != OpDelete(id)
      {
        LastRegisterAfter(most, op, i, id);
      }
      hide LastRegister, Run, Apply;
      if RegistersId(op, id) {
        assert TaskSince(ops, n, id, op.task);
      } else if op != OpDelete(id) && found.Some? {
        var i: nat :| TaskSince(most, i, id, found.value);
        TaskSinceAfter(most, op, i, id, found.value);
      }
    }
  }

  lemma GetAfter(r: RegState, op: Op, id: string)
    ensures Apply(r, op).Get(id) ==
      if RegistersId(op, id) then Some(op.task)
      else if op == OpDelete(id) then None
      else if SetsState(op, id) && r.Get(id).Some? then Some(r.Get(id).value.(state := op.state))
      else r.Get(id)
  {
  }

  /** There is only one such task, so this says what Get finds exactly. */
  lemma TaskSinceIsUnique(ops: seq<Op>, id: string, i: nat, j: nat, t: Task, u: Task)
    requires TaskSince(ops, i, id, t) && TaskSince(ops, j, id, u)
    ensures i == j && t == u
  {
    assert i == j;
    if StateSetAfter(ops, i, id, t.state) && StateSetAfter(ops, i, id, u.state) {
      var k: nat :| i < k < |ops| && ops[k] == OpSetState(id, t.state)
        && forall m: nat :: k < m < |ops| ==> !SetsState(ops[m], id);
      var l: nat :| i < l < |ops| && ops[l] == OpSetState(id, u.state)
        && forall m: nat :: l < m < |ops| ==> !SetsState(ops[m], id);
      assert SetsState(ops[k], id) && SetsState(ops[l], id);
    }
  }

  /** How many times `id` has come to life: a Register of an unknown id starts to
      count anew, one of a finished or removed task counts one more. */
  ghost function Lives(ops: seq<Op>, id: string): nat {
    if ops == [] then 0
    else
      var most, op := ops[..|ops| - 1], ops[|ops| - 1];
      if !RegistersId(op, id) then Lives(most, id)
      else match Run(most).Get(id)
        case None => 1
        case Some(t) => if t.state in {TaskDone, TaskRemoved} then Lives(most, id) + 1 else Lives(most, id)
  }

  lemma {:induction false} IncarnationCountsLives(ops: seq<Op>, id: string)
    ensures Run(ops).Incarnation(id) == Lives(ops, id)
  {
    if ops != [] {
      IncarnationCountsLives(ops[..|ops| - 1], id);
    }
  }

  /** An operation changes something in `g`. */
  predicate Touches(r: RegState, op: Op, g: string) {
    match op
    case OpRegister(task) => task.group == g
    case OpDelete(id) => r.Get(id).Some? && r.Get(id).value.group == g
    case OpSetState(id, _) => r.Get(id).Some? && r.Get(id).value.group == g
  }

  ghost function TouchesIn(ops: seq<Op>, g: string): nat {
    if ops == [] then 0
    else
      var most, op := ops[..|ops| - 1], ops[|ops| - 1];
      TouchesIn(most, g) + if Touches(Run(most), op, g) then 1 else 0
  }

  /** A version is the number of operations that changed something in its group,
      so exactly those make a cached list of the group stale. */
  lemma {:induction false} VersionCountsTouches(ops: seq<Op>, g: string)
    ensures Run(ops).Version(g) == TouchesIn(ops, g)
  {
    if ops != [] {
      VersionCountsTouches(ops[..|ops| - 1], g);
    }
  }

  ghost predicate DeletedSince(ops: seq<Op>, i: nat, id: string) {
    exists j: nat :: i < j < |ops| && ops[j] == OpDelete(id)
  }

  /** The ids that the first `n` operations registered in `g` and that were not
      deleted since, in the order of their registrations. */
  ghost function Survivors(ops: seq<Op>, n: nat, g: string): seq<string>
    requires n <= |ops|
  {
    if n == 0 then []
    else
      Survivors(ops, n - 1, g) + Survivor(ops, n - 1, g)
  }

  /** The id that operation `i` registered in `g`, unless it was deleted since. */
  ghost function Survivor(ops: seq<Op>, i: nat, g: string): seq<string>
    requires i < |ops|
  {
    var op := ops[i];
    if op.OpRegister? && op.task.group == g && !DeletedSince(ops, i, op.task.id) then [op.task.id] else []
  }

  lemma SurvivorAfter(ops: seq<Op>, op: Op, i: nat, g: string)
    requires i < |ops|
    ensures Survivor(ops + [op], i, g)
      == if op.OpDelete? && Survivor(ops, i, g) == [op.id] then [] else Survivor(ops, i, g)
  {
    assert (ops + [op])[i] == ops[i];
    if ops[i].OpRegister? {
      DeletedAfter(ops, op, i, ops[i].task.id);
    }
  }

  lemma WithoutAppends(ids: seq<string>, more: seq<string>, id: string)
    requires |more| <= 1
    ensures Without(ids + more, id) == Without(ids, id) + if more == [id] then [] else more
  {
    if more == [] {
      assert ids + more == ids;
    } else {
      assert (ids + more)[..|ids|] == ids;
    }
  }

  lemma {:induction false} WithoutAbsent(ids: seq<string>, id: string)
    requires id !in ids
    ensures Without(ids, id) == ids
  {
    if ids != [] {
      WithoutAbsent(ids[..|ids| - 1], id);
    }
  }

  lemma DeletedAfter(ops: seq<Op>, op: Op, i: nat, id: string)
    requires i < |ops|
    ensures DeletedSince(ops + [op], i, id) <==> DeletedSince(ops, i, id) || op == OpDelete(id)
  {
    var all := ops + [op];
    assert all[|ops|] == op && forall j: nat :: j < |ops| ==> all[j] == ops[j];
    if DeletedSince(ops, i, id) {
      var j: nat :| i < j < |ops| && ops[j] == OpDelete(id);
      assert all[j] == OpDelete(id);
    }
  }

  lemma OneMoreSurvivor(ops: seq<Op>, n: nat, g: string)
    requires 0 < n <= |ops|
    ensures Survivors(ops, n, g) == Survivors(ops, n - 1, g) + Survivor(ops, n - 1, g)
  {
  }

  /** One more id, possibly the deleted one. */
  lemma OneMoreAfter(ids: seq<string>, more: seq<string>, ids': seq<string>, more': seq<string>, op: Op)
    requires |more| <= 1
    requires ids' == if op.OpDelete? then Without(ids, op.id) else ids
    requires more' == if op.OpDelete? && more == [op.id] then [] else more
    ensures ids' + more' == if op.OpDelete? then Without(ids + more, op.id) else ids + more
  {
    if op.OpDelete? {
      WithoutAppends(ids, more, op.id);
    }
  }

  /** A Delete takes its id out of what survived so far; nothing else does. */
  lemma {:induction false} SurvivorsAfter(ops: seq<Op>, op: Op, n: nat, g: string)
    requires n <= |ops|
    ensures Survivors(ops + [op], n, g)
      == if op.OpDelete? then Without(Survivors(ops, n, g), op.id) else Survivors(ops, n, g)
  {
    if n > 0 {
      var all := ops + [op];
      OneMoreSurvivor(ops, n, g);
      OneMoreSurvivor(all, n, g);
      SurvivorIsOne(ops, n - 1, g);
      hide Survivors, Survivor, Without, DeletedSince;
      SurvivorsAfter(ops, op, n - 1, g);
      SurvivorAfter(ops, op, n - 1, g);
      OneMoreAfter(Survivors(ops, n - 1, g), Survivor(ops, n - 1, g), Survivors(all, n - 1, g),
                   Survivor(all, n - 1, g), op);
    }
  }

  lemma SurvivorIsOne(ops: seq<Op>, i: nat, g: string)
    requires i < |ops|
    ensures |Survivor(ops, i, g)| <= 1
  {
  }

  /** Over every run that keeps ids in their groups: a group lists the ids
      registered in it and not deleted since, in the order they were registered,
      and every listed id is in the table. */
  lemma {:induction false} GroupIsSurvivors(ops: seq<Op>, g: string)
    requires RunKeepsGroups(ops)
    ensures WellGrouped(Run(ops)) && Run(ops).Ids(g) == Survivors(ops, |ops|, g)
  {
    if ops != [] {
      var n := |ops| - 1;
      var most, op := ops[..n], ops[n];
      assert ops == most + [op];
      GroupIsSurvivors(most, g);
      StepRaisesVersion(Run(most), op, g);
      SurvivorsAfter(most, op, n, g);
      assert !DeletedSince(ops, n, if op.OpRegister? then op.task.id else "");
      IdsAfter(Run(most), op, g);
    }
  }

  lemma IdsAfter(r: RegState, op: Op, g: string)
    requires WellGrouped(r)
    ensures Apply(r, op).Ids(g) ==
      match op
      case OpRegister(task) => if task.group == g then r.Ids(g) + [task.id] else r.Ids(g)
      case OpDelete(id) => Without(r.Ids(g), id)
      case OpSetState(_, _) => r.Ids(g)
  {
    hide Without;
    match op
    case OpRegister(_) =>
    case OpSetState(_, _) =>
    case OpDelete(id) =>
      if id in r.Ids(g) {
        assert id in r.byId && r.byId[id].group == g && g in r.groups;
      } else {
        WithoutAbsent(r.Ids(g), id);
      }
  }
}
