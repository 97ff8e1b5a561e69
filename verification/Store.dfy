/** The bounded task store: a ring buffer, a commit cursor and the marks of
    handed-off sequences. */
module TaskStore {
  import opened Model

  datatype AppendResult = Appended(sq: int) | ErrFull

  datatype CommitResult = Committed | ErrInvalidSequence

  /** What a store holds, free of the ring's layout. */
  datatype StoreState = StoreState(log: seq<Task>, capacity: nat, last: int, committed: int, dispatched: set<int>)

  function NewStore(capacity: int): StoreState {
    StoreState([], if capacity < 1 then 1 else capacity, 0, 0, {})
  }

  /** A failed append still consumes a sequence. */
  function AppendTo(s: StoreState, task: Task): (StoreState, AppendResult) {
    var next := s.last + 1;
    if |s.log| == s.capacity then (s.(last := next), ErrFull)
    else (s.(last := next, log := s.log + [task.(sequence := next)]), Appended(next))
  }

  function CommitTo(s: StoreState, sq: int): (StoreState, CommitResult) {
    if sq > s.last then (s, ErrInvalidSequence)
    else (s.(committed := if sq > s.committed then sq else s.committed), Committed)
  }

  function MarkIn(s: StoreState, sq: int, dispatched: bool): StoreState {
    if sq > s.last then s
    else s.(dispatched := if dispatched then s.dispatched + {sq} else s.dispatched - {sq})
  }

  /** The retained tasks with a sequence above `low` and at most `high`. */
  ghost function Between(log: seq<Task>, low: int, high: int): seq<Task> {
    if log == [] then []
    else
      var t := log[|log| - 1];
      Between(log[..|log| - 1], low, high) + if low < t.sequence <= high then [t] else []
  }

  /** The pending tasks not marked as handed off. */
  ghost function Retryable(log: seq<Task>, committed: int, dispatched: set<int>): seq<Task> {
    if log == [] then []
    else
      var t := log[|log| - 1];
      Retryable(log[..|log| - 1], committed, dispatched)
      + if t.sequence > committed && t.sequence !in dispatched then [t] else []
  }

  function MarkAll(s: StoreState, sqs: seq<int>, dispatched: bool): StoreState {
    if sqs == [] then s
    else MarkIn(MarkAll(s, sqs[..|sqs| - 1], dispatched), sqs[|sqs| - 1], dispatched)
  }

  /** Lies behind every query: sequences are positions, counted from one. */
  ghost predicate InSequence(log: seq<Task>) {
    forall i :: 0 <= i < |log| ==> log[i].sequence == i + 1
  }

  ghost predicate WellFormed(s: StoreState) {
    && 1 <= s.capacity
    && |s.log| <= s.capacity
    && InSequence(s.log)
    && |s.log| <= s.last
    && (|s.log| < s.last ==> |s.log| == s.capacity)
    && 0 <= s.committed <= s.last
    && (forall sq :: sq in s.dispatched ==> sq <= s.last)
  }

  /** A task is among the retryable ones if and only if it is retained, above
      the cursor and unmarked; each occurs once. */
  lemma {:induction false} RetryableIsExact(log: seq<Task>, committed: int, dispatched: set<int>)
    requires InSequence(log)
    ensures var out := Retryable(log, committed, dispatched);
      && (forall t :: t in out <==> t in log && t.sequence > committed && t.sequence !in dispatched)
      && (forall i, j :: 0 <= i < j < |out| ==> out[i].sequence < out[j].sequence)
  {
    if log != [] {
      var n := |log| - 1;
      RetryableIsExact(log[..n], committed, dispatched);
      assert log == log[..n] + [log[n]];
      assert forall t :: t in log[..n] ==> t.sequence <= n;
    }
  }

  /** A batch sets, or clears, exactly the listed marks up to the last sequence. */
  lemma {:induction false} MarkAllIsExact(s: StoreState, sqs: seq<int>, dispatched: bool)
    ensures var r := MarkAll(s, sqs, dispatched);
      && r == s.(dispatched := r.dispatched)
      && forall sq :: sq in r.dispatched <==>
           if sq in sqs && sq <= s.last then dispatched else sq in s.dispatched
  {
    if sqs != [] {
      var n := |sqs| - 1;
      MarkAllIsExact(s, sqs[..n], dispatched);
      assert sqs == sqs[..n] + [sqs[n]];
    }
  }

  function Clamp(x: int, n: nat): nat {
    if x < 0 then 0 else if x > n then n else x
  }

  ghost function Slice(log: seq<Task>, low: int, high: int): seq<Task> {
    if low <= high then log[Clamp(low, |log|)..Clamp(high, |log|)] else []
  }

  /** In a log kept in sequence a query by bounds is a slice. */
  lemma {:induction false} BetweenIsSlice(log: seq<Task>, low: int, high: int)
    requires InSequence(log)
    ensures Between(log, low, high) == Slice(log, low, high)
  {
    if log != [] {
      var rest := log[..|log| - 1];
      BetweenIsSlice(rest, low, high);
      assert log[|log| - 1].sequence == |log|;
      if low <= high {
        SliceFromPrefix(log, Clamp(low, |log|), Clamp(high, |log|));
      }
    }
  }

  lemma SliceFromPrefix<T>(log: seq<T>, i: nat, j: nat)
    requires log != [] && i <= j <= |log|
    ensures j < |log| ==> log[i..j] == log[..|log| - 1][i..j]
    ensures i < j == |log| ==> log[i..j] == log[..|log| - 1][i..] + [log[|log| - 1]]
  {
  }

  // ---------- Runs ----------

  datatype Op = OpAppend(task: Task) | OpCommit(sq: int) | OpMark(sq: int, dispatched: bool)

  function Apply(s: StoreState, op: Op): StoreState {
    match op
    case OpAppend(task) => AppendTo(s, task).0
    case OpCommit(sq) => CommitTo(s, sq).0
    case OpMark(sq, dispatched) => MarkIn(s, sq, dispatched)
  }

  function Run(capacity: int, ops: seq<Op>): StoreState {
    if ops == [] then NewStore(capacity) else Apply(Run(capacity, ops[..|ops| - 1]), ops[|ops| - 1])
  }

  /** How many appends a run holds: each consumes one sequence. */
  ghost function Appends(ops: seq<Op>): seq<Task> {
    if ops == [] then []
    else
      var op := ops[|ops| - 1];
      Appends(ops[..|ops| - 1]) + if op.OpAppend? then [op.task] else []
  }

  /** Every run leaves a bounded log: the first `capacity` appended tasks, the
      i-th with sequence i+1, while failed appends only burn sequences. */
  lemma {:induction false} RunIsBoundedLog(capacity: int, ops: seq<Op>)
    ensures var s := Run(capacity, ops); var tasks := Appends(ops);
      && WellFormed(s)
      && s.capacity == (if capacity < 1 then 1 else capacity)
      && s.last == |tasks|
      && |s.log| == (if |tasks| < s.capacity then |tasks| else s.capacity)
      && forall i :: 0 <= i < |s.log| ==> s.log[i] == tasks[i].(sequence := i + 1)
  {
    if ops != [] {
      RunIsBoundedLog(capacity, ops[..|ops| - 1]);
    }
  }

  /** The sequences appended by the first `i` operations of a run. */
  ghost function LastAt(ops: seq<Op>, i: nat): int
    requires i <= |ops|
  {
    |Appends(ops[..i])|
  }

  /** Operation `i` commits `sq`, which was appended by then. */
  ghost predicate CommitsAt(ops: seq<Op>, i: nat, sq: int) {
    i < |ops| && ops[i] == OpCommit(sq) && sq <= LastAt(ops, i)
  }

  ghost predicate MarksAt(ops: seq<Op>, i: nat, sq: int, dispatched: bool) {
    i < |ops| && ops[i] == OpMark(sq, dispatched) && sq <= LastAt(ops, i)
  }

  /** Whose last mark was set. */
  ghost predicate LastMarkSet(ops: seq<Op>, sq: int) {
    exists i: nat :: MarksAt(ops, i, sq, true) && forall j: nat :: i < j < |ops| ==> !MarksAt(ops, j, sq, false)
  }

  lemma EarlierLast(ops: seq<Op>, op: Op, i: nat)
    requires i <= |ops|
    ensures LastAt(ops + [op], i) == LastAt(ops, i)
  {
    assert (ops + [op])[..i] == ops[..i];
  }

  lemma EarlierCommits(ops: seq<Op>, op: Op, sq: int)
    ensures forall i: nat :: i < |ops| ==> (CommitsAt(ops + [op], i, sq) <==> CommitsAt(ops, i, sq))
    ensures forall i: nat, b :: i < |ops| ==> (MarksAt(ops + [op], i, sq, b) <==> MarksAt(ops, i, sq, b))
    ensures CommitsAt(ops + [op], |ops|, sq) <==> op == OpCommit(sq) && sq <= LastAt(ops, |ops|)
    ensures forall b :: MarksAt(ops + [op], |ops|, sq, b) <==> op == OpMark(sq, b) && sq <= LastAt(ops, |ops|)
  {
    forall i: nat | i <= |ops| ensures LastAt(ops + [op], i) == LastAt(ops, i) {
      EarlierLast(ops, op, i);
    }
  }

  lemma MarkSetAfter(ops: seq<Op>, op: Op, sq: int)
    ensures LastMarkSet(ops + [op], sq) <==>
      if op.OpMark? && op.sq == sq && sq <= LastAt(ops, |ops|) then op.dispatched else LastMarkSet(ops, sq)
  {
    EarlierCommits(ops, op, sq);
    var n, all := |ops|, ops + [op];
    hide MarksAt;
    if LastMarkSet(all, sq) && !MarksAt(all, n, sq, true) {
      var i: nat :| MarksAt(all, i, sq, true) && forall j: nat :: i < j < |all| ==> !MarksAt(all, j, sq, false);
      MarkIsAPosition(all, i, sq, true);
      assert MarksAt(ops, i, sq, true) && !MarksAt(all, n, sq, false);
      assert forall j: nat :: i < j < n ==> !MarksAt(all, j, sq, false);
    }
    if LastMarkSet(ops, sq) && !MarksAt(all, n, sq, false) {
      var i: nat :| MarksAt(ops, i, sq, true) && forall j: nat :: i < j < |ops| ==> !MarksAt(ops, j, sq, false);
      MarkIsAPosition(ops, i, sq, true);
      assert MarksAt(all, i, sq, true);
    }
  }

  lemma MarkIsAPosition(ops: seq<Op>, i: nat, sq: int, b: bool)
    requires MarksAt(ops, i, sq, b)
    ensures i < |ops|
  {
  }

  /** Over any run the cursor is the highest sequence ever committed when it was
      already appended (zero if none), and a sequence is marked exactly when the
      last mark made of it, once it was appended, was set. */
  lemma {:induction false} RunKeepsCursorAndMarks(capacity: int, ops: seq<Op>)
    ensures var s := Run(capacity, ops);
      && (s.committed == 0 || exists i: nat :: CommitsAt(ops, i, s.committed))
      && s.committed >= 0
      && (forall i: nat, sq :: CommitsAt(ops, i, sq) ==> sq <= s.committed)
      && (forall sq :: sq in s.dispatched <==> LastMarkSet(ops, sq))
  {
    if ops != [] {
      var n := |ops| - 1;
      var most, op := ops[..n], ops[n];
      assert ops == most + [op] && most[..n] == most;
      RunKeepsCursorAndMarks(capacity, most);
      RunIsBoundedLog(capacity, most);
      var s, r := Run(capacity, most), Run(capacity, ops);
      assert s.last == LastAt(most, n);
      forall sq ensures sq in r.dispatched <==> LastMarkSet(ops, sq) {
        MarkSetAfter(most, op, sq);
      }
      hide LastMarkSet, Run, MarksAt;
      CursorAfter(s, r, most, op);
    }
  }

  lemma CursorAfter(s: StoreState, r: StoreState, most: seq<Op>, op: Op)
    requires r == Apply(s, op) && s.last == LastAt(most, |most|)
    requires s.committed >= 0 && (s.committed == 0 || exists i: nat :: CommitsAt(most, i, s.committed))
    requires forall i: nat, sq :: CommitsAt(most, i, sq) ==> sq <= s.committed
    ensures r.committed >= 0 && (r.committed == 0 || exists i: nat :: CommitsAt(most + [op], i, r.committed))
    ensures forall i: nat, sq :: CommitsAt(most + [op], i, sq) ==> sq <= r.committed
  {
    var all, n := most + [op], |most|;
    EarlierCommits(most, op, r.committed);
    if r.committed != s.committed {
      assert CommitsAt(all, n, r.committed);
    } else if r.committed != 0 {
      var i: nat :| CommitsAt(most, i, s.committed);
      assert CommitsAt(all, i, r.committed);
    }
    forall i: nat, sq | CommitsAt(all, i, sq) ensures sq <= r.committed {
      EarlierCommits(most, op, sq);
      if i < n {
        assert CommitsAt(most, i, sq);
      }
    }
  }

  /** Reading the committed tasks from the start and then the pending ones
      gives the whole log. */
  lemma SinceThenPendingIsLog(s: StoreState)
    requires WellFormed(s)
    ensures Between(s.log, 0, s.committed) + Between(s.log, s.committed, s.last) == s.log
  {
    BetweenIsSlice(s.log, 0, s.committed);
    BetweenIsSlice(s.log, s.committed, s.last);
  }

  lemma SliceIsExact(log: seq<Task>, low: int, high: int)
    requires InSequence(log)
    ensures forall t :: t in Slice(log, low, high) <==> t in log && low < t.sequence <= high
    ensures forall k :: 0 <= k < |Slice(log, low, high)| ==>
              Slice(log, low, high)[k].sequence == Clamp(low, |log|) + k + 1
  {
    var out := Slice(log, low, high);
    forall t | t in log && low < t.sequence <= high ensures t in out {
      assert t == log[t.sequence - 1] == out[t.sequence - 1 - Clamp(low, |log|)];
    }
  }

  /** A query by bounds returns exactly the retained tasks within them, in
      strictly increasing sequence. */
  lemma BetweenIsExact(log: seq<Task>, low: int, high: int)
    requires InSequence(log)
    ensures var out := Between(log, low, high);
      && (forall t :: t in out <==> t in log && low < t.sequence <= high)
      && (forall i, j :: 0 <= i < j < |out| ==> out[i].sequence < out[j].sequence)
  {
    BetweenIsSlice(log, low, high);
    SliceIsExact(log, low, high);
    hide Between, Slice, InSequence;
  }

  /** A scan for a sequence agrees with indexing, so it finds the next task
      of the slice if there is one. */
  lemma FoundIsNext(log: seq<Task>, after: int, sq: int, found: Option<Task>)
    requires after < sq
    requires InSequence(log)
    requires found.Some? ==> found.value in log && found.value.sequence == sq
    requires found.None? ==> forall t :: t in log ==> t.sequence != sq
    ensures found == if 1 <= sq <= |log| then Some(log[sq - 1]) else None
    ensures Slice(log, after, sq) == if found.Some? then Slice(log, after, sq - 1) + [found.value]
      else Slice(log, after, sq - 1)
  {
    if 1 <= sq <= |log| {
      assert log[sq - 1] in log;
    }
  }

  // ---------- The classes ----------

  /** Where the `i`-th retained task sits in the ring. */
  function Slot(head: nat, i: nat, cap: nat): (k: nat)
    requires 0 < cap
    ensures k < cap
  {
    (head + i) % cap
  }

  class Ring {
    const buf: array<Task>
    const cap: nat
    var head: nat
    var count: nat

    ghost predicate Valid()
      reads this, buf
    {
      cap == buf.Length && 1 <= cap && head < cap && count <= cap
    }

    /** The retained tasks in insertion order. */
    ghost function Contents(): (s: seq<Task>)
      requires Valid()
      reads this, buf
      ensures |s| == count
    {
      seq(count, i requires 0 <= i < count && Valid() reads this, buf => buf[Slot(head, i, cap)])
    }

    constructor (capacity: int)
      ensures Valid() && fresh(buf) && count == 0
      ensures cap == if capacity < 1 then 1 else capacity
    {
      var size := if capacity < 1 then 1 else capacity;
      buf := new Task[size];
      cap := size;
      head, count := 0, 0;
    }

    /** Refuses when full; otherwise the task becomes the last one. */
    method Push(task: Task) returns (ok: bool)
      requires Valid()
      modifies this`count, buf
      ensures Valid() && ok == (old(count) < cap)
      ensures Contents() == if ok then old(Contents()) + [task] else old(Contents())
    {
      if count == cap {
        return false;
      }
      forall i | 0 <= i < count ensures Slot(head, i, cap) != Slot(head, count, cap) {
        DistinctSlots(head, i, count, cap);
      }
      buf[Slot(head, count, cap)] := task;
      count := count + 1;
      return true;
    }

    method Get(sq: int) returns (task: Option<Task>)
      requires Valid()
      ensures task.Some? ==> task.value in Contents() && task.value.sequence == sq
      ensures task.None? ==> forall t :: t in Contents() ==> t.sequence != sq
    {
      for i := 0 to count
        invariant forall j :: 0 <= j < i ==> Contents()[j].sequence != sq
      {
        var t := buf[Slot(head, i, cap)];
        assert t == Contents()[i];
        if t.sequence == sq {
          return Some(t);
        }
      }
      return None;
    }

    /** The `i`-th task that `Each` visits. */
    method At(i: nat) returns (task: Task)
      requires Valid() && i < count
      ensures task == Contents()[i]
    {
      return buf[Slot(head, i, cap)];
    }
  }

  /** Offsets below the capacity land in different slots of the ring. */
  lemma DistinctSlots(head: nat, i: nat, j: nat, cap: nat)
    requires head < cap && i < j < cap
    ensures Slot(head, i, cap) != Slot(head, j, cap)
  {
    var wrap := (x: nat) => if x < cap then x else x - cap;
    SlotWraps(head + i, cap);
    SlotWraps(head + j, cap);
    assert wrap(head + i) != wrap(head + j);
  }

  lemma SlotWraps(x: nat, cap: nat)
    requires x < 2 * cap
    ensures x % cap == if x < cap then x else x - cap
  {
    if x >= cap {
      assert x == 1 * cap + (x - cap);
    }
  }

  class Store {
    const ring: Ring
    var last: int
    var committed: int
    var dispatched: set<int>

    ghost function View(): StoreState
      requires ring.Valid()
      reads this, ring, ring.buf
    {
      StoreState(ring.Contents(), ring.cap, last, committed, dispatched)
    }

    ghost predicate Valid()
      reads this, ring, ring.buf
    {
      ring.Valid() && WellFormed(View())
    }

    constructor (capacity: int)
      ensures Valid() && fresh(ring) && fresh(ring.buf) && View() == NewStore(capacity)
      ensures ring.cap == (if capacity < 1 then 1 else capacity) && ring.Contents() == []
      ensures last == committed == 0 && dispatched == {}
    {
      ring := new Ring(capacity);
      last, committed, dispatched := 0, 0, {};
    }

    method Append(task: Task) returns (result: AppendResult)
      requires Valid()
      modifies this`last, ring`count, ring.buf
      ensures Valid() && (View(), result) == AppendTo(old(View()), task)
      ensures last == old(last) + 1
      ensures result == if |old(ring.Contents())| == ring.cap then ErrFull else Appended(last)
    {
      last := last + 1;
      var ok := ring.Push(task.(sequence := last));
      return if ok then Appended(last) else ErrFull;
    }

    method Commit(sq: int) returns (result: CommitResult)
      requires Valid()
      modifies this`committed
      ensures Valid() && (View(), result) == CommitTo(old(View()), sq)
      ensures result.ErrInvalidSequence? <==> sq > last
      ensures committed == if sq <= last && sq > old(committed) then sq else old(committed)
    {
      if sq > last {
        return ErrInvalidSequence;
      }
      if sq > committed {
        committed := sq;
      }
      return Committed;
    }

    method MarkDispatched(sq: int, mark: bool)
      requires Valid()
      modifies this`dispatched
      ensures Valid() && View() == MarkIn(old(View()), sq, mark)
      ensures forall x :: x in dispatched <==> if x == sq && sq <= last then mark else x in old(dispatched)
    {
      if sq > last {
        return;
      }
      if mark {
        dispatched := dispatched + {sq};
        return;
      }
      dispatched := dispatched - {sq};
    }

    method MarkDispatchedBatch(sqs: seq<int>, mark: bool)
      requires Valid()
      modifies this`dispatched
      ensures Valid() && View() == MarkAll(old(View()), sqs, mark)
      ensures forall x :: x in dispatched <==> if x in sqs && x <= last then mark else x in old(dispatched)
    {
      MarkAllIsExact(View(), sqs, mark);
      assert sqs[..|sqs|] == sqs;
      for k := 0 to |sqs|
        invariant Valid() && View() == MarkAll(old(View()), sqs[..k], mark)
      {
        assert sqs[..k + 1][..k] == sqs[..k];
        if sqs[k] > last {
          continue;
        }
        if mark {
          dispatched := dispatched + {sqs[k]};
        } else {
          dispatched := dispatched - {sqs[k]};
        }
      }
    }

    /** The retained tasks with `after` < sequence <= cursor. */
    method Since(after: int) returns (out: seq<Task>)
      requires Valid()
      ensures out == Between(View().log, after, committed)
    {
      ghost var log := View().log;
      BetweenIsSlice(log, after, committed);
      assert Slice(log, after, after) == [];
      hide Slice, Between;
      out := [];
      var sq := after + 1;
      while sq <= committed
        invariant after < sq && (sq <= committed + 1 || sq == after + 1)
        invariant InSequence(log) && log == View().log
        invariant out == Slice(log, after, sq - 1)
      {
        var task := ring.Get(sq);
        FoundIsNext(log, after, sq, task);
        if task.Some? {
          out := out + [task.value];
        }
        sq := sq + 1;
      }
    }

    /** The retained tasks above the cursor. */
    method Pending() returns (out: seq<Task>)
      requires Valid()
      ensures out == Between(View().log, committed, last)
    {
      ghost var log := View().log;
      out := [];
      for i := 0 to ring.count
        invariant out == Between(log[..i], committed, last)
      {
        var task := ring.At(i);
        assert log[..i + 1][..i] == log[..i];
        if task.sequence > committed {
          out := out + [task];
        }
      }
      assert log[..ring.count] == log;
    }

    method UndispatchedPending() returns (count: nat)
      requires Valid()
      ensures count == |Retryable(View().log, committed, dispatched)|
    {
      ghost var log := View().log;
      count := 0;
      for i := 0 to ring.count
        invariant count == |Retryable(log[..i], committed, dispatched)|
      {
        var task := ring.At(i);
        assert log[..i + 1][..i] == log[..i];
        if task.sequence > committed {
          if task.sequence !in dispatched {
            count := count + 1;
          }
        }
      }
      assert log[..ring.count] == log;
    }

    /** The highest pending sequence, or zero. */
    method HighestPending() returns (highest: int)
      requires Valid()
      ensures highest == if |View().log| > committed then |View().log| else 0
    {
      highest := 0;
      for i := 0 to ring.count
        invariant highest == if i > committed then i else 0
      {
        var task := ring.At(i);
        if task.sequence > committed && task.sequence > highest {
          highest := task.sequence;
        }
      }
    }
  }
}
