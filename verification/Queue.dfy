/** The bounded waiting queue: a binary heap on (DueAt, ID), with the sifting
    of Go's `container/heap` written out. */
module WaitingQueue {
  import opened Model

  /** Go's `<` on strings. */
  predicate IdLess(a: string, b: string) {
    b != "" && (a == "" || a[0] < b[0] || (a[0] == b[0] && IdLess(a[1..], b[1..])))
  }

  predicate Less(a: Task, b: Task) {
    if a.dueAt == b.dueAt then IdLess(a.id, b.id) else a.dueAt < b.dueAt
  }

  /** `a` may come no later than `b`. */
  predicate AtMost(a: Task, b: Task) {
    !Less(b, a)
  }

  // ---------- The order ----------

  lemma {:induction false} IdLessIsStrictTotal(a: string, b: string)
    ensures !(IdLess(a, b) && IdLess(b, a))
    ensures IdLess(a, b) || IdLess(b, a) || a == b
  {
    if a != "" && b != "" && a[0] == b[0] {
      IdLessIsStrictTotal(a[1..], b[1..]);
      assert a == [a[0]] + a[1..] && b == [b[0]] + b[1..];
    }
  }

  lemma {:induction false} IdLessTransitive(a: string, b: string, c: string)
    requires IdLess(a, b) && IdLess(b, c)
    ensures IdLess(a, c)
  {
    if a != "" && a[0] == b[0] == c[0] {
      IdLessTransitive(a[1..], b[1..], c[1..]);
    }
  }

  /** Where two strings first differ: one is the beginning of the other, or the
      characters there decide. */
  ghost predicate DecidedAt(a: string, b: string, k: nat) {
    && k <= |a| && k <= |b| && a[..k] == b[..k]
    && (k == |a| < |b| || (k < |a| && k < |b| && a[k] < b[k]))
  }

  lemma SameStart(a: string, b: string, k: nat)
    requires k <= |a| && k <= |b| && a[..k] == b[..k]
    ensures k > 0 ==> a[0] == b[0]
  {
    if k > 0 {
      assert a[0] == a[..k][0] && b[0] == b[..k][0];
    }
  }

  /** Ids go in lexicographic order. */
  lemma {:induction false} IdLessIsLexicographic(a: string, b: string)
    ensures IdLess(a, b) <==> exists k: nat :: DecidedAt(a, b, k)
  {
    if a == "" || b == "" || a[0] != b[0] {
      if IdLess(a, b) {
        assert DecidedAt(a, b, 0);
      }
      if k: nat :| DecidedAt(a, b, k) {
        SameStart(a, b, k);
      }
    } else {
      IdLessIsLexicographic(a[1..], b[1..]);
      if k: nat :| DecidedAt(a[1..], b[1..], k) {
        assert a[..k + 1] == [a[0]] + a[1..][..k] && b[..k + 1] == [b[0]] + b[1..][..k];
        assert DecidedAt(a, b, k + 1);
      }
      if k: nat :| DecidedAt(a, b, k) {
        assert a[1..][..k - 1] == a[..k][1..] && b[1..][..k - 1] == b[..k][1..];
        assert DecidedAt(a[1..], b[1..], k - 1);
      }
    }
  }

  /** What comes first in the queue: the earlier due time, and with equal due
      times the lexicographically smaller id. */
  lemma EarlierDueThenSmallerId(x: Task, y: Task)
    ensures Less(x, y) <==> x.dueAt < y.dueAt || (x.dueAt == y.dueAt && exists k: nat :: DecidedAt(x.id, y.id, k))
  {
    IdLessIsLexicographic(x.id, y.id);
  }

  lemma AtMostTransitive(a: Task, b: Task, c: Task)
    requires AtMost(a, b) && AtMost(b, c)
    ensures AtMost(a, c)
  {
    IdLessIsStrictTotal(a.id, b.id);
    IdLessIsStrictTotal(b.id, c.id);
    if Less(c, a) && a.dueAt == b.dueAt == c.dueAt && a.id != b.id {
      IdLessTransitive(c.id, a.id, b.id);
    }
  }

  /** The heap order is a total preorder; ties have the same due time and id. */
  lemma OrderLaws()
    ensures forall a, b, c :: AtMost(a, b) && AtMost(b, c) ==> AtMost(a, c)
    ensures forall a, b :: AtMost(a, b) || AtMost(b, a)
    ensures forall a, b :: AtMost(a, b) && AtMost(b, a) ==> a.dueAt == b.dueAt && a.id == b.id
  {
    forall a, b, c | AtMost(a, b) && AtMost(b, c) ensures AtMost(a, c) {
      AtMostTransitive(a, b, c);
    }
    forall a: Task, b: Task
      ensures AtMost(a, b) || AtMost(b, a)
      ensures AtMost(a, b) && AtMost(b, a) ==> a.dueAt == b.dueAt && a.id == b.id
    {
      IdLessIsStrictTotal(a.id, b.id);
    }
  }

  ghost predicate Sorted(s: seq<Task>) {
    forall i, j :: 0 <= i < j < |s| ==> AtMost(s[i], s[j])
  }

  /** No two different tasks share due time and id; tasks with distinct ids,
      as publishing gives them, have no ties. */
  ghost predicate NoTies(bag: multiset<Task>) {
    forall t, u :: t in bag && u in bag && t.dueAt == u.dueAt && t.id == u.id ==> t == u
  }

  /** Without ties there is only one sorted arrangement of a bag of tasks,
      whatever the heap layout it came from. */
  lemma {:induction false} SortedArrangementIsUnique(a: seq<Task>, b: seq<Task>)
    requires Sorted(a) && Sorted(b) && multiset(a) == multiset(b) && NoTies(multiset(a))
    ensures a == b
  {
    assert |a| == |multiset(a)| == |multiset(b)| == |b|;
    if a != [] {
      LeastsAgree(a, b);
      RestsAgree(a, b);
      hide AtMost;
      SortedArrangementIsUnique(a[1..], b[1..]);
      assert a == [a[0]] + a[1..] && b == [b[0]] + b[1..];
    }
  }

  /** And with a tie there are two. */
  lemma TiesHaveTwoArrangements(t: Task, u: Task)
    requires t != u && t.dueAt == u.dueAt && t.id == u.id
    ensures Sorted([t, u]) && Sorted([u, t]) && multiset([t, u]) == multiset([u, t]) && [t, u] != [u, t]
  {
    IdLessIsStrictTotal(t.id, u.id);
    assert [t, u][0] != [u, t][0];
  }

  lemma RestsAgree(a: seq<Task>, b: seq<Task>)
    requires a != [] && b != [] && multiset(a) == multiset(b) && a[0] == b[0]
    ensures multiset(a[1..]) == multiset(b[1..])
    ensures NoTies(multiset(a)) ==> NoTies(multiset(a[1..]))
  {
    FirstOfBag(a);
    FirstOfBag(b);
    assert multiset(a[1..]) == multiset(a) - multiset{a[0]} == multiset(b[1..]);
  }

  lemma FirstOfBag(s: seq<Task>)
    requires s != []
    ensures multiset(s) == multiset{s[0]} + multiset(s[1..])
  {
    assert s == [s[0]] + s[1..];
  }

  lemma LeastsAgree(a: seq<Task>, b: seq<Task>)
    requires a != [] && b != [] && Sorted(a) && Sorted(b) && multiset(a) == multiset(b) && NoTies(multiset(a))
    ensures a[0] == b[0]
  {
    assert a[0] in multiset(b) && b[0] in multiset(a);
    var i :| 0 <= i < |b| && b[i] == a[0];
    var j :| 0 <= j < |a| && a[j] == b[0];
    OrderLaws();
    assert AtMost(a[0], a[j]) && AtMost(b[0], b[i]);
  }

  // ---------- The heap ----------

  function Parent(j: nat): nat {
    if j == 0 then 0 else (j - 1) / 2
  }

  ghost predicate IsHeap(s: seq<Task>) {
    forall j :: 0 < j < |s| ==> AtMost(s[Parent(j)], s[j])
  }

  /** The root of a heap comes no later than any element. */
  lemma {:induction false} RootIsLeast(s: seq<Task>, k: nat)
    requires IsHeap(s) && k < |s|
    ensures AtMost(s[0], s[k])
  {
    OrderLaws();
    if k > 0 {
      RootIsLeast(s, Parent(k));
    }
  }

  /** Heap order alone makes at most two tasks sorted; with three, and with any
      number from there on, it does not. */
  lemma SmallHeapsAreSorted(s: seq<Task>)
    requires IsHeap(s) && |s| <= 2
    ensures Sorted(s)
  {
    if |s| == 2 {
      assert AtMost(s[Parent(1)], s[1]);
    }
  }

  lemma LargerHeapsNeedNotBeSorted(n: nat)
    requires n >= 3
    ensures exists s :: |s| == n && IsHeap(s) && !Sorted(s)
  {
    var t := (d: Time) => Task("", 0, "", "", d, TaskPending);
    var s := seq(n, i => if i == 0 then t(1) else if i == 1 then t(3) else if i == 2 then t(2) else t(4));
    forall j | 0 < j < n ensures AtMost(s[Parent(j)], s[j]) {
      assert Parent(j) < j;
    }
    assert !AtMost(s[1], s[2]);
  }

  /** All heap edges hold except the one above `j`, which children of `j`
      may skip over. */
  ghost predicate HeapExceptAbove(s: seq<Task>, j: nat) {
    && (forall k :: 0 < k < |s| && k != j ==> AtMost(s[Parent(k)], s[k]))
    && (forall k :: 0 < k < |s| && Parent(k) == j && j != 0 ==> AtMost(s[Parent(j)], s[k]))
  }

  /** Within the first `n` slots all heap edges hold except those below `i`,
      which the parent of `i` may skip over. */
  ghost predicate HeapExceptBelow(s: seq<Task>, i: nat, n: nat)
    requires n <= |s|
  {
    && (forall k :: 0 < k < n && Parent(k) != i ==> AtMost(s[Parent(k)], s[k]))
    && (forall k :: 0 < k < n && Parent(k) == i && i != 0 ==> AtMost(s[Parent(i)], s[k]))
  }

  /** Sifting up: exchanging `j` with its later parent moves the gap there. */
  lemma AboveMovesUp(s: seq<Task>, j: nat)
    requires 0 < j < |s| && HeapExceptAbove(s, j) && Less(s[j], s[Parent(j)])
    ensures HeapExceptAbove(s[Parent(j) := s[j]][j := s[Parent(j)]], Parent(j))
  {
    var i := Parent(j);
    var t := s[i := s[j]][j := s[i]];
    OrderLaws();
    forall k | 0 < k < |s| && k != i ensures AtMost(t[Parent(k)], t[k]) {
      assert k != j ==> AtMost(s[Parent(k)], s[k]);
    }
    forall k | 0 < k < |s| && Parent(k) == i && i != 0 ensures AtMost(t[Parent(i)], t[k]) {
      assert AtMost(s[Parent(i)], s[i]);
      assert k != j ==> AtMost(s[i], s[k]);
    }
  }

  /** Sifting down: exchanging `i` with its least child `j` moves the gap to `j`. */
  lemma BelowMovesDown(s: seq<Task>, i: nat, j: nat, n: nat)
    requires n <= |s| && HeapExceptBelow(s, i, n)
    requires i < j < n && Parent(j) == i && Less(s[j], s[i])
    requires forall k :: 0 < k < n && Parent(k) == i ==> AtMost(s[j], s[k])
    ensures HeapExceptBelow(s[i := s[j]][j := s[i]], j, n)
  {
    var t := s[i := s[j]][j := s[i]];
    IdLessIsStrictTotal(s[i].id, s[j].id);
    forall k | 0 < k < n && Parent(k) != j ensures AtMost(t[Parent(k)], t[k]) {
      if Parent(k) != i && k == i {
        assert AtMost(s[Parent(i)], s[j]);
      }
    }
    forall k | 0 < k < n && Parent(k) == j ensures AtMost(t[Parent(j)], t[k]) {
      assert AtMost(s[Parent(k)], s[k]);
    }
  }

  /** The child of `i` that sifting down compares with `i`. */
  function LeastChild(s: seq<Task>, i: nat, n: nat): (j: nat)
    requires 2 * i + 1 < n <= |s|
    ensures j < n && Parent(j) == i
  {
    var j1 := 2 * i + 1;
    var j2 := j1 + 1;
    if j2 < n && Less(s[j2], s[j1]) then j2 else j1
  }

  lemma LeastChildDecides(s: seq<Task>, i: nat, n: nat)
    requires 2 * i + 1 < n <= |s|
    ensures var j := LeastChild(s, i, n);
      && (forall k :: 0 < k < n && Parent(k) == i ==> AtMost(s[j], s[k]))
      && (!Less(s[j], s[i]) ==> forall k :: 0 < k < n && Parent(k) == i ==> AtMost(s[i], s[k]))
  {
    var j := LeastChild(s, i, n);
    forall k | 0 < k < n && Parent(k) == i
      ensures AtMost(s[j], s[k]) && (!Less(s[j], s[i]) ==> AtMost(s[i], s[k]))
    {
      assert k == 2 * i + 1 || k == 2 * i + 2;
      OrderLaws();
    }
  }

  /** Sifting down ends when no child of `i` comes before it. */
  lemma BelowIsRestored(s: seq<Task>, i: nat, n: nat)
    requires n <= |s| && HeapExceptBelow(s, i, n)
    requires forall k :: 0 < k < n && Parent(k) == i ==> AtMost(s[i], s[k])
    ensures IsHeap(s[..n])
  {
    forall k | 0 < k < n ensures AtMost(s[Parent(k)], s[k]) {
      if Parent(k) == i {
        assert AtMost(s[i], s[k]);
      }
    }
  }

  /** A task that does not come before its parent is not sifted up. */
  predicate StaysLast(s: seq<Task>, task: Task) {
    s != [] ==> !Less(task, s[Parent(|s|)])
  }

  datatype EnqueueResult = Accepted | ErrFull

  class Queue {
    var items: seq<Task>
    const limit: nat

    ghost predicate Valid()
      reads this
    {
      1 <= limit && |items| <= limit && IsHeap(items)
    }

    ghost function Bag(): multiset<Task>
      reads this
    {
      multiset(items)
    }

    constructor (size: int)
      ensures Valid() && items == [] && limit == if size < 1 then 1 else size
    {
      limit := if size < 1 then 1 else size;
      items := [];
    }

    method Swap(i: nat, j: nat)
      requires i < |items| && j < |items|
      modifies this
      ensures items == old(items[i := items[j]][j := items[i]])
      ensures Bag() == old(Bag())
    {
      items := items[i := items[j]][j := items[i]];
    }

    method Up(last: nat)
      requires last < |items| && HeapExceptAbove(items, last)
      modifies this
      ensures IsHeap(items) && Bag() == old(Bag()) && |items| == old(|items|)
      ensures !Less(old(items)[last], old(items)[Parent(last)]) ==> items == old(items)
    {
      var j: nat := last;
      while true
        invariant j < |items| == old(|items|)
        invariant HeapExceptAbove(items, j) && Bag() == old(Bag())
        invariant j == last ==> items == old(items)
        invariant j != last ==> Less(old(items)[last], old(items)[Parent(last)])
        decreases j
      {
        var i := Parent(j);
        if i == j || !Less(items[j], items[i]) {
          return;
        }
        AboveMovesUp(items, j);
        Swap(i, j);
        j := i;
      }
    }

    method Down(top: nat, n: nat)
      requires top < n <= |items| && HeapExceptBelow(items, top, n)
      modifies this
      ensures |items| == old(|items|) && Bag() == old(Bag()) && IsHeap(items[..n]) && items[n..] == old(items[n..])
    {
      var i: nat := top;
      while true
        invariant i < n <= |items| == old(|items|)
        invariant HeapExceptBelow(items, i, n) && Bag() == old(Bag()) && items[n..] == old(items[n..])
        decreases n - i
      {
        if 2 * i + 1 >= n {
          BelowIsRestored(items, i, n);
          return;
        }
        var j := LeastChild(items, i, n);
        if !Less(items[j], items[i]) {
          LeastChildDecides(items, i, n);
          BelowIsRestored(items, i, n);
          return;
        }
        LeastChildDecides(items, i, n);
        BelowMovesDown(items, i, j, n);
        Swap(i, j);
        i := j;
      }
    }

    method Push(task: Task)
      requires IsHeap(items)
      modifies this
      ensures IsHeap(items) && Bag() == old(Bag()) + multiset{task} && |items| == old(|items|) + 1
      ensures StaysLast(old(items), task) ==> items == old(items) + [task]
    {
      IdLessIsStrictTotal(task.id, task.id);
      items := items + [task];
      Up(|items| - 1);
    }

    method Pop() returns (task: Task)
      requires IsHeap(items) && items != []
      modifies this
      ensures IsHeap(items) && |items| == old(|items|) - 1
      ensures old(Bag()) == Bag() + multiset{task}
      ensures forall other :: other in old(items) ==> AtMost(task, other)
    {
      forall k | 0 <= k < |items| ensures AtMost(items[0], items[k]) {
        RootIsLeast(items, k);
      }
      var n := |items| - 1;
      Swap(0, n);
      if n > 0 {
        Down(0, n);
      }
      task := items[n];
      assert items == items[..n] + [task];
      items := items[..n];
    }

    /** A full queue refuses and changes nothing; otherwise exactly `task` joins. */
    method Enqueue(task: Task) returns (result: EnqueueResult)
      requires Valid()
      modifies this
      ensures Valid()
      ensures result == if |old(items)| >= limit then ErrFull else Accepted
      ensures Bag() == if result.ErrFull? then old(Bag()) else old(Bag()) + multiset{task}
      ensures result.ErrFull? ==> items == old(items)
      ensures result.Accepted? && StaysLast(old(items), task) ==> items == old(items) + [task]
    {
      if |items| >= limit {
        return ErrFull;
      }
      Push(task);
      return Accepted;
    }

    /** Removes a least task under (DueAt, ID). */
    method Next() returns (task: Option<Task>)
      requires Valid()
      modifies this
      ensures Valid()
      ensures task.None? <==> old(items) == []
      ensures task.None? ==> items == []
      ensures task.Some? ==> old(Bag()) == Bag() + multiset{task.value}
      ensures task.Some? ==> forall other :: other in old(items) ==> AtMost(task.value, other)
    {
      if items == [] {
        return None;
      }
      var t := Pop();
      return Some(t);
    }

    /** Reports a least task and removes nothing. */
    method Peek() returns (task: Option<Task>)
      requires Valid()
      ensures task.None? <==> items == []
      ensures task.Some? ==> task.value in items && forall other :: other in items ==> AtMost(task.value, other)
    {
      if items == [] {
        return None;
      }
      forall k | 0 <= k < |items| ensures AtMost(items[0], items[k]) {
        RootIsLeast(items, k);
      }
      return Some(items[0]);
    }

    /** A copy in heap order. */
    method Snapshot() returns (out: seq<Task>)
      requires Valid()
      ensures out == items && multiset(out) == Bag() && IsHeap(out)
      ensures |out| <= 2 ==> Sorted(out)
      ensures out != [] ==> forall other :: other in out ==> AtMost(out[0], other)
    {
      if |items| <= 2 {
        SmallHeapsAreSorted(items);
      }
      forall k | 0 <= k < |items| ensures AtMost(items[0], items[k]) {
        RootIsLeast(items, k);
      }
      return items;
    }

    /** Empties the queue into a sorted arrangement of what it held. */
    method Drain() returns (out: seq<Task>)
      requires Valid()
      modifies this
      ensures Valid() && items == []
      ensures Sorted(out) && multiset(out) == old(Bag())
    {
      out := [];
      while |items| > 0
        invariant IsHeap(items) && |items| <= limit
        invariant Sorted(out) && multiset(out) + Bag() == old(Bag())
        invariant forall x, y :: x in out && y in items ==> AtMost(x, y)
      {
        ghost var before, sofar := items, out;
        var task := Pop();
        assert forall y :: y in items ==> y in Bag() && y in multiset(before);
        assert task in multiset(before);
        out := out + [task];
      }
    }
  }

  /** Three enqueues after which the snapshot is not in due order. */
  method SnapshotNeedNotBeSorted(a: Task, b: Task, c: Task) returns (q: Queue, out: seq<Task>)
    requires a.dueAt < b.dueAt < c.dueAt
    ensures fresh(q) && q.Valid() && q.items == [a, c, b]
    ensures out == q.items && !Sorted(out)
  {
    q := new Queue(3);
    var first := q.Enqueue(a);
    var second := q.Enqueue(c);
    var third := q.Enqueue(b);
    out := q.Snapshot();
    assert !AtMost(out[1], out[2]);
  }
}
