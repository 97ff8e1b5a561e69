/** The domain types shared by every component of the scheduler.
    Times are integers counted from Go's zero time; payloads and creation
    stamps carry no scheduling meaning and are dropped. */
module Model {
  datatype Option<+T> = None | Some(value: T)

  type Time = int

  /** The value for which `time.Time.IsZero` holds. */
  const ZERO_TIME: Time := 0

  type ExecutorId = string

  datatype TaskState = TaskPending | TaskDue | TaskDispatched | TaskRunning | TaskDone | TaskRemoved

  datatype Task = Task(
    id: string,
    sequence: int,
    group: string,
    dedupeKey: string,
    dueAt: Time,
    state: TaskState)

  datatype Instance = Instance(id: string, taskId: string, dedupeKey: string)
}

/** Scheduling windows (half-open intervals of time). */
module Clock {
  import opened Model

  datatype Window = Window(begin: Time, end: Time) {
    predicate Contains(due: Time) {
      begin <= due < end
    }
  }

  /** The tick interval around `now`. A non-positive interval leaves `now`
      where it is, as `time.Truncate` does. */
  function NextWindow(now: Time, interval: int): Window {
    var start := if interval <= 0 then now else now / interval * interval;
    Window(start, start + interval)
  }

  lemma MultiplesAreApart(a: int, b: int, d: int)
    requires d > 0
    ensures a < b ==> a * d + d <= b * d
  {
    if a < b {
      ProductIsNonNegative(b - a - 1, d);
      assert (b - a - 1) * d == b * d - a * d - d;
    }
  }

  lemma ProductIsNonNegative(x: int, y: int)
    requires x >= 0 && y >= 0
    ensures x * y >= 0
  {
  }

  /** The window of `now` begins at a multiple of the interval, is one interval
      long, and has `now` in it; without a positive interval it is `now`
      itself, going back. */
  lemma WindowIsAligned(now: Time, interval: int)
    ensures var w := NextWindow(now, interval);
      && w.end == w.begin + interval
      && (interval > 0 ==> w.begin % interval == 0 && w.Contains(now))
      && (interval <= 0 ==> w.begin == now)
  {
    if interval > 0 {
      var a := now / interval;
      assert now == a * interval + now % interval;
      MultipleHasNoRest(a, interval);
    }
  }

  lemma MultipleHasNoRest(a: int, d: int)
    requires d > 0
    ensures (a * d) % d == 0
  {
    var q, r := a * d / d, (a * d) % d;
    assert a * d == q * d + r;
    MultiplesAreApart(a, q, d);
    MultiplesAreApart(q, a, d);
  }

  /** Windows of a positive interval partition time: a due time lies in the
      window of `now` exactly when it has that same window. A non-positive
      interval gives a window that contains nothing. */
  lemma WindowsPartitionTime(now: Time, due: Time, interval: int)
    ensures interval > 0
      ==> (NextWindow(now, interval).Contains(due) <==> NextWindow(due, interval) == NextWindow(now, interval))
    ensures interval <= 0 ==> !NextWindow(now, interval).Contains(due)
  {
    if interval > 0 {
      var a, b := now / interval, due / interval;
      assert due == b * interval + due % interval;
      MultiplesAreApart(a, b, interval);
      MultiplesAreApart(b, a, interval);
    }
  }
}
