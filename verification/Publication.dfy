/**
  The single background writer (crates/core/src/publication.rs): coalesced requests, prefix
  acknowledgement, bounded retry backoff and the final drain.
 */
module Publication {
  import opened Order

  /** A transition to be persisted. */
  datatype Event = Event(at: int, finding: string, kind: nat)

  type Time = nat                        // nanoseconds

  const SECOND: nat := 1_000_000_000
  const MAX_BACKOFF: nat := 60 * SECOND

  /** The writer's fields and the caller's queue; a write holds the events it captured. */
  datatype Writer = Writer(
    task: Option<seq<Event>>, eventCount: nat, requested: bool, next: Time, backoff: nat, queue: seq<Event>)

  function Fresh(now: Time): (w: Writer) { Writer(None, 0, false, now, SECOND, []) }

  predicate Startable(w: Writer, now: Time) { w.task.None? && w.requested && w.next <= now }

  function Started(w: Writer): (r: Writer) {
    w.(requested := false, eventCount := |w.queue|, task := Some(w.queue))
  }

  function Double(backoff: nat): (b: nat) { if backoff * 2 <= MAX_BACKOFF then backoff * 2 else MAX_BACKOFF }

  /** The write ended: success resets the backoff, failure asks again later. */
  function Completed(w: Writer, now: Time, success: bool): (r: Writer) {
    if success then w.(task := None, next := now, backoff := SECOND)
    else w.(task := None, requested := true, next := now + w.backoff, backoff := Double(w.backoff))
  }

  function Smaller(a: nat, b: nat): (n: nat) { if a <= b then a else b }

  /** The caller drops the acknowledged prefix of its queue. */
  function Drained(w: Writer, count: nat): (r: Writer) { w.(queue := w.queue[Smaller(count, |w.queue|)..]) }

  /** One poll of a finished write, with the drain that follows a success. */
  function Polled(w: Writer, now: Time, success: bool): (r: Writer) {
    if success then Drained(Completed(w, now, true), w.eventCount) else Completed(w, now, false)
  }

  datatype Ending = InTime(success: bool) | TimedOut

  /** The writer once the earlier write has been waited for. */
  function Settled(w: Writer, now: Time, first: Ending): (r: Writer)
    requires w.task.Some? ==> first.InTime?
  {
    if w.task.Some? then Polled(w, now, first.success) else w
  }

  /** The writer with its last write in flight. */
  function LastStarted(w: Writer, now: Time, first: Ending): (r: Writer)
    requires w.task.Some? ==> first.InTime?
  {
    Started(Settled(w, now, first).(requested := true, next := now))
  }

  /** `finish`: the answers of the writes it waits for; running out of time abandons the task. */
  function Finished(w: Writer, late: bool, now: Time, first: Ending, last: Ending): (r: (Writer, bool)) {
    if late then (w, false)
    else if w.task.Some? && first.TimedOut? then (w.(task := None), false)
    else
      var s := LastStarted(w, now, first);
      match last
      case TimedOut => (s.(task := None), false)
      case InTime(success) => (Polled(s, now, success), success)
  }

  class Publisher {
    var task: Option<seq<Event>>
    var eventCount: nat
    var requested: bool
    var next: Time
    var backoff: nat

    constructor (now: Time)
      ensures Now([]) == Fresh(now)
    {
      task, eventCount, requested, next, backoff := None, 0, false, now, SECOND;
    }

    function Now(queue: seq<Event>): (w: Writer)
      reads this
    {
      Writer(task, eventCount, requested, next, backoff, queue)
    }

    method Request()
      modifies `requested
      ensures requested
    {
      requested := true;
    }

    method Start(queue: seq<Event>, now: Time) returns (started: bool)
      modifies this
      ensures started == Startable(old(Now(queue)), now)
      ensures Now(queue) == if started then Started(old(Now(queue))) else old(Now(queue))
    {
      if task.Some? || !requested || next > now {
        return false;
      }
      requested := false;
      eventCount := |queue|;
      task := Some(queue);
      started := true;
    }

    /** `complete`: the acknowledged count of a successful write. */
    method Complete(now: Time, success: bool) returns (count: Option<nat>)
      requires task.Some?
      modifies this
      ensures count == if success then Some(old(eventCount)) else None
      ensures forall queue :: Now(queue) == Completed(old(Now(queue)), now, success)
    {
      task := None;
      if success {
        next := now;
        backoff := SECOND;
        return Some(eventCount);
      }
      requested := true;
      next := now + backoff;
      backoff := if backoff * 2 <= MAX_BACKOFF then backoff * 2 else MAX_BACKOFF;
      return None;
    }

    method Finish(queue0: seq<Event>, late: bool, now: Time, first: Ending, last: Ending) returns (queue: seq<Event>, done: bool)
      modifies this
      ensures (Now(queue), done) == Finished(old(Now(queue0)), late, now, first, last)
    {
      queue := queue0;
      if late {
        return queue, false;
      }
      if task.Some? {
        if first.TimedOut? {
          task := None;
          return queue, false;
        }
        var count := Complete(now, first.success);
        if count.Some? {
          queue := queue[if count.value <= |queue| then count.value else |queue|..];
        }
      }
      Request();
      next := now;
      var started := Start(queue, now);
      if !started {
        return queue, false;
      }
      if last.TimedOut? {
        task := None;
        return queue, false;
      }
      var count := Complete(now, last.success);
      if count.Some? {
        queue := queue[if count.value <= |queue| then count.value else |queue|..];
        return queue, true;
      }
      done := false;
    }
  }

  // ---------------------------------------------------------------- runs

  /** An attempt may find nothing to start, and an end is one only while a write is in flight. */
  datatype Step = Requested | Appended(events: seq<Event>) | Attempted(now: Time) | Ended(now: Time, success: bool)

  function After(w: Writer, e: Step): (r: Writer) {
    match e
    case Requested => w.(requested := true)
    case Appended(events) => w.(queue := w.queue + events)
    case Attempted(now) => if Startable(w, now) then Started(w) else w
    case Ended(now, success) => if w.task.Some? then Polled(w, now, success) else w
  }

  function At(start: Time, steps: seq<Step>, n: nat): (w: Writer)
    requires n <= |steps|
  {
    if n == 0 then Fresh(start) else After(At(start, steps, n - 1), steps[n - 1])
  }

  /** Everything ever appended. */
  function Appends(steps: seq<Step>, n: nat): (s: seq<Event>)
    requires n <= |steps|
  {
    if n == 0 then [] else Appends(steps, n - 1) + if steps[n - 1].Appended? then steps[n - 1].events else []
  }

  predicate Succeeds(start: Time, steps: seq<Step>, i: nat)
    requires i < |steps|
  {
    steps[i].Ended? && steps[i].success && At(start, steps, i).task.Some?
  }

  /** The events the successful writes captured, one write after another. */
  function Written(start: Time, steps: seq<Step>, n: nat): (s: seq<Event>)
    requires n <= |steps|
  {
    if n == 0 then []
    else Written(start, steps, n - 1) + if Succeeds(start, steps, n - 1) then At(start, steps, n - 1).task.value else []
  }

  /** A write in flight captured the front of the queue. */
  predicate Captured(w: Writer) {
    w.task.Some? ==> w.eventCount <= |w.queue| && w.task.value == w.queue[..w.eventCount]
  }

  /**
    The events drained so far are exactly those captured by successful writes, in order and
    without gaps: together with the queue they are everything appended.
   */
  lemma {:induction false} DrainedIsWritten(start: Time, steps: seq<Step>, n: nat)
    requires n <= |steps|
    ensures Captured(At(start, steps, n))
    ensures Written(start, steps, n) + At(start, steps, n).queue == Appends(steps, n)
  {
    if n > 0 {
      DrainedIsWritten(start, steps, n - 1);
      var w := At(start, steps, n - 1);
      StepDrains(w, steps[n - 1], Written(start, steps, n - 1), Appends(steps, n - 1));
    }
  }

  lemma StepDrains(w: Writer, e: Step, written: seq<Event>, all: seq<Event>)
    requires Captured(w) && written + w.queue == all
    ensures Captured(After(w, e))
    ensures (written + if e.Ended? && e.success && w.task.Some? then w.task.value else []) + After(w, e).queue
         == all + if e.Appended? then e.events else []
  {
    if e.Ended? && e.success && w.task.Some? {
      assert w.queue == w.queue[..w.eventCount] + w.queue[w.eventCount..];
      assert (written + w.queue[..w.eventCount]) + w.queue[w.eventCount..] == written + w.queue;
    } else if e.Appended? {
      assert written + (w.queue + e.events) == (written + w.queue) + e.events;
      if w.task.Some? {
        assert (w.queue + e.events)[..w.eventCount] == w.queue[..w.eventCount];
      }
    }
  }

  // ---------------------------------------------------------------- requests

  predicate StartsAt(start: Time, steps: seq<Step>, s: nat)
    requires s < |steps|
  {
    steps[s].Attempted? && Startable(At(start, steps, s), steps[s].now)
  }

  predicate EndsAt(start: Time, steps: seq<Step>, c: nat)
    requires c < |steps|
  {
    steps[c].Ended? && At(start, steps, c).task.Some?
  }

  /** The write started at `s` has not ended before `n`. */
  predicate InFlight(start: Time, steps: seq<Step>, s: nat, n: nat)
    requires n <= |steps|
  {
    s < n && StartsAt(start, steps, s) && forall c :: s < c < n ==> !EndsAt(start, steps, c)
  }

  /** The write started at `s` ended before `n`, with success. */
  predicate Served(start: Time, steps: seq<Step>, s: nat, n: nat)
    requires n <= |steps|
  {
    s < n && exists c :: s < c < n && InFlight(start, steps, s, c) && EndsAt(start, steps, c) && steps[c].success
  }

  /** A write started after `r` is still going or has succeeded. */
  predicate Answered(start: Time, steps: seq<Step>, r: nat, n: nat)
    requires n <= |steps|
  {
    exists s :: r < s < n && (InFlight(start, steps, s, n) || Served(start, steps, s, n))
  }

  /**
    A request is never lost: from then on it is pending, or a write started after it is in
    flight or has succeeded.
   */
  lemma {:induction false} RequestKept(start: Time, steps: seq<Step>, r: nat, n: nat)
    requires r < n <= |steps| && steps[r].Requested?
    ensures At(start, steps, n).requested || Answered(start, steps, r, n)
    decreases n
  {
    hide InFlight, Served;
    if n > r + 1 {
      RequestKept(start, steps, r, n - 1);
      var m := n - 1;
      var w := At(start, steps, m);
      if w.requested {
        if StartsAt(start, steps, m) {
          NewFlight(start, steps, m);
        }
      } else {
        var s :| r < s < m && (InFlight(start, steps, s, m) || Served(start, steps, s, m));
        FlightStep(start, steps, s, m);
      }
    }
  }

  lemma NewFlight(start: Time, steps: seq<Step>, m: nat)
    requires m < |steps| && StartsAt(start, steps, m)
    ensures InFlight(start, steps, m, m + 1)
  {
    hide At;
  }

  /** A write in flight goes on, succeeds, or fails and is asked for again. */
  lemma FlightStep(start: Time, steps: seq<Step>, s: nat, m: nat)
    requires s < m < |steps| && (InFlight(start, steps, s, m) || Served(start, steps, s, m))
    ensures InFlight(start, steps, s, m + 1) || Served(start, steps, s, m + 1) || At(start, steps, m + 1).requested
  {
    hide StartsAt;
    if Served(start, steps, s, m) {
      var c :| s < c < m && InFlight(start, steps, s, c) && EndsAt(start, steps, c) && steps[c].success;
      assert Served(start, steps, s, m + 1);
    } else if EndsAt(start, steps, m) && steps[m].success {
      assert Served(start, steps, s, m + 1);
    }
  }

  // ---------------------------------------------------------------- one write at a time

  function Starts(start: Time, steps: seq<Step>, n: nat): (c: nat)
    requires n <= |steps|
  {
    if n == 0 then 0 else Starts(start, steps, n - 1) + if StartsAt(start, steps, n - 1) then 1 else 0
  }

  function Ends(start: Time, steps: seq<Step>, n: nat): (c: nat)
    requires n <= |steps|
  {
    if n == 0 then 0 else Ends(start, steps, n - 1) + if EndsAt(start, steps, n - 1) then 1 else 0
  }

  /** The writes started and not ended are at most one: the task. */
  lemma {:induction false} OneInFlight(start: Time, steps: seq<Step>, n: nat)
    requires n <= |steps|
    ensures Starts(start, steps, n) == Ends(start, steps, n) + if At(start, steps, n).task.Some? then 1 else 0
  {
    if n > 0 {
      OneInFlight(start, steps, n - 1);
    }
  }

  // ---------------------------------------------------------------- backoff

  function Pow2(k: nat): (p: nat)
    ensures p >= 1
  {
    if k == 0 then 1 else 2 * Pow2(k - 1)
  }

  /** Failures since the last success. */
  function Failures(start: Time, steps: seq<Step>, n: nat): (k: nat)
    requires n <= |steps|
  {
    if n == 0 then 0
    else if !EndsAt(start, steps, n - 1) then Failures(start, steps, n - 1)
    else if steps[n - 1].success then 0
    else Failures(start, steps, n - 1) + 1
  }

  /** After `k` straight failures the next wait is min(2^k, 60) seconds. */
  lemma {:induction false} BackoffDoubles(start: Time, steps: seq<Step>, n: nat)
    requires n <= |steps|
    ensures At(start, steps, n).backoff == Smaller(Pow2(Failures(start, steps, n)), 60) * SECOND
  {
    if n > 0 {
      BackoffDoubles(start, steps, n - 1);
      if EndsAt(start, steps, n - 1) && !steps[n - 1].success {
        var k := Failures(start, steps, n - 1);
        assert Pow2(k + 1) == 2 * Pow2(k);
      }
    }
  }

  /** A failed write is not retried before its wait is over. */
  lemma FailureWaits(start: Time, steps: seq<Step>, c: nat)
    requires c < |steps| && EndsAt(start, steps, c) && !steps[c].success
    ensures var w := At(start, steps, c + 1);
      w.requested && forall now: Time :: Startable(w, now) <==> now >= steps[c].now + Smaller(Pow2(Failures(start, steps, c)), 60) * SECOND
  {
    BackoffDoubles(start, steps, c);
  }

  // ---------------------------------------------------------------- finishing

  /**
    `finish` answers true exactly when its last write succeeded in time. Then every event ever
    appended was captured, in order, by the successful writes before, by the write that was
    still in flight if that succeeded, and by the last write; and the queue is empty.
   */
  lemma FinishWritesAll(start: Time, steps: seq<Step>, late: bool, now: Time, first: Ending, last: Ending)
    ensures var w := At(start, steps, |steps|); var (r, done) := Finished(w, late, now, first, last);
      && (done <==> !late && (w.task.None? || first.InTime?) && last == InTime(true))
      && (done ==> r.queue == [] && r.task.None?)
      && (done ==>
            var before := if w.task.Some? && first.success then w.task.value else [];
            LastStarted(w, now, first).task.Some?
            && Written(start, steps, |steps|) + before + LastStarted(w, now, first).task.value == Appends(steps, |steps|))
  {
    DrainedIsWritten(start, steps, |steps|);
    var w := At(start, steps, |steps|);
    if w.task.Some? {
      assert w.queue == w.queue[..w.eventCount] + w.queue[w.eventCount..];
      assert Written(start, steps, |steps|) + w.queue[..w.eventCount] + w.queue[w.eventCount..] == Written(start, steps, |steps|) + w.queue;
    }
  }
}
