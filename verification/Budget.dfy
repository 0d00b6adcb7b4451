/**
  The shared admission budget of crates/core/src/budget.rs as a step system.

  Every atomic operation of the lock-free reservation (load, compare-exchange, store,
  subtract, notify) is one move of one thread, so a run interleaves them freely.
  compare_exchange_weak may fail although the value matches, and a waiter may be
  cancelled wherever the source awaits.
 */
module Budget {

  const USIZE_MAX: nat := 0xFFFF_FFFF_FFFF_FFFF

  /** Where a thread stands: the operation named is the one it performs next. */
  datatype Control =
    | Idle
    | Loading(amount: nat)                // load `used`
    | Checking(amount: nat, seen: nat)    // add, then load `limit`
    | Swapping(amount: nat, seen: nat)    // compare-exchange seen -> seen + amount
    | Rechecking(amount: nat, total: nat) // load `limit` again, charge already taken
    | Undoing(amount: nat)                // subtract the charge again
    | UndoNotify                          // notify waiters, then report the failure
    | Holding(amount: nat)                // owns a permit
    | DropNotify                          // permit subtracted; notify waiters
    | ResizeNotify                        // limit stored; notify waiters
    | Queued                              // awaits the admission mutex
    | Parked                              // awaits its notification

  /** The admission turn of `acquire`, with the state of its enabled notification. */
  datatype Turn = NoTurn | Turn(notified: bool)

  datatype Thread = Thread(pc: Control, turn: Turn)

  datatype State = State(limit: nat, used: nat, threads: seq<Thread>)

  datatype Move =
    | TryAcquire(amount: nat) | LoadUsed | CheckLimit
    | CasSucceeds | CasFails | RecheckLimit | Undo | Notify | Drop
    | Resize(limit: nat)
    | Acquire | TakeTurn | Wake | Cancel

  /** Wrapping subtraction, as `fetch_sub` performs it. */
  function WrapSub(a: nat, b: nat): (r: nat)
    requires a <= USIZE_MAX && b <= USIZE_MAX
  {
    if b <= a then a - b else a + USIZE_MAX + 1 - b
  }

  ghost predicate Bounded(s: State) {
    && s.used <= USIZE_MAX && s.limit <= USIZE_MAX
    && forall i :: 0 <= i < |s.threads| ==> AmountOf(s.threads[i].pc) <= USIZE_MAX
  }

  function AmountOf(pc: Control): (r: nat) {
    match pc
    case Loading(a) => a
    case Checking(a, _) => a
    case Swapping(a, _) => a
    case Rechecking(a, _) => a
    case Undoing(a) => a
    case Holding(a) => a
    case _ => 0
  }

  predicate Enabled(s: State, i: nat, m: Move)
    requires i < |s.threads|
  {
    var t := s.threads[i];
    match m
    case TryAcquire(a) => t == Thread(Idle, NoTurn) && a <= 0xFFFF_FFFF
    case LoadUsed => t.pc.Loading?
    case CheckLimit => t.pc.Checking?
    case CasSucceeds => t.pc.Swapping? && s.used == t.pc.seen
    case CasFails => t.pc.Swapping?
    case RecheckLimit => t.pc.Rechecking?
    case Undo => t.pc.Undoing?
    case Notify => t.pc.UndoNotify? || t.pc.DropNotify? || t.pc.ResizeNotify?
    case Drop => t.pc.Holding?
    case Resize(l) => t == Thread(Idle, NoTurn) && l <= USIZE_MAX
    case Acquire => t == Thread(Idle, NoTurn)
    case TakeTurn => t.pc.Queued? && forall j | 0 <= j < |s.threads| :: s.threads[j].turn.NoTurn?
    case Wake => t.pc.Parked? && t.turn == Turn(true)
    case Cancel => t.pc.Queued? || t.pc.Parked?
  }

  /** `notify_waiters` reaches every notification enabled at this moment. */
  function NotifyAll(ts: seq<Thread>): (r: seq<Thread>) {
    seq(|ts|, j requires 0 <= j < |ts| =>
      if ts[j].turn.Turn? then ts[j].(turn := Turn(true)) else ts[j])
  }

  /** A refused `try_acquire` parks an `acquire` and returns an error to anyone else. */
  function Refuse(t: Thread): (r: Thread) {
    t.(pc := if t.turn.Turn? then Parked else Idle)
  }

  function After(s: State, i: nat, m: Move): (r: State)
    requires Bounded(s) && i < |s.threads| && Enabled(s, i, m)
    ensures |r.threads| == |s.threads|
  {
    var t := s.threads[i];
    match m
    case TryAcquire(a) => Set(s, i, t.(pc := Loading(a)))
    case LoadUsed => Set(s, i, t.(pc := Checking(t.pc.amount, s.used)))
    case CheckLimit =>
      var total := t.pc.seen + t.pc.amount;
      if total > USIZE_MAX || total > s.limit then Set(s, i, Refuse(t))
      else Set(s, i, t.(pc := Swapping(t.pc.amount, t.pc.seen)))
    case CasSucceeds =>
      var total := t.pc.seen + t.pc.amount;
      Set(s.(used := total), i, t.(pc := Rechecking(t.pc.amount, total)))
    case CasFails => Set(s, i, t.(pc := Checking(t.pc.amount, s.used)))
    case RecheckLimit =>
      if t.pc.total > s.limit then Set(s, i, t.(pc := Undoing(t.pc.amount)))
      else Set(s, i, Thread(Holding(t.pc.amount), NoTurn))
    case Undo => Set(s.(used := WrapSub(s.used, t.pc.amount)), i, t.(pc := UndoNotify))
    case Notify =>
      var woken := NotifyAll(s.threads);
      s.(threads := woken[i := if t.pc.UndoNotify? then Refuse(woken[i]) else woken[i].(pc := Idle)])
    case Drop => Set(s.(used := WrapSub(s.used, t.pc.amount)), i, t.(pc := DropNotify))
    case Resize(l) => Set(s.(limit := l), i, t.(pc := ResizeNotify))
    case Acquire => Set(s, i, t.(pc := Queued))
    case TakeTurn => Set(s, i, Thread(Loading(1), Turn(false)))
    case Wake => Set(s, i, Thread(Loading(1), Turn(false)))
    case Cancel => Set(s, i, Thread(Idle, NoTurn))
  }

  function Set(s: State, i: nat, t: Thread): (r: State)
    requires i < |s.threads|
  {
    s.(threads := s.threads[i := t])
  }

  // ---------------------------------------------------------------- conservation

  /** What a thread has added to `used` and still answers for. */
  function Charge(t: Thread): (r: nat) {
    match t.pc
    case Rechecking(a, _) => a
    case Undoing(a) => a
    case Holding(a) => a
    case _ => 0
  }

  function Charges(ts: seq<Thread>): (r: nat) {
    if ts == [] then 0 else Charge(ts[0]) + Charges(ts[1..])
  }

  lemma {:induction false} ChargesAt(ts: seq<Thread>, i: nat, t: Thread)
    requires i < |ts|
    ensures Charges(ts[i := t]) == Charges(ts) - Charge(ts[i]) + Charge(t)
    ensures Charge(ts[i]) <= Charges(ts)
  {
    if i == 0 {
      assert ts[0 := t][1..] == ts[1..];
    } else {
      ChargesAt(ts[1..], i - 1, t);
      assert ts[i := t][1..] == ts[1..][i - 1 := t];
    }
  }

  lemma {:induction false} ChargesSame(a: seq<Thread>, b: seq<Thread>)
    requires |a| == |b| && forall j :: 0 <= j < |a| ==> Charge(a[j]) == Charge(b[j])
    ensures Charges(a) == Charges(b)
  {
    if a != [] {
      ChargesSame(a[1..], b[1..]);
    }
  }

  // ---------------------------------------------------------------- the invariant

  /** Some thread has changed `used` or `limit` in a waiter's favour and will still notify. */
  ghost predicate NotifyPending(s: State) {
    exists i :: 0 <= i < |s.threads| && Notifying(s.threads[i])
  }

  predicate Notifying(t: Thread) {
    t.pc.UndoNotify? || t.pc.DropNotify? || t.pc.ResizeNotify?
  }

  /** What an un-notified waiter may still rely on. */
  ghost predicate WaiterSound(s: State, t: Thread) {
    && (t.turn == Turn(false) && (t.pc.Checking? || t.pc.Swapping?) ==> t.pc.seen <= s.used || NotifyPending(s))
    && (t.turn == Turn(false) && t.pc.Parked? ==> s.limit <= s.used || NotifyPending(s))
  }

  /** Control points that fit the role: only an `acquire` has a turn, and it asks for one unit. */
  ghost predicate RoleSound(t: Thread) {
    && (t.turn.Turn? ==>
          (t.pc.Loading? || t.pc.Checking? || t.pc.Swapping? || t.pc.Rechecking? || t.pc.Undoing? || t.pc.UndoNotify? || t.pc.Parked?)
          && (t.pc.UndoNotify? || t.pc.Parked? || AmountOf(t.pc) == 1))
    && (t.pc.Parked? ==> t.turn.Turn?)
    && (t.pc.Swapping? ==> t.pc.seen + t.pc.amount <= USIZE_MAX)
    && (t.pc.Checking? ==> t.pc.seen <= USIZE_MAX)
  }

  ghost predicate Valid(s: State) {
    && Bounded(s)
    && s.used == Charges(s.threads)
    && (forall i :: 0 <= i < |s.threads| ==> RoleSound(s.threads[i]))
    && (forall i :: 0 <= i < |s.threads| ==> WaiterSound(s, s.threads[i]))
    && OneTurn(s)
  }

  ghost predicate Initial(s: State) {
    && s.used == 0 && s.limit <= USIZE_MAX
    && forall i :: 0 <= i < |s.threads| ==> s.threads[i] == Thread(Idle, NoTurn)
  }

  lemma {:induction false} InitialCharges(ts: seq<Thread>)
    requires forall i :: 0 <= i < |ts| ==> ts[i] == Thread(Idle, NoTurn)
    ensures Charges(ts) == 0
  {
    if ts != [] {
      InitialCharges(ts[1..]);
    }
  }

  lemma StepBounded(s: State, i: nat, m: Move)
    requires Bounded(s) && i < |s.threads| && Enabled(s, i, m) && RoleSound(s.threads[i])
    ensures Bounded(After(s, i, m))
  {
    var r := After(s, i, m);
    forall k | 0 <= k < |r.threads|
      ensures AmountOf(r.threads[k].pc) <= USIZE_MAX
    {
      assert AmountOf(s.threads[k].pc) <= USIZE_MAX;
    }
  }

  /** `used` moves by exactly the change of the moving thread's own charge, and never wraps. */
  lemma StepConserves(s: State, i: nat, m: Move)
    requires Bounded(s) && s.used == Charges(s.threads) && i < |s.threads| && Enabled(s, i, m)
    ensures After(s, i, m).used == Charges(After(s, i, m).threads)
    ensures m.Undo? || m.Drop? ==> AmountOf(s.threads[i].pc) <= s.used
  {
    var t := s.threads[i];
    var moved := After(s, i, m).threads[i];
    ChargesAt(s.threads, i, moved);
    if m.Notify? {
      var woken := NotifyAll(s.threads);
      ChargesSame(s.threads, woken);
      ChargesAt(woken, i, moved);
    }
  }

  lemma PendingStays(s: State, i: nat, m: Move)
    requires Valid(s) && i < |s.threads| && Enabled(s, i, m) && !m.Notify?
    ensures NotifyPending(s) ==> NotifyPending(After(s, i, m))
    ensures m.Undo? || m.Drop? || m.Resize? ==> NotifyPending(After(s, i, m))
  {
    var r := After(s, i, m);
    if NotifyPending(s) {
      var k :| 0 <= k < |s.threads| && Notifying(s.threads[k]);
      assert k != i;
      assert Notifying(r.threads[k]);
    }
    if m.Undo? || m.Drop? || m.Resize? {
      assert Notifying(r.threads[i]);
    }
  }

  lemma StepKeepsWaiters(s: State, i: nat, m: Move, k: nat)
    requires Valid(s) && i < |s.threads| && Enabled(s, i, m) && k < |s.threads|
    ensures WaiterSound(After(s, i, m), After(s, i, m).threads[k])
    ensures RoleSound(After(s, i, m).threads[k])
  {
    var r := After(s, i, m);
    assert RoleSound(s.threads[i]) && RoleSound(s.threads[k]);
    assert WaiterSound(s, s.threads[i]) && WaiterSound(s, s.threads[k]);
    StepConserves(s, i, m);
    if !m.Notify? {
      PendingStays(s, i, m);
    }
  }

  /** One waiter at a time holds the admission turn. */
  ghost predicate OneTurn(s: State) {
    forall i, j :: 0 <= i < |s.threads| && 0 <= j < |s.threads| && s.threads[i].turn.Turn? && s.threads[j].turn.Turn? ==> i == j
  }

  lemma StepKeepsTurn(s: State, i: nat, m: Move)
    requires Bounded(s) && OneTurn(s) && i < |s.threads| && Enabled(s, i, m)
    ensures OneTurn(After(s, i, m))
  {
    var r := After(s, i, m);
    forall k | 0 <= k < |r.threads| && r.threads[k].turn.Turn?
      ensures s.threads[k].turn.Turn? || (k == i && m.TakeTurn?)
    {
    }
  }

  /** Every move of every thread keeps the invariant. */
  lemma StepKeepsValid(s: State, i: nat, m: Move)
    requires Valid(s) && i < |s.threads| && Enabled(s, i, m)
    ensures Valid(After(s, i, m))
  {
    StepConserves(s, i, m);
    assert RoleSound(s.threads[i]);
    StepBounded(s, i, m);
    StepKeepsTurn(s, i, m);
    hide RoleSound, WaiterSound, OneTurn, Charges, Bounded, After, Enabled;
    forall k | 0 <= k < |s.threads|
      ensures WaiterSound(After(s, i, m), After(s, i, m).threads[k]) && RoleSound(After(s, i, m).threads[k])
    {
      StepKeepsWaiters(s, i, m, k);
    }
  }

  // ---------------------------------------------------------------- whole runs

  /** A run is any finite interleaving of enabled moves. */
  ghost predicate Runs(s: State, trace: seq<(nat, Move)>, r: State)
    decreases |trace|
  {
    if trace == [] then r == s
    else
      && Bounded(s) && trace[0].0 < |s.threads| && Enabled(s, trace[0].0, trace[0].1)
      && Runs(After(s, trace[0].0, trace[0].1), trace[1..], r)
  }

  lemma {:induction false} RunKeepsValid(s: State, trace: seq<(nat, Move)>, r: State)
    requires Valid(s) && Runs(s, trace, r)
    ensures Valid(r)
    decreases |trace|
  {
    if trace != [] {
      StepKeepsValid(s, trace[0].0, trace[0].1);
      RunKeepsValid(After(s, trace[0].0, trace[0].1), trace[1..], r);
    }
  }

  /**
    In every interleaving from a fresh budget, `used` is the sum of the live permits and
    of the charges that await their recheck or rollback, and no waiter is forgotten: a
    parked waiter that was not notified faces a full budget or a notification to come.
   */
  lemma BudgetSound(s: State, trace: seq<(nat, Move)>, r: State)
    requires Initial(s) && Runs(s, trace, r)
    ensures r.used == Charges(r.threads)
    ensures forall i :: 0 <= i < |r.threads| && r.threads[i] == Thread(Parked, Turn(false)) ==>
              r.limit <= r.used || NotifyPending(r)
  {
    InitialCharges(s.threads);
    RunKeepsValid(s, trace, r);
    forall i | 0 <= i < |r.threads| && r.threads[i] == Thread(Parked, Turn(false))
      ensures r.limit <= r.used || NotifyPending(r)
    {
      assert WaiterSound(r, r.threads[i]);
    }
  }

  /** A cancelled waiter leaves neither a charge nor the admission turn behind. */
  lemma CancelHoldsNothing(s: State, i: nat)
    requires Valid(s) && i < |s.threads| && Enabled(s, i, Cancel)
    ensures After(s, i, Cancel).used == s.used
    ensures After(s, i, Cancel).threads[i] == Thread(Idle, NoTurn)
    ensures s.threads[i].turn.Turn? ==>
              forall j :: 0 <= j < |s.threads| ==> After(s, i, Cancel).threads[j].turn.NoTurn?
  {
  }

  /** No reservation stands between a passed limit check and its compare-exchange above the limit. */
  ghost predicate Settled(s: State) {
    forall i :: 0 <= i < |s.threads| && s.threads[i].pc.Swapping? ==>
      s.threads[i].pc.seen + s.threads[i].pc.amount <= s.limit
  }

  ghost predicate NoAcquireInFlight(s: State) {
    forall i :: 0 <= i < |s.threads| ==>
      var pc := s.threads[i].pc;
      !pc.Loading? && !pc.Checking? && !pc.Swapping? && !pc.Rechecking? && !pc.Undoing? && !pc.UndoNotify?
  }

  ghost predicate LimitConstant(trace: seq<(nat, Move)>) {
    forall k :: 0 <= k < |trace| ==> !trace[k].1.Resize?
  }

  lemma StepWithinLimit(s: State, i: nat, m: Move)
    requires Valid(s) && Settled(s) && i < |s.threads| && Enabled(s, i, m) && !m.Resize?
    ensures Settled(After(s, i, m)) && After(s, i, m).limit == s.limit
    ensures After(s, i, m).used <= s.used || After(s, i, m).used <= s.limit
  {
    StepConserves(s, i, m);
  }

  lemma {:induction false} RunWithinLimit(s: State, trace: seq<(nat, Move)>, r: State)
    requires Valid(s) && Settled(s) && Runs(s, trace, r)
    requires LimitConstant(trace)
    ensures r.used <= if s.used <= s.limit then s.limit else s.used
    decreases |trace|
  {
    if trace != [] {
      StepWithinLimit(s, trace[0].0, trace[0].1);
      StepKeepsValid(s, trace[0].0, trace[0].1);
      RunWithinLimit(After(s, trace[0].0, trace[0].1), trace[1..], r);
    }
  }

  lemma {:induction false} RunKeepsSettled(s: State, trace: seq<(nat, Move)>, r: State)
    requires Valid(s) && Settled(s) && Runs(s, trace, r)
    requires LimitConstant(trace)
    ensures Settled(r) && r.limit == s.limit
    decreases |trace|
  {
    if trace != [] {
      StepWithinLimit(s, trace[0].0, trace[0].1);
      StepKeepsValid(s, trace[0].0, trace[0].1);
      RunKeepsSettled(After(s, trace[0].0, trace[0].1), trace[1..], r);
    }
  }

  /**
    From a point with no acquire in flight, and for as long as the limit stays L, `used`
    never grows while it is above L and never exceeds L again once it is at or below it:
    between any two later moments it is bounded by the larger of L and its earlier value.
   */
  lemma LimitHolds(s: State, first: seq<(nat, Move)>, mid: State, second: seq<(nat, Move)>, r: State)
    requires Valid(s) && NoAcquireInFlight(s)
    requires Runs(s, first, mid) && Runs(mid, second, r)
    requires LimitConstant(first)
    requires LimitConstant(second)
    ensures mid.used > s.limit ==> r.used <= mid.used
    ensures mid.used <= s.limit ==> r.used <= s.limit
  {
    RunKeepsSettled(s, first, mid);
    RunKeepsValid(s, first, mid);
    RunWithinLimit(mid, second, r);
  }

  // ---------------------------------------------------------------- exceeding the limit

  /**
    One move lifts `used` to above the limit in force exactly when it is the compare-exchange
    of a reservation whose total the limit no longer admits.
   */
  lemma StepExceedsIff(s: State, i: nat, m: Move)
    requires Bounded(s) && s.used == Charges(s.threads) && i < |s.threads| && Enabled(s, i, m)
    ensures After(s, i, m).used > s.used && After(s, i, m).used > After(s, i, m).limit
            <==> m.CasSucceeds? && s.threads[i].pc.amount > 0
                 && s.threads[i].pc.seen + s.threads[i].pc.amount > s.limit
  {
    StepConserves(s, i, m);
  }

  /** Somewhere in the run `used` grows to above the limit of that moment. */
  ghost predicate Climbs(s: State, trace: seq<(nat, Move)>, r: State)
    requires Runs(s, trace, r)
    decreases |trace|
  {
    trace != [] &&
      var next := After(s, trace[0].0, trace[0].1);
      (next.used > s.used && next.used > next.limit) || Climbs(next, trace[1..], r)
  }

  /** Somewhere in the run a reservation succeeds with a total the limit does not admit. */
  ghost predicate SwapsUnadmitted(s: State, trace: seq<(nat, Move)>, r: State)
    requires Runs(s, trace, r)
    decreases |trace|
  {
    trace != [] &&
      var pc := s.threads[trace[0].0].pc;
      (trace[0].1.CasSucceeds? && pc.amount > 0 && pc.seen + pc.amount > s.limit)
      || SwapsUnadmitted(After(s, trace[0].0, trace[0].1), trace[1..], r)
  }

  /**
    Over whole runs, resizes included: `used` climbs above the limit exactly when such a
    reservation succeeds, and from a settled state only a resize makes that possible.
   */
  lemma {:induction false} RunClimbsIff(s: State, trace: seq<(nat, Move)>, r: State)
    requires Valid(s) && Runs(s, trace, r)
    ensures Climbs(s, trace, r) <==> SwapsUnadmitted(s, trace, r)
    ensures Settled(s) && LimitConstant(trace) ==> !Climbs(s, trace, r)
    decreases |trace|
  {
    if trace != [] {
      StepExceedsIff(s, trace[0].0, trace[0].1);
      if Settled(s) && LimitConstant(trace) {
        StepWithinLimit(s, trace[0].0, trace[0].1);
      }
      StepKeepsValid(s, trace[0].0, trace[0].1);
      RunClimbsIff(After(s, trace[0].0, trace[0].1), trace[1..], r);
    }
  }

  const ASK_MAX: nat := 0xFFFF_FFFF

  /** What can be asked for, and hence what a reservation can have seen in use by the others. */
  ghost predicate Asks(s: State) {
    forall i :: 0 <= i < |s.threads| ==> AskSound(|s.threads|, s.threads[i].pc)
  }

  predicate AskSound(n: nat, pc: Control) {
    && AmountOf(pc) <= ASK_MAX
    && (pc.Checking? || pc.Swapping? ==> pc.seen <= (n - 1) * ASK_MAX)
  }

  lemma {:induction false} ChargesAtMost(n: nat, ts: seq<Thread>)
    requires forall k :: 0 <= k < |ts| ==> AskSound(n, ts[k].pc)
    ensures Charges(ts) <= |ts| * ASK_MAX
  {
    if ts != [] {
      ChargesAtMost(n, ts[1..]);
    }
  }

  lemma {:induction false} OthersAtMost(n: nat, ts: seq<Thread>, i: nat)
    requires forall k :: 0 <= k < |ts| ==> AskSound(n, ts[k].pc)
    requires i < |ts| && Charge(ts[i]) == 0
    ensures Charges(ts) <= (|ts| - 1) * ASK_MAX
  {
    if i == 0 {
      ChargesAtMost(n, ts[1..]);
    } else {
      OthersAtMost(n, ts[1..], i - 1);
    }
  }

  lemma StepKeepsAsks(s: State, i: nat, m: Move)
    requires Valid(s) && Asks(s) && i < |s.threads| && Enabled(s, i, m)
    ensures Asks(After(s, i, m))
  {
    assert AskSound(|s.threads|, s.threads[i].pc);
    if m.LoadUsed? || m.CasFails? {
      OthersAtMost(|s.threads|, s.threads, i);
    }
  }

  lemma {:induction false} RunKeepsAsks(s: State, trace: seq<(nat, Move)>, r: State)
    requires Valid(s) && Asks(s) && Runs(s, trace, r)
    ensures Asks(r)
    decreases |trace|
  {
    if trace != [] {
      StepKeepsAsks(s, trace[0].0, trace[0].1);
      StepKeepsValid(s, trace[0].0, trace[0].1);
      RunKeepsAsks(After(s, trace[0].0, trace[0].1), trace[1..], r);
    }
  }

  /** A reservation that passed its check under a larger limit and, from below this one, would pass it. */
  predicate Outgrown(limit: nat, t: Thread) {
    t.pc.Swapping? && t.pc.seen <= limit < t.pc.seen + t.pc.amount
  }

  ghost predicate SomeOutgrown(s: State) {
    exists i :: 0 <= i < |s.threads| && Outgrown(s.limit, s.threads[i])
  }

  lemma StepOutgrown(s: State, i: nat, m: Move)
    requires Valid(s) && i < |s.threads| && Enabled(s, i, m) && !m.Resize?
    ensures After(s, i, m).limit == s.limit
    ensures SomeOutgrown(After(s, i, m)) ==> SomeOutgrown(s)
    ensures s.used <= s.limit < After(s, i, m).used ==> SomeOutgrown(s)
  {
    StepConserves(s, i, m);
    var r := After(s, i, m);
    if SomeOutgrown(r) {
      var k :| 0 <= k < |r.threads| && Outgrown(r.limit, r.threads[k]);
      assert Outgrown(s.limit, s.threads[k]);
    }
    if s.used <= s.limit < r.used {
      assert Outgrown(s.limit, s.threads[i]);
    }
  }

  lemma {:induction false} RunOutgrown(s: State, trace: seq<(nat, Move)>, r: State)
    requires Valid(s) && Runs(s, trace, r) && LimitConstant(trace)
    ensures r.limit == s.limit && Valid(r)
    ensures SomeOutgrown(r) ==> SomeOutgrown(s)
    ensures s.used <= s.limit < r.used ==> SomeOutgrown(s)
    decreases |trace|
  {
    if trace != [] {
      StepOutgrown(s, trace[0].0, trace[0].1);
      StepKeepsValid(s, trace[0].0, trace[0].1);
      RunOutgrown(After(s, trace[0].0, trace[0].1), trace[1..], r);
    }
  }

  /** Some run under a constant limit leads from one state to the other. */
  ghost predicate Reaches(s: State, r: State) {
    exists trace: seq<(nat, Move)> :: LimitConstant(trace) && Runs(s, trace, r)
  }

  lemma ReachesSelf(s: State)
    ensures Reaches(s, s)
  {
    assert Runs(s, [], s);
  }

  lemma ReachesAfter(s: State, i: nat, m: Move, r: State)
    requires Bounded(s) && i < |s.threads| && Enabled(s, i, m) && !m.Resize? && Reaches(After(s, i, m), r)
    ensures Reaches(s, r)
  {
    var trace: seq<(nat, Move)> :| LimitConstant(trace) && Runs(After(s, i, m), trace, r);
    assert ([(i, m)] + trace)[1..] == trace;
    assert Runs(s, [(i, m)] + trace, r);
  }

  lemma {:induction false} RunsJoin(s: State, first: seq<(nat, Move)>, mid: State, second: seq<(nat, Move)>, r: State)
    requires Runs(s, first, mid) && Runs(mid, second, r)
    ensures Runs(s, first + second, r)
    decreases |first|
  {
    if first == [] {
      assert first + second == second;
    } else {
      RunsJoin(After(s, first[0].0, first[0].1), first[1..], mid, second, r);
      assert (first + second)[1..] == first[1..] + second;
    }
  }

  lemma ReachesJoin(s: State, mid: State, r: State)
    requires Reaches(s, mid) && Reaches(mid, r)
    ensures Reaches(s, r)
  {
    var first: seq<(nat, Move)> :| LimitConstant(first) && Runs(s, first, mid);
    var second: seq<(nat, Move)> :| LimitConstant(second) && Runs(mid, second, r);
    RunsJoin(s, first, mid, second, r);
    assert LimitConstant(first + second);
  }

  /** The move that brings a thread closer to rest. */
  function Retreat(s: State, j: nat): (m: Move)
    requires j < |s.threads|
  {
    match s.threads[j].pc
    case Idle => Acquire
    case Loading(_) => LoadUsed
    case Checking(_, _) => CheckLimit
    case Swapping(_, seen) => if s.used == seen then CasSucceeds else CasFails
    case Rechecking(_, _) => RecheckLimit
    case Undoing(_) => Undo
    case UndoNotify => Notify
    case Holding(_) => Drop
    case DropNotify => Notify
    case ResizeNotify => Notify
    case Queued => Cancel
    case Parked => Cancel
  }

  /** How many moves a thread is at most away from rest. */
  function Distance(s: State, j: nat): (d: nat)
    requires j < |s.threads|
  {
    match s.threads[j].pc
    case Idle => 0
    case Loading(_) => 10
    case Checking(_, seen) => if s.used == seen then 7 else 9
    case Swapping(_, seen) => if s.used == seen then 6 else 8
    case Rechecking(_, _) => 5
    case Undoing(_) => 4
    case UndoNotify => 3
    case Holding(_) => 4
    case DropNotify => 3
    case ResizeNotify => 3
    case Queued => 1
    case Parked => 1
  }

  lemma RetreatHelps(s: State, j: nat)
    requires Valid(s) && j < |s.threads| && !s.threads[j].pc.Idle?
    ensures Enabled(s, j, Retreat(s, j)) && !Retreat(s, j).Resize?
    ensures Distance(After(s, j, Retreat(s, j)), j) < Distance(s, j)
    ensures forall k :: 0 <= k < |s.threads| && k != j ==>
              && After(s, j, Retreat(s, j)).threads[k].pc == s.threads[k].pc
              && (s.threads[k].turn.NoTurn? ==> After(s, j, Retreat(s, j)).threads[k] == s.threads[k])
    ensures After(s, j, Retreat(s, j)).limit == s.limit
  {
    assert RoleSound(s.threads[j]);
  }

  /** Any single thread can be brought to rest, no other one moving. */
  lemma {:induction false} Withdraws(s: State, j: nat) returns (r: State)
    requires Valid(s) && Asks(s) && j < |s.threads|
    ensures Valid(r) && Asks(r) && Reaches(s, r) && r.limit == s.limit && |r.threads| == |s.threads|
    ensures r.threads[j] == Thread(Idle, NoTurn)
    ensures forall k :: 0 <= k < |s.threads| && k != j ==> r.threads[k].pc == s.threads[k].pc
    ensures forall k :: 0 <= k < |s.threads| && k != j && s.threads[k].turn.NoTurn? ==> r.threads[k] == s.threads[k]
    decreases Distance(s, j)
  {
    if s.threads[j].pc.Idle? {
      assert RoleSound(s.threads[j]);
      r := s;
      ReachesSelf(s);
    } else {
      RetreatHelps(s, j);
      var next := Moved(s, j, Retreat(s, j));
      r := Withdraws(next, j);
      ReachesJoin(s, next, r);
    }
  }

  /** All threads but one come to rest. */
  lemma {:induction false} AllWithdraw(s: State, i: nat, n: nat) returns (r: State)
    requires Valid(s) && Asks(s) && i < |s.threads| && n <= |s.threads|
    ensures Valid(r) && Asks(r) && Reaches(s, r) && r.limit == s.limit && |r.threads| == |s.threads|
    ensures r.threads[i].pc == s.threads[i].pc
    ensures forall k :: 0 <= k < n && k != i ==> r.threads[k] == Thread(Idle, NoTurn)
  {
    if n == 0 {
      r := s;
      ReachesSelf(s);
    } else {
      var mid := AllWithdraw(s, i, n - 1);
      if n - 1 == i {
        r := mid;
      } else {
        r := Withdraws(mid, n - 1);
        ReachesJoin(s, mid, r);
      }
    }
  }

  lemma {:induction false} NoCharges(ts: seq<Thread>)
    requires forall k :: 0 <= k < |ts| ==> Charge(ts[k]) == 0
    ensures Charges(ts) == 0
  {
    if ts != [] {
      NoCharges(ts[1..]);
    }
  }

  /** An idle thread that asks for what fits passes its check. */
  lemma Asked(s: State, j: nat, amount: nat) returns (r: State)
    requires Valid(s) && Asks(s) && j < |s.threads| && s.threads[j] == Thread(Idle, NoTurn)
    requires amount <= ASK_MAX && s.used + amount <= s.limit
    ensures Valid(r) && Asks(r) && Reaches(s, r)
    ensures r == s.(threads := s.threads[j := Thread(Swapping(amount, s.used), NoTurn)])
  {
    var s1 := Moved(s, j, TryAcquire(amount));
    var s2 := Moved(s1, j, LoadUsed);
    r := Moved(s2, j, CheckLimit);
    ReachesJoin(s, s1, s2);
    ReachesJoin(s, s2, r);
  }

  /** An idle thread gets a permit that fits. */
  lemma Takes(s: State, j: nat, amount: nat) returns (r: State)
    requires Valid(s) && Asks(s) && j < |s.threads| && s.threads[j] == Thread(Idle, NoTurn)
    requires amount <= ASK_MAX && s.used + amount <= s.limit
    ensures Valid(r) && Asks(r) && Reaches(s, r)
    ensures r == State(s.limit, s.used + amount, s.threads[j := Thread(Holding(amount), NoTurn)])
  {
    var s1 := Asked(s, j, amount);
    var s2 := Moved(s1, j, CasSucceeds);
    r := Moved(s2, j, RecheckLimit);
    ReachesJoin(s, s1, s2);
    ReachesJoin(s, s2, r);
  }

  lemma Moved(s: State, i: nat, m: Move) returns (r: State)
    requires Valid(s) && Asks(s) && i < |s.threads| && Enabled(s, i, m) && !m.Resize?
    ensures r == After(s, i, m) && Valid(r) && Asks(r) && Reaches(s, r)
  {
    r := After(s, i, m);
    StepKeepsValid(s, i, m);
    StepKeepsAsks(s, i, m);
    ReachesSelf(r);
    ReachesAfter(s, i, m, r);
  }

  /** The threads other than one raise `used` to any level within the limit that they can hold. */
  lemma {:induction false} Fill(s: State, i: nat, n: nat, level: nat) returns (r: State)
    requires Valid(s) && Asks(s) && i < |s.threads| && n <= |s.threads|
    requires s.used <= level <= s.limit
    requires level - s.used <= (if i < n then n - 1 else n) * ASK_MAX
    requires forall k :: 0 <= k < n && k != i ==> s.threads[k] == Thread(Idle, NoTurn)
    ensures Valid(r) && Reaches(s, r) && r.limit == s.limit && |r.threads| == |s.threads|
    ensures r.used == level && r.threads[i] == s.threads[i]
    decreases n
  {
    if n == 0 {
      r := s;
      ReachesSelf(s);
    } else if n - 1 == i {
      r := Fill(s, i, n - 1, level);
    } else {
      var amount := if level - s.used <= ASK_MAX then level - s.used else ASK_MAX;
      var mid := Takes(s, n - 1, amount);
      r := Fill(mid, i, n - 1, level);
      ReachesJoin(s, mid, r);
    }
  }

  /** An outgrown reservation does exceed the limit in some run. */
  lemma Exceeds(s: State) returns (mid: State, r: State)
    requires Valid(s) && Asks(s) && SomeOutgrown(s)
    ensures Reaches(s, mid) && Reaches(mid, r)
    ensures mid.used <= s.limit < r.used
  {
    var i :| 0 <= i < |s.threads| && Outgrown(s.limit, s.threads[i]);
    var n := |s.threads|;
    mid := AllWithdraw(s, i, n);
    NoCharges(mid.threads);
    assert AskSound(n, mid.threads[i].pc);
    var full := Fill(mid, i, n, mid.threads[i].pc.seen);
    r := After(full, i, CasSucceeds);
    ReachesSelf(r);
    ReachesAfter(full, i, CasSucceeds, r);
    ReachesJoin(mid, full, r);
  }

  /**
    Exactly when the limit can be exceeded: from a reachable state and for as long as the
    limit stays what it is, some run comes to at most the limit and later passes it, if and
    only if a reservation now stands between its check and its compare-exchange that saw no
    more than the limit and would take the total past it. Only a resize leaves one behind.
   */
  lemma LimitExceededIff(start: State, before: seq<(nat, Move)>, s: State)
    requires Initial(start) && Runs(start, before, s)
    ensures (exists mid: State, r: State :: Reaches(s, mid) && Reaches(mid, r) && mid.used <= s.limit < r.used)
            <==> SomeOutgrown(s)
  {
    InitialCharges(start.threads);
    RunKeepsValid(start, before, s);
    RunKeepsAsks(start, before, s);
    if SomeOutgrown(s) {
      var mid, r := Exceeds(s);
    }
    if mid: State, r: State :| Reaches(s, mid) && Reaches(mid, r) && mid.used <= s.limit < r.used {
      var first: seq<(nat, Move)> :| LimitConstant(first) && Runs(s, first, mid);
      var second: seq<(nat, Move)> :| LimitConstant(second) && Runs(mid, second, r);
      RunOutgrown(s, first, mid);
      RunOutgrown(mid, second, r);
    }
  }

  /** While the limit is constant no run from a fresh budget leaves such a reservation. */
  lemma {:induction false} OutgrownOnlyByResize(s: State, trace: seq<(nat, Move)>, r: State)
    requires Initial(s) && Runs(s, trace, r) && LimitConstant(trace)
    ensures !SomeOutgrown(r) && r.used <= r.limit
  {
    InitialCharges(s.threads);
    RunOutgrown(s, trace, r);
  }

  lemma RunsTwo(s: State, i: nat, a: Move, b: Move)
    requires Bounded(s) && i < |s.threads| && Enabled(s, i, a)
    requires Bounded(After(s, i, a)) && Enabled(After(s, i, a), i, b)
    ensures Runs(s, [(i, a), (i, b)], After(After(s, i, a), i, b))
  {
    var s1 := After(s, i, a);
    var s2 := After(s1, i, b);
    assert [(i, a), (i, b)][1..] == [(i, b)];
    assert Runs(s1, [(i, b)], s2);
  }

  const AT_REST: Thread := Thread(Idle, NoTurn)

  lemma ReservingRun(limit: nat, amount: nat)
    requires amount <= limit <= USIZE_MAX && amount <= ASK_MAX
    ensures Runs(State(limit, 0, [AT_REST, AT_REST]), [(0, TryAcquire(amount)), (0, LoadUsed), (0, CheckLimit)],
                 State(limit, 0, [Thread(Swapping(amount, 0), NoTurn), AT_REST]))
  {
    var s := State(limit, 0, [AT_REST, AT_REST]);
    var asked := State(limit, 0, [Thread(Loading(amount), NoTurn), AT_REST]);
    assert After(s, 0, TryAcquire(amount)) == asked;
    RunsTwo(asked, 0, LoadUsed, CheckLimit);
    var loaded := State(limit, 0, [Thread(Checking(amount, 0), NoTurn), AT_REST]);
    assert After(asked, 0, LoadUsed) == loaded;
    assert After(loaded, 0, CheckLimit) == State(limit, 0, [Thread(Swapping(amount, 0), NoTurn), AT_REST]);
    var trace: seq<(nat, Move)> := [(0, TryAcquire(amount)), (0, LoadUsed), (0, CheckLimit)];
    assert trace[1..] == [(0, LoadUsed), (0, CheckLimit)];
  }

  lemma ResizingRun(t: Thread, limit: nat, smaller: nat)
    requires t.turn.NoTurn? && AmountOf(t.pc) <= USIZE_MAX && smaller <= USIZE_MAX && limit <= USIZE_MAX
    ensures Runs(State(limit, 0, [t, AT_REST]), [(1, Resize(smaller)), (1, Notify)], State(smaller, 0, [t, AT_REST]))
  {
    var s := State(limit, 0, [t, AT_REST]);
    var stored := State(smaller, 0, [t, Thread(ResizeNotify, NoTurn)]);
    assert After(s, 1, Resize(smaller)) == stored;
    assert NotifyAll(stored.threads) == stored.threads;
    assert After(stored, 1, Notify) == State(smaller, 0, [t, AT_REST]);
    RunsTwo(s, 1, Resize(smaller), Notify);
  }

  /**
    A budget that is resized below an amount while that amount is being reserved: the
    reservation that passed its check before the resize lifts `used` past the new limit.
   */
  lemma OvershootDuringResize(limit: nat, smaller: nat, amount: nat)
    returns (s: State, trace: seq<(nat, Move)>, mid: State, r: State)
    requires smaller < amount <= limit <= USIZE_MAX && amount <= ASK_MAX
    ensures Initial(s) && s.limit == limit && Runs(s, trace, mid) && Runs(mid, [(0, CasSucceeds)], r)
    ensures mid.used == 0 && mid.limit == r.limit == smaller && r.used == amount
  {
    s := State(limit, 0, [AT_REST, AT_REST]);
    var reserving := Thread(Swapping(amount, 0), NoTurn);
    var reserved := State(limit, 0, [reserving, AT_REST]);
    mid := State(smaller, 0, [reserving, AT_REST]);
    r := After(mid, 0, CasSucceeds);
    var check: seq<(nat, Move)> := [(0, TryAcquire(amount)), (0, LoadUsed), (0, CheckLimit)];
    var resize: seq<(nat, Move)> := [(1, Resize(smaller)), (1, Notify)];
    trace := check + resize;
    ReservingRun(limit, amount);
    ResizingRun(reserving, limit, smaller);
    RunsJoin(s, check, reserved, resize, mid);
    assert Runs(mid, [(0, CasSucceeds)], r) by { assert [(0, CasSucceeds)][1..] == []; }
  }
}
