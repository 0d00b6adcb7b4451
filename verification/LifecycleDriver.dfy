/** The object driven through a whole history: it goes where the histories of the theorems go. */
module LifecycleDriver {
  import opened Order
  import opened Evidence
  import opened Pipeline
  import opened Lifecycle
  import opened LifecycleProofs
  import opened LifecycleHistory
  import opened LifecycleState

  /**
    Performs the events on a fresh state, one method call each, and keeps the announcements.
    The snapshot and the log are those of the history, so every theorem about histories is one
    about this object; the limits on its size and the replay of its log are stated here.
   */
  method Perform(z: Sizes, events: seq<Event>) returns (state: State, log: seq<Transition>)
    ensures fresh(state)
    ensures state.Snap() == At(z, events, |events|) && log == LifecycleHistory.Log(z, events, |events|)
    ensures forall m :: CappedBy(events, |events|, m) ==> |state.findings| <= m && |state.retired| <= m
    ensures state.findings.Keys !! state.retired.Keys
    ensures (forall i :: 0 <= i < |events| ==> !events[i].Rescoped?) ==> ReplayAll(Ledger({}, {}), log).ids == state.findings.Keys
  {
    hide Step, Emitted, Expired, ExpireSnapshot, Trim, RetainScope, ReplayAll, At, LifecycleHistory.Log;
    state := new State();
    log := [];
    NothingYet(z, events);
    for i := 0 to |events|
      invariant fresh(state)
      invariant state.Snap() == At(z, events, i) && log == LifecycleHistory.Log(z, events, i)
    {
      AtNext(z, events, i);
      LogNext(z, events, i);
      var announced := PerformOne(z, state, events[i]);
      log := log + announced;
    }
    LimitsHold(z, events);
    if forall i :: 0 <= i < |events| ==> !events[i].Rescoped? {
      LogReplays(z, events, |events|);
    }
  }

  /** One event, one call. */
  method PerformOne(z: Sizes, state: State, event: Event) returns (announced: seq<Transition>)
    modifies state
    ensures state.Snap() == After(z, old(state.Snap()), event)
    ensures announced == Announced(z, old(state.Snap()), event)
  {
    hide Step, Emitted, Expired, ExpireSnapshot, Trim, RetainScope;
    announced := [];
    match event
    case Applied(x) => announced := state.Apply(z, x);
    case Aged(freshness, now) => announced := state.Expire(freshness, now);
    case Trimmed(limit) => state.TrimRetired(limit);
    case Begun => state.BeginRun();
    case Rescoped(jobs, moved, reselected) => state.Rescope(jobs, moved, reselected);
  }

  /** What one event announces from a snapshot. */
  ghost function Announced(z: Sizes, s: Snapshot, event: Event): (ts: seq<Transition>) {
    match event
    case Applied(x) => Emitted(z, s, x)
    case Aged(freshness, now) => Expired(s, freshness, now)
    case _ => []
  }

  lemma {:induction false} NothingYet(z: Sizes, events: seq<Event>)
    ensures At(z, events, 0) == Snapshot(map[], map[], map[], map[], map[], map[]) && LifecycleHistory.Log(z, events, 0) == []
  {
  }

  lemma {:induction false} LogNext(z: Sizes, events: seq<Event>, n: nat)
    requires n < |events|
    ensures LifecycleHistory.Log(z, events, n + 1) == LifecycleHistory.Log(z, events, n) + Announced(z, At(z, events, n), events[n])
  {
    hide At, Emitted, Expired;
  }

  lemma {:induction false} LimitsHold(z: Sizes, events: seq<Event>)
    ensures var s := At(z, events, |events|);
      && (forall m :: CappedBy(events, |events|, m) ==> |s.findings| <= m && |s.retired| <= m)
      && s.findings.Keys !! s.retired.Keys
  {
    hide At;
    forall m | CappedBy(events, |events|, m)
      ensures |At(z, events, |events|).findings| <= m && |At(z, events, |events|).retired| <= m
    {
      RunBounded(z, events, |events|, m);
    }
    RunWf(z, events, |events|);
  }
}
