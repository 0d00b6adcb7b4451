/**
  Exactly when a step recovers a finding, and which of its readings a recovery rests on: they
  are consecutive, and of one run, in every history exactly when one confirmation is enough.
 */
module LifecycleRecovery {
  import opened Order
  import opened Evidence
  import opened Pipeline
  import opened Lifecycle
  import opened LifecycleProofs
  import opened LifecycleRuns
  import opened LifecycleHistory

  // ---------------------------------------------------------------- one step

  lemma SettleOneGrows(job: Job, now: Time, x: Facts, id: string, s: Settling)
    requires id in s.findings
    ensures s.transitions <= SettleOne(job, now, x, id, s).transitions
  {
    hide ClearTime, AbsentNow, AbsenceTime, ConfirmationKey, Confirm;
  }

  lemma {:induction false} SettleAllGrows(job: Job, now: Time, x: Facts, ids: seq<string>, s: Settling)
    requires forall i :: 0 <= i < |ids| ==> ids[i] in s.findings
    ensures s.transitions <= SettleAll(job, now, x, ids, s).transitions
    decreases |ids|
  {
    hide SettleOne;
    if ids != [] {
      SettleOneGrows(job, now, x, ids[0], s);
      SettleAllGrows(job, now, x, ids[1..], SettleOne(job, now, x, ids[0], s));
    }
  }

  /** The finding has a clear reading in this step, and with it enough of them. */
  predicate Due(job: Job, x: Facts, id: string, f: Finding) {
    id !in x.current && ClearTime(x, f).Some? && Increment(f.clearCount) >= job.recoverConfirmations
  }

  lemma SettleOneRecovers(job: Job, now: Time, x: Facts, id: string, s: Settling)
    requires id in s.findings && Due(job, x, id, s.findings[id])
    ensures Transition(now, id, Recovered) in SettleOne(job, now, x, id, s).transitions
  {
    hide ClearTime, AbsentNow, AbsenceTime, ConfirmationKey, Confirm;
  }

  lemma {:induction false} SettleAllRecovers(job: Job, now: Time, x: Facts, ids: seq<string>, s: Settling, id: string)
    requires forall i :: 0 <= i < |ids| ==> ids[i] in s.findings
    requires forall i, j :: 0 <= i < j < |ids| ==> ids[i] != ids[j]
    requires id in ids && Due(job, x, id, s.findings[id])
    ensures Transition(now, id, Recovered) in SettleAll(job, now, x, ids, s).transitions
    decreases |ids|
  {
    hide SettleOne, Due, Visited;
    var next := SettleOne(job, now, x, ids[0], s);
    if ids[0] == id {
      SettleOneRecovers(job, now, x, id, s);
      SettleAllGrows(job, now, x, ids[1..], next);
    } else {
      assert ids == [ids[0]] + ids[1..];
      SettleOneFindings(job, now, x, ids[0], s);
      SettleAllRecovers(job, now, x, ids[1..], next, id);
    }
  }

  lemma SettleKeysRecovers(job: Job, now: Time, x: Facts, s: Settling, id: string)
    requires id in s.findings && Due(job, x, id, s.findings[id])
    ensures Transition(now, id, Recovered) in SettleAll(job, now, x, Keys(s.findings.Keys), s).transitions
  {
    hide SettleAll, Due, Less;
    SettleAllRecovers(job, now, x, Keys(s.findings.Keys), s, id);
  }

  /** A step announces the recovery of exactly the findings that are due in it. */
  lemma StepRecoversIff(z: Sizes, s: Snapshot, x: Input, id: string)
    ensures (exists t :: t in Emitted(z, s, x) && t.finding == id && t.kind.Recovered?)
            <==> id in Scanned(z, s, x).findings && Due(x.job, FactsOf(z, s, x), id, Scanned(z, s, x).findings[id])
  {
    hide Scanned, FactsOf, SettleAll, ClearTime, VisitedConfirmation, Absent, Settled, Keys;
    if t :| t in Emitted(z, s, x) && t.finding == id && t.kind.Recovered? {
      EmittedMeans(z, s, x, t);
    }
    if id in Scanned(z, s, x).findings && Due(x.job, FactsOf(z, s, x), id, Scanned(z, s, x).findings[id]) {
      SettledStart(z, s, x);
      SettleKeysRecovers(x.job, x.now, FactsOf(z, s, x), Start(z, s, x), id);
      assert Transition(x.now, id, Recovered) in Emitted(z, s, x);
    }
  }

  // ---------------------------------------------------------------- whole histories

  ghost predicate Recovers(z: Sizes, events: seq<Event>, n: nat, id: string)
    requires n < |events|
  {
    exists t :: t in EmittedAt(z, events, n) && t.finding == id && t.kind.Recovered?
  }

  /** The count a step finds is that of all clear readings since the latest detection. */
  lemma ScannedCount(z: Sizes, events: seq<Event>, n: nat, id: string)
    requires n < |events| && Seen(z, events, n, id).Some? && !DetectedAt(z, events, n, id)
    ensures Seen(z, events, n, id).value.clearCount == Capped(ClearSteps(z, events, n, id))
  {
    hide ClearRecord, Scanned, At, ClearSteps;
    var d, steps, times := ScannedRecord(z, events, n, id);
    LifecycleHistory.Detection(z, events, n, id, d, steps, times);
  }

  lemma NotApplied(z: Sizes, events: seq<Event>, n: nat, id: string)
    requires n < |events| && !events[n].Applied?
    ensures !Recovers(z, events, n, id)
  {
    hide At, Expired;
    if events[n].Aged? {
      forall t | t in EmittedAt(z, events, n)
        ensures t.kind.WentStale?
      {
        NotExpiry(At(z, events, n), events[n].freshness, events[n].now, t);
      }
    }
  }

  lemma DetectedCurrent(z: Sizes, events: seq<Event>, n: nat, id: string)
    requires n < |events| && events[n].Applied? && id in Scanned(z, At(z, events, n), events[n].x).findings
    ensures DetectedAt(z, events, n, id) <==> id in FactsOf(z, At(z, events, n), events[n].x).current
  {
    hide Scanned, FactsOf, At;
    CurrentOf(z, At(z, events, n), events[n].x);
  }

  /**
    An event announces the recovery of a finding if and only if it counts a clear reading of it
    and the clear readings since its latest detection, this one included, reach the setting.
   */
  lemma RecoversIff(z: Sizes, events: seq<Event>, n: nat, id: string)
    requires n < |events|
    ensures Recovers(z, events, n, id) <==>
      ClearsAt(z, events, n, id) && Capped(ClearSteps(z, events, n + 1, id)) >= events[n].x.job.recoverConfirmations
  {
    hide At, Scanned, FactsOf, ClearTime, DetectedAt, Emitted;
    if !events[n].Applied? {
      NotApplied(z, events, n, id);
    } else {
      var s, x := At(z, events, n), events[n].x;
      StepRecoversIff(z, s, x, id);
      if id in Scanned(z, s, x).findings {
        SeenScanned(z, events, n, id);
        DetectedCurrent(z, events, n, id);
        if !DetectedAt(z, events, n, id) {
          ScannedCount(z, events, n, id);
        }
      }
    }
  }

  // ---------------------------------------------------------------- the readings a recovery rests on

  /** The clear readings counted by the events from `m` up to `n`. */
  ghost function ClearsIn(z: Sizes, events: seq<Event>, m: nat, n: nat, id: string): (c: nat)
    requires n <= |events|
    decreases n
  {
    if n <= m then 0 else ClearsIn(z, events, m, n - 1, id) + if ClearsAt(z, events, n - 1, id) then 1 else 0
  }

  /** The recovery at `n` rests on its last `count` clear readings, the first of them at `m`. */
  ghost predicate RestsOn(z: Sizes, events: seq<Event>, n: nat, id: string, count: nat, m: nat)
    requires n < |events|
  {
    && m <= n && ClearsAt(z, events, m, id) && ClearsIn(z, events, m, n + 1, id) == count
    && forall k :: m <= k <= n ==> !DetectedAt(z, events, k, id)
  }

  /** Confirmations a recovery needs; there is always the reading of the step itself. */
  function Needed(setting: nat): (n: nat) { if setting == 0 then 1 else setting }

  lemma {:induction false} RestsFrom(z: Sizes, events: seq<Event>, n: nat, id: string, count: nat) returns (m: nat)
    requires n <= |events| && 1 <= count <= ClearSteps(z, events, n, id)
    ensures m < n && ClearsAt(z, events, m, id) && ClearsIn(z, events, m, n, id) == count
    ensures forall k :: m <= k < n ==> !DetectedAt(z, events, k, id)
    decreases n
  {
    hide ClearsAt, DetectedAt;
    if !ClearsAt(z, events, n - 1, id) {
      m := RestsFrom(z, events, n - 1, id, count);
    } else if count == 1 {
      m := n - 1;
      assert ClearsIn(z, events, m, n - 1, id) == 0;
    } else {
      m := RestsFrom(z, events, n - 1, id, count - 1);
    }
  }

  lemma {:induction false} FirstCounts(z: Sizes, events: seq<Event>, m: nat, n: nat, id: string)
    requires m < n <= |events| && ClearsAt(z, events, m, id)
    ensures ClearsIn(z, events, m, n, id) >= 1
    decreases n
  {
    hide ClearsAt;
    if n - 1 > m {
      FirstCounts(z, events, m, n - 1, id);
    }
  }

  /** The recovery at `n`, under this setting. */
  ghost predicate RecoversUnder(z: Sizes, events: seq<Event>, n: nat, id: string, setting: nat)
    requires n < |events|
  {
    Recovers(z, events, n, id) && events[n].Applied? && events[n].x.job.recoverConfirmations == setting
  }

  /** Every recovery rests on as many clear readings as its setting needs, the last of them its own. */
  lemma RecoveryRests(z: Sizes, events: seq<Event>, n: nat, id: string) returns (m: nat)
    requires n < |events| && Recovers(z, events, n, id)
    ensures events[n].Applied? && ClearsAt(z, events, n, id)
    ensures RestsOn(z, events, n, id, Needed(events[n].x.job.recoverConfirmations), m)
  {
    hide ClearsAt, DetectedAt, Recovers;
    RecoversIff(z, events, n, id);
    ClearsApplied(z, events, n, id);
    m := RestsFrom(z, events, n + 1, id, Needed(events[n].x.job.recoverConfirmations));
  }

  lemma ClearsApplied(z: Sizes, events: seq<Event>, n: nat, id: string)
    requires n < |events| && ClearsAt(z, events, n, id)
    ensures events[n].Applied? && !DetectedAt(z, events, n, id) && ClearSteps(z, events, n + 1, id) >= 1
  {
    hide At, Seen, FactsOf;
  }

  /** Where one confirmation is enough, a recovery rests on the one reading of its own step. */
  lemma OneReading(z: Sizes, events: seq<Event>, n: nat, id: string, setting: nat, m: nat)
    requires n < |events| && RecoversUnder(z, events, n, id, setting) && setting <= 1
    requires RestsOn(z, events, n, id, Needed(setting), m)
    ensures m == n && ClearsAt(z, events, n, id)
  {
    hide ClearsAt, DetectedAt, Recovers;
    RecoversIff(z, events, n, id);
    if m < n {
      FirstCounts(z, events, m, n, id);
    }
  }

  // ---------------------------------------------------------------- consecutive readings, and one run

  /** Event `k` reads the resource of the finding, rates it other than clear, and counts nothing. */
  ghost predicate UnclearAt(z: Sizes, events: seq<Event>, k: nat, id: string)
    requires k < |events|
  {
    && events[k].Applied? && Seen(z, events, k, id).Some? && !ClearsAt(z, events, k, id)
    && ReadsUnclear(z, At(z, events, k), events[k].x, Seen(z, events, k, id).value.resource)
  }

  ghost predicate ReadsUnclear(z: Sizes, s: Snapshot, x: Input, resource: string) {
    exists i :: 0 <= i < |Final(z, s, x).observations| && Final(z, s, x).observations[i].resource == resource
                && !Clears(Evaluate(x.job, x.policy, Stored(s.results, x.job.key), i, Final(z, s, x).observations[i]).health)
  }

  /** No such reading lies between those the recovery at `n` rests on. */
  ghost predicate Consecutive(z: Sizes, events: seq<Event>, m: nat, n: nat, id: string)
    requires n < |events|
  {
    forall k :: m <= k <= n ==> !UnclearAt(z, events, k, id)
  }

  predicate OneRun(events: seq<Event>, m: nat, n: nat)
    requires n < |events|
  {
    forall k :: m <= k <= n ==> !events[k].Begun?
  }

  /** Under this setting, whatever the history, the readings a recovery rests on are consecutive. */
  ghost predicate AlwaysConsecutive(setting: nat) {
    forall z: Sizes, events: seq<Event>, n: nat, id: string, m: nat ::
      n < |events| && RecoversUnder(z, events, n, id, setting) && RestsOn(z, events, n, id, Needed(setting), m) ==>
        Consecutive(z, events, m, n, id)
  }

  /** Under this setting, whatever the history, they all belong to one run. */
  ghost predicate AlwaysOneRun(setting: nat) {
    forall z: Sizes, events: seq<Event>, n: nat, id: string, m: nat ::
      n < |events| && RecoversUnder(z, events, n, id, setting) && RestsOn(z, events, n, id, Needed(setting), m) ==>
        OneRun(events, m, n)
  }

  lemma OneIsEnough(setting: nat)
    requires setting <= 1
    ensures AlwaysConsecutive(setting) && AlwaysOneRun(setting)
  {
    hide RecoversUnder, RestsOn, ClearsAt, UnclearAt;
    forall z: Sizes, events: seq<Event>, n: nat, id: string, m: nat
      | n < |events| && RecoversUnder(z, events, n, id, setting) && RestsOn(z, events, n, id, Needed(setting), m)
      ensures Consecutive(z, events, m, n, id) && OneRun(events, m, n)
    {
      OneReading(z, events, n, id, setting, m);
      NotUnclear(z, events, n, id);
    }
  }

  lemma NotUnclear(z: Sizes, events: seq<Event>, n: nat, id: string)
    requires n < |events| && ClearsAt(z, events, n, id)
    ensures !UnclearAt(z, events, n, id) && events[n].Applied?
  {
    hide At, Seen, FactsOf, ReadsUnclear, DetectedAt;
  }
}
