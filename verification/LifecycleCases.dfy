/** Histories that show what the lifecycle does not promise, for every setting that allows them. */
module LifecycleCases {
  import opened Order
  import opened Evidence
  import opened Pipeline
  import opened Lifecycle
  import opened LifecycleProofs
  import opened LifecycleRuns
  import opened LifecycleHistory
  import opened LifecycleRecovery

  const Z: Sizes := Sizes(o => 0, p => 0)

  const KEY: string := "job"
  const FRESHNESS: nat := 60

  /** A job that asks for `r` confirmations of a recovery. */
  function JobOf(r: nat): (job: Job) {
    Job(KEY, "target", Metrics, true, "", "", [], map[], freshness := FRESHNESS, maxFindings := 5, maxAssets := 5,
        memoryBytes := 100, recoverConfirmations := r, removalConfirmations := 2, nodeGrace := 0, rolloutGrace := 0)
  }

  const RESOURCE: string := "target/queue"
  const OPERATION: string := "read"
  const ID: string := "finding"

  function Sample(t: Time): (o: Observation) { Observation(RESOURCE, OPERATION, t, Other(true)) }

  /** One complete operation with one reading, both taken at `t`. */
  function Collected(t: Time): (r: CheckResult) {
    CheckResult("target", t, [Operation(OPERATION, Complete, t)], [Sample(t)])
  }

  /** The reading of time `t`, judged as `e` when it arrives. */
  function Reads(r: nat, t: Time, e: Evaluation): (x: Input) {
    Input(JobOf(r), Collected(t), (i, o, prior) => e, obs => obs, t)
  }

  function Detected(t: Time): (f: Finding) {
    Finding(ID, RESOURCE, "rule", Error, [OPERATION], t, None, false, 0, None, None)
  }

  function Raised(r: nat, t: Time): (e: Event) { Applied(Reads(r, t, Evaluation(Unhealthy, [Detected(t)]))) }

  function Judged(r: nat, t: Time, h: Health): (e: Event) { Applied(Reads(r, t, Evaluation(h, []))) }

  /** The snapshot holds one unexpired finding of the sampled resource and results of no other job. */
  ghost predicate Holds(s: Snapshot, at: Time, count: nat) {
    && s.findings.Keys == {ID} && s.results.Keys <= {KEY}
    && var f := s.findings[ID];
      f.resource == RESOURCE && f.evidence == [OPERATION] && f.observedAt == at && f.clearCount == count
      && !f.stale && f.validUntil == Some(at + FRESHNESS * SECOND)
  }

  lemma NothingElsewhere(s: Snapshot)
    requires s.results.Keys <= {KEY}
    ensures SumResults(Z, s.results - {KEY}) == 0 && SumAssets(s.results - {KEY}) == 0
  {
    assert s.results - {KEY} == map[];
  }

  /** The pipeline leaves such a result as it is. */
  lemma Unchanged(r: nat, s: Snapshot, t: Time, e: Evaluation)
    requires s.results.Keys <= {KEY}
    ensures Validity(Z, s, Reads(r, t, e)) == Collected(t) && Bounded(Z, s, Reads(r, t, e)) == Collected(t)
    ensures CompleteIds(Collected(t).operations) == {OPERATION}
  {
    NothingElsewhere(s);
    var whole := Collected(t);
    assert Fitting(Z, whole.observations, OperationBytes(Z, whole.operations), 50, 5) == 1;
    assert JudgeAll([Sample(t)], FRESHNESS, t, whole.operations) == whole.operations;
    assert Collected(t).operations[0].id in CompleteIds(Collected(t).operations);
  }

  lemma ScannedOnce(r: nat, s: Snapshot, t: Time, e: Evaluation)
    requires s.results.Keys <= {KEY}
    ensures var x := Reads(r, t, e);
      Scanned(Z, s, x) == ReportAll(Z, JobOf(r), t, Sample(t), Prior(Stored(s.results, KEY), RESOURCE), e.findings,
                                    Rate(JobOf(r), {OPERATION}, Sample(t), e, InitialScan(Z, s, x)))
  {
    hide SumFindings, ReportAll, Rate;
    Unchanged(r, s, t, e);
    var x := Reads(r, t, e);
    var scan := Assess(Z, JobOf(r), x.policy, t, {OPERATION}, Stored(s.results, KEY), 0, Sample(t), InitialScan(Z, s, x));
    assert AssessAll(Z, JobOf(r), x.policy, t, {OPERATION}, Stored(s.results, KEY), 1, [Sample(t)], scan) == scan;
  }

  lemma OneKey()
    ensures Keys({ID}) == [ID]
  {
    hide Less;
    var ids := Keys({ID});
    assert ids[0] in ids;
  }

  /** What a step knows when the only reading is rated `h` and reports nothing. */
  lemma QuietScan(r: nat, s: Snapshot, t: Time, h: Health)
    requires s.results.Keys <= {KEY}
    ensures var x := Reads(r, t, Evaluation(h, []));
      && Scanned(Z, s, x).findings == s.findings && Scanned(Z, s, x).current == {} && Scanned(Z, s, x).transitions == []
      && Final(Z, s, x) == Collected(t)
      && FactsOf(Z, s, x).current == {}
      && FactsOf(Z, s, x).present == {RESOURCE}
      && FactsOf(Z, s, x).clear == if Clears(h) then map[RESOURCE := Reading(OPERATION, t)] else map[]
  {
    hide SumFindings;
    var e := Evaluation(h, []);
    ScannedOnce(r, s, t, e);
    Unchanged(r, s, t, e);
    assert Collected(t).observations[0].resource == RESOURCE;
  }

  /** The one finding is visited once. */
  lemma QuietSettled(r: nat, s: Snapshot, at: Time, count: nat, t: Time, h: Health)
    requires Holds(s, at, count) && at < t
    ensures var x := Reads(r, t, Evaluation(h, []));
      var settled := Settled(Z, s, x);
      if Clears(h) then
        && settled.findings == s.findings[ID := Cleared(JobOf(r), s.findings[ID], t)]
        && (Increment(count) >= r ==> settled.transitions == [Transition(t, ID, Recovered)])
        && (Increment(count) < r ==> settled.transitions == [] && settled.removed == [])
      else settled.findings == s.findings && settled.transitions == [] && settled.removed == []
  {
    hide Scanned, FactsOf, Keys;
    var x := Reads(r, t, Evaluation(h, []));
    QuietScan(r, s, t, h);
    OneKey();
    var start := Settling(s.findings, s.confirmations, [], []);
    var facts := FactsOf(Z, s, x);
    assert SettleAll(JobOf(r), t, facts, [ID], start) == SettleOne(JobOf(r), t, facts, ID, start);
  }

  /** A reading that is not the last one needed adds to the count when it is clear and else changes nothing. */
  lemma QuietStep(r: nat, s: Snapshot, at: Time, count: nat, t: Time, h: Health)
    requires Holds(s, at, count) && at < t <= at + FRESHNESS * SECOND
    requires Clears(h) ==> count + 1 < r <= U32_MAX
    ensures Holds(Step(Z, s, Reads(r, t, Evaluation(h, []))), if Clears(h) then t else at, if Clears(h) then count + 1 else count)
  {
    hide Scanned, Settled, Final, Trim, Downgrade, IsOutdated, ExpireResult;
    QuietSettled(r, s, at, count, t, h);
  }

  /** The last clear reading recovers. */
  lemma LastReading(r: nat, s: Snapshot, at: Time, t: Time)
    requires 2 <= r <= U32_MAX && Holds(s, at, r - 1) && at < t
    ensures Transition(t, ID, Recovered) in Emitted(Z, s, Reads(r, t, Evaluation(Healthy, [])))
  {
    hide Settled, Expired, Replaced;
    QuietSettled(r, s, at, r - 1, t, Healthy);
  }

  lemma FirstScan(r: nat, t: Time)
    ensures var x := Reads(r, t, Evaluation(Unhealthy, [Detected(t)]));
      var scan := Scanned(Z, EMPTY, x);
      && scan.findings.Keys == {ID} && scan.current == {ID} && !scan.capped
      && scan.findings[ID].(diagnostic := None) == Dress(JobOf(r), Sample(t), Detected(t))
      && Final(Z, EMPTY, x) == Collected(t)
  {
    hide SumFindings;
    var e := Evaluation(Unhealthy, [Detected(t)]);
    ScannedOnce(r, EMPTY, t, e);
    Unchanged(r, EMPTY, t, e);
    var rated := Rate(JobOf(r), {OPERATION}, Sample(t), e, InitialScan(Z, EMPTY, Reads(r, t, e)));
    var told := Report(Z, JobOf(r), t, Sample(t), None, Detected(t), rated);
    assert ReportAll(Z, JobOf(r), t, Sample(t), None, [], told) == told;
    assert rated.findings == map[];
    assert told == Accept(JobOf(r), t, Sample(t), Detected(t), Admit(Z, Capture(JobOf(r), Sample(t), None, None), None, rated.remaining), rated);
  }

  lemma FirstSettled(r: nat, t: Time)
    ensures var x := Reads(r, t, Evaluation(Unhealthy, [Detected(t)]));
      Settled(Z, EMPTY, x).findings == Scanned(Z, EMPTY, x).findings && Settled(Z, EMPTY, x).removed == []
  {
    hide Scanned, FactsOf, Keys;
    var x := Reads(r, t, Evaluation(Unhealthy, [Detected(t)]));
    FirstScan(r, t);
    OneKey();
    CurrentOf(Z, EMPTY, x);
    var start := Start(Z, EMPTY, x);
    assert SettleAll(JobOf(r), t, FactsOf(Z, EMPTY, x), [ID], start) == SettleOne(JobOf(r), t, FactsOf(Z, EMPTY, x), ID, start);
  }

  /** A detection from nothing. */
  lemma FirstReading(r: nat, t: Time)
    ensures Holds(Step(Z, EMPTY, Reads(r, t, Evaluation(Unhealthy, [Detected(t)]))), t, 0)
  {
    hide Scanned, Settled, Final, Trim, Downgrade, IsOutdated, ExpireResult;
    FirstScan(r, t);
    FirstSettled(r, t);
  }

  // ---------------------------------------------------------------- a history for every setting

  /** What comes between the first and the second clear reading. */
  ghost predicate Between(r: nat, gap: Event) { gap == Judged(r, 2, Unknown) || gap == Begun }

  /** Detected at 0, clear at 1, then the gap, then clear until `r` readings were. */
  function Story(r: nat, gap: Event): (events: seq<Event>)
    requires r >= 2
    ensures |events| == r + 2
  {
    seq(r + 2, i requires 0 <= i < r + 2 => if i == 0 then Raised(r, 0) else if i == 2 then gap else Judged(r, i, Healthy))
  }

  /** The clear readings of the story before event `k`, and the time of the last of them. */
  function CountAt(k: nat): (n: nat) { if k <= 1 then 0 else if k <= 3 then 1 else k - 2 }

  function ClearedAt(k: nat): (t: Time) { if k <= 1 then 0 else if k <= 3 then 1 else k - 1 }

  /** A reading that reports nothing detects nothing and counts exactly when it is clear. */
  lemma {:induction false} Counted(r: nat, events: seq<Event>, k: nat, at: Time, count: nat, t: Time, h: Health)
    requires k < |events| && events[k] == Judged(r, t, h) && Holds(At(Z, events, k), at, count) && at < t
    ensures !DetectedAt(Z, events, k, ID) && (ClearsAt(Z, events, k, ID) <==> Clears(h))
    ensures h.Unknown? ==> UnclearAt(Z, events, k, ID)
  {
    hide Scanned, FactsOf, Final, At;
    var s, x := At(Z, events, k), events[k].x;
    QuietScan(r, s, t, h);
    if h.Unknown? {
      assert Final(Z, s, x).observations[0].resource == RESOURCE;
    }
  }

  lemma {:induction false} StoryHolds(r: nat, gap: Event, k: nat)
    requires 2 <= r <= U32_MAX && Between(r, gap) && 1 <= k <= r + 1
    ensures var events := Story(r, gap);
      && Holds(At(Z, events, k), ClearedAt(k), CountAt(k))
      && ClearsIn(Z, events, 1, k, ID) == CountAt(k)
      && forall j :: 1 <= j < k ==> !DetectedAt(Z, events, j, ID)
    decreases k
  {
    hide Step, Holds, At, ClearsAt, DetectedAt, UnclearAt;
    var events := Story(r, gap);
    if k == 1 {
      RaisedStep(r, events);
    } else {
      StoryHolds(r, gap, k - 1);
      StoryStep(r, gap, k - 1);
    }
  }

  lemma {:induction false} RaisedStep(r: nat, events: seq<Event>)
    requires events != [] && events[0] == Raised(r, 0)
    ensures Holds(At(Z, events, 1), 0, 0)
  {
    hide Step, Holds;
    assert At(Z, events, 0) == EMPTY;
    FirstReading(r, 0);
  }

  /** One more reading that is not the last one needed. */
  lemma {:induction false} JudgedStep(r: nat, events: seq<Event>, k: nat, at: Time, count: nat, t: Time, h: Health)
    requires k < |events| && events[k] == Judged(r, t, h) && Holds(At(Z, events, k), at, count)
    requires at < t <= at + FRESHNESS * SECOND && (Clears(h) ==> count + 1 < r <= U32_MAX)
    ensures Holds(At(Z, events, k + 1), if Clears(h) then t else at, if Clears(h) then count + 1 else count)
    ensures !DetectedAt(Z, events, k, ID) && (ClearsAt(Z, events, k, ID) <==> Clears(h))
  {
    hide Step, At, Holds, DetectedAt, ClearsAt, UnclearAt;
    AtNext(Z, events, k);
    Counted(r, events, k, at, count, t, h);
    QuietStep(r, At(Z, events, k), at, count, t, h);
  }

  lemma {:induction false} BegunStep(events: seq<Event>, k: nat, at: Time, count: nat)
    requires k < |events| && events[k] == Begun && Holds(At(Z, events, k), at, count)
    ensures Holds(At(Z, events, k + 1), at, count) && !DetectedAt(Z, events, k, ID) && !ClearsAt(Z, events, k, ID)
  {
    hide At;
    AtNext(Z, events, k);
  }

  lemma {:induction false} StoryStep(r: nat, gap: Event, k: nat)
    requires 2 <= r <= U32_MAX && Between(r, gap) && 1 <= k <= r && Holds(At(Z, Story(r, gap), k), ClearedAt(k), CountAt(k))
    ensures var events := Story(r, gap);
      && Holds(At(Z, events, k + 1), ClearedAt(k + 1), CountAt(k + 1))
      && !DetectedAt(Z, events, k, ID)
      && CountAt(k + 1) == CountAt(k) + if ClearsAt(Z, events, k, ID) then 1 else 0
  {
    hide At, Holds, DetectedAt, ClearsAt, Reads;
    if k == 2 && gap == Begun {
      BegunStep(Story(r, gap), k, ClearedAt(k), CountAt(k));
    } else {
      JudgedStep(r, Story(r, gap), k, ClearedAt(k), CountAt(k), k, if k == 2 then Unknown else Healthy);
    }
  }

  /** The story recovers in its last event, resting on readings on both sides of the gap. */
  lemma StoryRecovers(r: nat, gap: Event)
    requires 2 <= r <= U32_MAX && Between(r, gap)
    ensures var events := Story(r, gap);
      && RecoversUnder(Z, events, r + 1, ID, r) && RestsOn(Z, events, r + 1, ID, Needed(r), 1)
      && (gap != Begun ==> UnclearAt(Z, events, 2, ID))
  {
    hide Step, Emitted, At, ClearsAt, DetectedAt, UnclearAt, Holds;
    var events := Story(r, gap);
    var n := r + 1;
    StoryHolds(r, gap, n);
    LastReading(r, At(Z, events, n), ClearedAt(n), n);
    assert Transition(n, ID, Recovered) in EmittedAt(Z, events, n);
    Counted(r, events, n, ClearedAt(n), CountAt(n), n, Healthy);
    StoryHolds(r, gap, 1);
    Counted(r, events, 1, 0, 0, 1, Healthy);
    StoryHolds(r, gap, 2);
    if gap != Begun {
      Counted(r, events, 2, 1, 1, 2, Unknown);
    }
  }

  // ---------------------------------------------------------------- the exact settings

  /**
    For every setting that asks for more than one confirmation there is a history in which a
    reading rated unknown lies between the clear readings of a recovery.
   */
  lemma UnknownKeepsCount(r: nat) returns (events: seq<Event>, n: nat, m: nat, k: nat)
    requires 2 <= r <= U32_MAX
    ensures n < |events| && RecoversUnder(Z, events, n, ID, r) && RestsOn(Z, events, n, ID, r, m)
    ensures m < k < n && events[k] == Judged(r, k, Unknown) && UnclearAt(Z, events, k, ID)
  {
    hide RecoversUnder, RestsOn, UnclearAt;
    events, n, m, k := Story(r, Judged(r, 2, Unknown)), r + 1, 1, 2;
    StoryRecovers(r, Judged(r, 2, Unknown));
  }

  /** And one in which a new run begins between them: a clear reading of an earlier run still counts. */
  lemma BeginKeepsCount(r: nat) returns (events: seq<Event>, n: nat, m: nat, k: nat)
    requires 2 <= r <= U32_MAX
    ensures n < |events| && RecoversUnder(Z, events, n, ID, r) && RestsOn(Z, events, n, ID, r, m)
    ensures m < k < n && events[k].Begun?
  {
    hide RecoversUnder, RestsOn;
    events, n, m, k := Story(r, Begun), r + 1, 1, 2;
    StoryRecovers(r, Begun);
  }

  /**
    The clear readings a recovery rests on are consecutive in every history, and of one run in
    every history, if and only if the setting asks for no more than one confirmation.
   */
  lemma ConsecutiveIff(setting: nat)
    requires setting <= U32_MAX
    ensures AlwaysConsecutive(setting) <==> setting <= 1
    ensures AlwaysOneRun(setting) <==> setting <= 1
  {
    hide RecoversUnder, RestsOn, UnclearAt;
    if setting <= 1 {
      OneIsEnough(setting);
    } else {
      var events, n, m, k := UnknownKeepsCount(setting);
      assert !Consecutive(Z, events, m, n, ID);
      events, n, m, k := BeginKeepsCount(setting);
      assert !OneRun(events, m, n);
    }
  }
}
