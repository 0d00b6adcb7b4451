/**
  Pipeline progress (crates/core/src/flows.rs): the reading a stage is judged by, the progress
  record it updates, and the object that holds the records of every stage.
 */
module Flows {
  import opened Order
  import Evidence

  type Time = Evidence.Time

  // ---------------------------------------------------------------- signals

  datatype Number = Finite(v: real) | NotFinite

  datatype Payload = Metric(name: string, value: Number) | Queue(backlog: Number) | Workload | Other

  datatype Observation = Observation(resource: string, operation: string, observedAt: Time, data: Payload)

  /** One stored result of the target; `complete` names its complete operations. */
  datatype Result = Result(target: string, complete: set<string>, observations: seq<Observation>)

  datatype Sample = Sample(resource: string, value: real, at: Time)

  predicate Matches(o: Observation, selector: string) {
    || o.resource == selector || Evidence.EndsWith(o.resource, "/" + selector)
    || (o.data.Metric? && o.data.name == selector)
  }

  function Value(o: Observation): (v: Number) {
    match o.data
    case Metric(_, v) => v
    case Queue(v) => v
    case _ => NotFinite
  }

  predicate Fresh(o: Observation, freshness: nat, now: Time) {
    Evidence.Seconds(now - o.observedAt) <= freshness && o.observedAt <= now
  }

  /** A fresh, finite, completely collected observation the selector names. */
  predicate Eligible(r: Result, o: Observation, selector: string, freshness: nat, now: Time): (b: bool)
    ensures b ==> Value(o).Finite?
  {
    Matches(o, selector) && o.operation in r.complete && Fresh(o, freshness, now) && Value(o).Finite?
  }

  function Samples(r: Result, obs: seq<Observation>, selector: string, freshness: nat, now: Time): (s: seq<Sample>)
    ensures forall x :: x in s <==> exists i :: 0 <= i < |obs| && Eligible(r, obs[i], selector, freshness, now)
                                            && x == Sample(obs[i].resource, Value(obs[i]).v, obs[i].observedAt)
  {
    if obs == [] then []
    else
      var n := |obs| - 1;
      var rest := Samples(r, obs[..n], selector, freshness, now);
      if Eligible(r, obs[n], selector, freshness, now) then rest + [Sample(obs[n].resource, Value(obs[n]).v, obs[n].observedAt)] else rest
  }

  function Candidates(results: seq<Result>, target: string, selector: string, freshness: nat, now: Time): (s: seq<Sample>) {
    if results == [] then []
    else
      var n := |results| - 1;
      Candidates(results[..n], target, selector, freshness, now)
        + if results[n].target == target then Samples(results[n], results[n].observations, selector, freshness, now) else []
  }

  predicate OneResource(s: seq<Sample>) {
    forall i, j :: 0 <= i < |s| && 0 <= j < |s| ==> s[i].resource == s[j].resource
  }

  /** The first of the latest samples. */
  function Latest(s: seq<Sample>): (r: Sample)
    requires s != []
    ensures exists i :: 0 <= i < |s| && s[i] == r && (forall j :: 0 <= j < |s| ==> s[j].at <= r.at) && forall j :: 0 <= j < i ==> s[j].at < r.at
  {
    var n := |s| - 1;
    if n == 0 then s[0]
    else
      var best := Latest(s[..n]);
      if s[n].at > best.at then s[n] else best
  }

  /** A selector that names two resources selects nothing; one resource is read at its latest. */
  function Signal(s: seq<Sample>): (r: Option<Sample>) {
    if s == [] || !OneResource(s) then None else Some(Latest(s))
  }

  lemma SamplesPush(r: Result, i: nat, selector: string, freshness: nat, now: Time)
    requires i < |r.observations|
    ensures var o := r.observations[i];
      Samples(r, r.observations[..i + 1], selector, freshness, now)
        == Samples(r, r.observations[..i], selector, freshness, now)
           + if Eligible(r, o, selector, freshness, now) then [Sample(o.resource, Value(o).v, o.observedAt)] else []
  {
    hide Eligible;
    assert r.observations[..i + 1][..i] == r.observations[..i];
  }

  /** Two resources seen so far stay two. */
  lemma Clash(s: seq<Sample>, x: Sample, rest: seq<Sample>)
    requires s != [] && s[0].resource != x.resource
    ensures !OneResource(s + [x] + rest)
  {
    var all := s + [x] + rest;
    assert all[0] == s[0] && all[|s|] == x;
  }

  lemma LatestPush(s: seq<Sample>, x: Sample)
    ensures s == [] ==> Latest(s + [x]) == x
    ensures s != [] ==> Latest(s + [x]) == if x.at > Latest(s).at then x else Latest(s)
    ensures (s == [] || s[0].resource == x.resource) && OneResource(s) ==> OneResource(s + [x])
  {
    assert (s + [x])[..|s|] == s;
  }

  lemma CandidatesPush(results: seq<Result>, i: nat, target: string, selector: string, freshness: nat, now: Time)
    requires i < |results|
    ensures var before := Candidates(results[..i], target, selector, freshness, now);
      Candidates(results[..i + 1], target, selector, freshness, now)
        == if results[i].target == target then before + Samples(results[i], results[i].observations, selector, freshness, now) else before
  {
    hide Samples;
    assert results[..i + 1][..i] == results[..i];
  }

  lemma {:induction false} CandidatesSuffix(results: seq<Result>, i: nat, target: string, selector: string, freshness: nat, now: Time)
      returns (rest: seq<Sample>)
    requires i <= |results|
    ensures Candidates(results, target, selector, freshness, now) == Candidates(results[..i], target, selector, freshness, now) + rest
    decreases |results|
  {
    if i == |results| {
      assert results[..i] == results;
      rest := [];
    } else {
      var n := |results| - 1;
      assert results[..n][..i] == results[..i];
      rest := CandidatesSuffix(results[..n], i, target, selector, freshness, now);
      rest := rest + if results[n].target == target then Samples(results[n], results[n].observations, selector, freshness, now) else [];
    }
  }

  lemma {:induction false} SamplesSuffix(r: Result, obs: seq<Observation>, j: nat, selector: string, freshness: nat, now: Time)
      returns (rest: seq<Sample>)
    requires j <= |obs|
    ensures Samples(r, obs, selector, freshness, now) == Samples(r, obs[..j], selector, freshness, now) + rest
    decreases |obs|
  {
    hide Eligible;
    if j == |obs| {
      assert obs[..j] == obs;
      rest := [];
    } else {
      var n := |obs| - 1;
      assert obs[..n][..j] == obs[..j];
      rest := SamplesSuffix(r, obs[..n], j, selector, freshness, now);
      if Eligible(r, obs[n], selector, freshness, now) {
        rest := rest + [Sample(obs[n].resource, Value(obs[n]).v, obs[n].observedAt)];
      }
    }
  }

  // ---------------------------------------------------------------- one stage

  datatype Mode = Counter | Rate

  datatype Progress = Progress(value: real, lastSeen: Time, lastProgress: Time, established: bool)

  type Records = map<string, Progress>

  datatype Health = Healthy | Unhealthy | Unknown | ExpectedInactive

  /** What an evaluation knows about one stage. */
  datatype Reading = Reading(
    key: string, active: bool, demand: Option<Sample>, progress: Option<Sample>, known: bool,
    mode: Mode, freshness: nat, idleAfter: nat, limit: nat, now: Time)

  datatype Outcome = Outcome(records: Records, health: Health, at: Time, complete: bool)

  predicate NoDemand(x: Reading) { x.demand.Some? && x.demand.value.value <= 0.0 }

  /** The stage is judged by a progress sample no later than its demand. */
  predicate Judged(x: Reading) { x.active && !NoDemand(x) && x.demand.Some? && x.progress.Some? }

  function At(x: Reading): (t: Time)
    requires Judged(x)
  {
    if x.progress.value.at <= x.demand.value.at then x.progress.value.at else x.demand.value.at
  }

  predicate Breaks(p: Progress, x: Reading)
    requires Judged(x)
  {
    Evidence.Seconds(At(x) - p.lastSeen) > x.freshness || (x.mode.Counter? && x.progress.value.value < p.value)
  }

  predicate Moves(p: Progress, x: Reading)
    requires Judged(x)
  {
    if x.mode.Counter? then x.progress.value.value > p.value else x.progress.value.value > 0.0
  }

  /** The record after a later sample. */
  function Moved(p: Progress, x: Reading): (r: Progress)
    requires Judged(x)
  {
    Progress(x.progress.value.value, At(x),
             if Breaks(p, x) || Moves(p, x) then At(x) else p.lastProgress,
             !Breaks(p, x))
  }

  function Updated(p: Progress, x: Reading): (r: Progress)
    requires Judged(x)
  {
    if At(x) > p.lastSeen then Moved(p, x) else p
  }

  function Rated(p: Progress, x: Reading): (h: Health)
    requires Judged(x)
  {
    if !p.established then Unknown
    else if Evidence.Seconds(At(x) - p.lastProgress) >= x.idleAfter then Unhealthy
    else Healthy
  }

  function Stage(records: Records, x: Reading): (r: Outcome) {
    if !x.active then Outcome(records, ExpectedInactive, x.now, true)
    else if NoDemand(x) then Outcome(records - {x.key}, ExpectedInactive, x.demand.value.at, true)
    else if x.demand.None? || x.progress.None? then Outcome(records, Unknown, x.now, false)
    else
      var at := At(x);
      var raw :=
        if x.key in records then
          var p := Updated(records[x.key], x);
          Outcome(records[x.key := p], Rated(p, x), at, true)
        else if |records| < x.limit then
          Outcome(records[x.key := Progress(x.progress.value.value, at, at, false)],
                  if x.mode.Rate? && x.progress.value.value > 0.0 then Healthy else Unknown, at, true)
        else Outcome(records, Unknown, at, false);
      if x.known then raw else raw.(health := Unknown, complete := false)
  }

  // ---------------------------------------------------------------- the whole evaluation

  datatype StageConfig = StageConfig(name: string, progress: string, mode: Mode, workload: Option<string>)

  datatype Flow = Flow(name: string, demand: string, idleAfter: nat, stages: seq<StageConfig>)

  datatype Job = Job(target: string, active: bool, flows: seq<Flow>, freshness: nat, maxFindings: nat)

  /** A pushed observation and a pushed operation. */
  datatype Rating = Rating(key: string, operation: string, at: Time, health: Health)

  datatype Report = Report(ratings: seq<Rating>, operations: seq<(string, bool)>)

  /** A fresh workload under a complete operation whose name ends with the selector. */
  predicate WorkloadKnown(results: seq<Result>, target: string, selector: string, freshness: nat, now: Time) {
    exists i | 0 <= i < |results| ::
      results[i].target == target && exists j | 0 <= j < |results[i].observations| ::
        var o := results[i].observations[j];
        Evidence.EndsWith(o.resource, "/" + selector) && o.data.Workload? && o.operation in results[i].complete && Fresh(o, freshness, now)
  }

  function StageReading(results: seq<Result>, job: Job, flow: Flow, stage: StageConfig, now: Time): (x: Reading) {
    Reading(job.target + "/flows/" + flow.name + "/" + stage.name, job.active,
            Signal(Candidates(results, job.target, flow.demand, job.freshness, now)),
            Signal(Candidates(results, job.target, stage.progress, job.freshness, now)),
            stage.workload.None? || WorkloadKnown(results, job.target, stage.workload.value, job.freshness, now),
            stage.mode, job.freshness, flow.idleAfter, job.maxFindings, now)
  }

  function Readings(results: seq<Result>, job: Job, flow: Flow, now: Time): (r: seq<Reading>)
    ensures |r| == |flow.stages|
  {
    seq(|flow.stages|, i requires 0 <= i < |flow.stages| => StageReading(results, job, flow, flow.stages[i], now))
  }

  /** The stages of a flow in order: ratings, whether the flow is complete, and the new records. */
  datatype Progressing = Progressing(records: Records, ratings: seq<Rating>, complete: bool)

  function Stages(s: Progressing, operation: string, readings: seq<Reading>): (r: Progressing)
    decreases |readings|
  {
    if readings == [] then s
    else
      var o := Stage(s.records, readings[0]);
      Stages(Progressing(o.records, s.ratings + [Rating(readings[0].key, operation, o.at, o.health)], s.complete && o.complete),
             operation, readings[1..])
  }

  datatype Evaluating = Evaluating(records: Records, report: Report)

  function Evaluated(s: Evaluating, results: seq<Result>, job: Job, flows: seq<Flow>, now: Time): (r: Evaluating)
    decreases |flows|
  {
    if flows == [] then s
    else
      var operation := "flow/" + flows[0].name;
      var p := Stages(Progressing(s.records, s.report.ratings, true), operation, Readings(results, job, flows[0], now));
      Evaluated(Evaluating(p.records, Report(p.ratings, s.report.operations + [(operation, p.complete)])), results, job, flows[1..], now)
  }

  function Evaluation(records: Records, results: seq<Result>, job: Job, now: Time): (r: Evaluating) {
    if job.flows == [] then Evaluating(records, Report([], [("flow-configuration", false)]))
    else Evaluated(Evaluating(records, Report([], [])), results, job, job.flows, now)
  }

  class Tracker {
    var progress: Records

    constructor ()
      ensures progress == map[]
    {
      progress := map[];
    }

    /** `signal`: ambiguous when two resources match, otherwise the latest sample. */
    method FindSignal(results: seq<Result>, target: string, selector: string, freshness: nat, now: Time) returns (found: Option<Sample>)
      ensures found == Signal(Candidates(results, target, selector, freshness, now))
    {
      hide Tracking, Samples, Signal;
      found := None;
      TrackStart();
      for i := 0 to |results|
        invariant Tracking(Candidates(results[..i], target, selector, freshness, now), found)
      {
        CandidatesPush(results, i, target, selector, freshness, now);
        if results[i].target == target {
          ghost var outer := Candidates(results[..i], target, selector, freshness, now);
          ghost var more := CandidatesSuffix(results, i + 1, target, selector, freshness, now);
          var clash;
          found, clash := ScanResult(results[i], selector, freshness, now, found, outer, more);
          if clash {
            return None;
          }
        }
      }
      assert results[..|results|] == results;
      TrackEnd(Candidates(results, target, selector, freshness, now), found);
    }

    /** The observations of one result; a second resource ends the search. */
    method ScanResult(r: Result, selector: string, freshness: nat, now: Time,
        found0: Option<Sample>, ghost outer: seq<Sample>, ghost more: seq<Sample>)
      returns (found: Option<Sample>, clash: bool)
      requires Tracking(outer, found0)
      ensures clash ==> Signal(outer + Samples(r, r.observations, selector, freshness, now) + more) == None
      ensures !clash ==> Tracking(outer + Samples(r, r.observations, selector, freshness, now), found)
    {
      hide Eligible, Tracking, Signal, Samples;
      found, clash := found0, false;
      NoSamples(r, selector, freshness, now);
      for j := 0 to |r.observations|
        invariant Tracking(outer + Samples(r, r.observations[..j], selector, freshness, now), found)
      {
        var o := r.observations[j];
        ghost var inner := Samples(r, r.observations[..j], selector, freshness, now);
        SamplesPush(r, j, selector, freshness, now);
        if Eligible(r, o, selector, freshness, now) {
          var x := Sample(o.resource, Value(o).v, o.observedAt);
          if found.Some? && found.value.resource != o.resource {
            ghost var rest := SamplesSuffix(r, r.observations, j + 1, selector, freshness, now);
            Ambiguous(outer, inner, x, found, rest, more, outer + Samples(r, r.observations, selector, freshness, now) + more);
            return found, true;
          }
          TrackPush(outer + inner, found, x);
          assert outer + (inner + [x]) == (outer + inner) + [x];
          if found.None? || x.at > found.value.at {
            found := Some(x);
          }
        }
      }
      assert r.observations[..|r.observations|] == r.observations;
    }

    /** One stage: its record is created, updated or removed, and its health read from it. */
    method EvaluateStage(x: Reading) returns (health: Health, at: Time, complete: bool)
      modifies this
      ensures Outcome(progress, health, at, complete) == Stage(old(progress), x)
    {
      hide Evidence.Seconds;
      complete := true;
      if !x.active {
        return ExpectedInactive, x.now, true;
      }
      if x.demand.Some? && x.demand.value.value <= 0.0 {
        progress := progress - {x.key};
        return ExpectedInactive, x.demand.value.at, true;
      }
      if x.demand.None? || x.progress.None? {
        return Unknown, x.now, false;
      }
      var value := x.progress.value.value;
      at := if x.progress.value.at <= x.demand.value.at then x.progress.value.at else x.demand.value.at;
      health := Unknown;
      if x.key in progress {
        var p := progress[x.key];
        if at > p.lastSeen {
          if Evidence.Seconds(at - p.lastSeen) > x.freshness || (value < p.value && x.mode.Counter?) {
            p := p.(lastProgress := at, established := false);
          } else {
            p := p.(established := true);
            if if x.mode.Counter? then value > p.value else value > 0.0 {
              p := p.(lastProgress := at);
            }
          }
          p := p.(value := value, lastSeen := at);
          progress := progress[x.key := p];
        }
        if p.established {
          health := if Evidence.Seconds(at - p.lastProgress) >= x.idleAfter then Unhealthy else Healthy;
        }
        assert old(progress)[x.key := p] == progress;
      } else if |progress| < x.limit {
        progress := progress[x.key := Progress(value, at, at, false)];
        if x.mode.Rate? && value > 0.0 {
          health := Healthy;
        }
      } else {
        complete := false;
      }
      if !x.known {
        complete := false;
        health := Unknown;
      }
    }

    /** `evaluate`: every stage of every flow, in order. */
    method Evaluate(results: seq<Result>, job: Job, now: Time) returns (report: Report)
      modifies this
      ensures Evaluating(progress, report) == Evaluation(old(progress), results, job, now)
    {
      hide Stage, Signal, Candidates, WorkloadKnown;
      report := Report([], []);
      if job.flows == [] {
        return Report([], [("flow-configuration", false)]);
      }
      ghost var target := Evaluated(Evaluating(progress, report), results, job, job.flows, now);
      for i := 0 to |job.flows|
        invariant Evaluated(Evaluating(progress, report), results, job, job.flows[i..], now) == target
      {
        var flow := job.flows[i];
        assert job.flows[i..][1..] == job.flows[i + 1..];
        var operation := "flow/" + flow.name;
        var ratings, complete := EvaluateFlow(results, job, flow, operation, report.ratings, now);
        report := Report(ratings, report.operations + [(operation, complete)]);
      }
    }

    method EvaluateFlow(results: seq<Result>, job: Job, flow: Flow, operation: string, ratings0: seq<Rating>, now: Time)
      returns (ratings: seq<Rating>, complete: bool)
      modifies this
      ensures Progressing(progress, ratings, complete)
           == Stages(Progressing(old(progress), ratings0, true), operation, Readings(results, job, flow, now))
    {
      hide Stage, Signal, Candidates, WorkloadKnown;
      ratings, complete := ratings0, true;
      var demand := FindSignal(results, job.target, flow.demand, job.freshness, now);
      ghost var readings := Readings(results, job, flow, now);
      ghost var target := Stages(Progressing(progress, ratings, complete), operation, readings);
      for j := 0 to |flow.stages|
        invariant Stages(Progressing(progress, ratings, complete), operation, readings[j..]) == target
      {
        var stage := flow.stages[j];
        assert readings[j..][1..] == readings[j + 1..];
        var current := FindSignal(results, job.target, stage.progress, job.freshness, now);
        var known := stage.workload.None? || WorkloadKnown(results, job.target, stage.workload.value, job.freshness, now);
        var x := Reading(job.target + "/flows/" + flow.name + "/" + stage.name, job.active, demand, current, known,
                         stage.mode, job.freshness, flow.idleAfter, job.maxFindings, now);
        assert x == readings[j];
        var health, at, whole := EvaluateStage(x);
        ratings := ratings + [Rating(x.key, operation, at, health)];
        complete := complete && whole;
      }
    }
  }

  /** What the loop of `signal` knows: one resource so far, and its latest sample. */
  ghost predicate Tracking(seen: seq<Sample>, found: Option<Sample>) {
    OneResource(seen) && found == (if seen == [] then None else Some(Latest(seen))) && (found.Some? ==> seen[0].resource == found.value.resource)
  }

  lemma TrackStart()
    ensures Tracking([], None)
  {
  }

  lemma TrackEnd(seen: seq<Sample>, found: Option<Sample>)
    requires Tracking(seen, found)
    ensures found == Signal(seen)
  {
  }

  lemma NoSamples(r: Result, selector: string, freshness: nat, now: Time)
    ensures forall outer: seq<Sample> :: outer + Samples(r, r.observations[..0], selector, freshness, now) == outer
  {
  }

  lemma TrackPush(seen: seq<Sample>, found: Option<Sample>, x: Sample)
    requires Tracking(seen, found) && (found.Some? ==> found.value.resource == x.resource)
    ensures Tracking(seen + [x], if found.None? || x.at > found.value.at then Some(x) else found)
  {
    LatestPush(seen, x);
  }

  lemma Ambiguous(outer: seq<Sample>, inner: seq<Sample>, x: Sample, found: Option<Sample>, rest: seq<Sample>, more: seq<Sample>, all: seq<Sample>)
    requires Tracking(outer + inner, found) && found.Some? && found.value.resource != x.resource
    requires all == outer + ((inner + [x]) + rest) + more
    ensures Signal(all) == None
  {
    hide Latest, OneResource;
    Clash(outer + inner, x, rest + more);
    assert all == (outer + inner) + [x] + (rest + more);
  }
}
