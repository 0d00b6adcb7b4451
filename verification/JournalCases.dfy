/** A run of the journal in which two gap records share one database key. */
module JournalCases {
  import opened Journal
  import opened JournalProofs

  const CFG: Config := Config(1, 100, b => false)

  lemma {:induction false} RunsFurther(cfg: Config, s: State, trace: seq<Step>, mid: State, step: Step)
    requires Runs(cfg, s, trace, mid) && Enabled(cfg, mid, step)
    ensures Runs(cfg, s, trace + [step], After(cfg, mid, step))
    decreases |trace|
  {
    if trace == [] {
      assert [step][1..] == [];
      assert trace + [step] == [step];
    } else {
      RunsFurther(cfg, After(cfg, s, trace[0]), trace[1..], mid, step);
      assert (trace + [step])[1..] == trace[1..] + [step];
    }
  }

  /** One more step of the run from `s` to `mid`. */
  lemma Go(s: State, trace: seq<Step>, mid: State, step: Step) returns (longer: seq<Step>, r: State)
    requires Runs(CFG, s, trace, mid) && Enabled(CFG, mid, step)
    ensures Runs(CFG, s, longer, r) && r == After(CFG, mid, step)
  {
    RunsFurther(CFG, s, trace, mid, step);
    longer, r := trace + [step], After(CFG, mid, step);
  }

  function World(p: Producer, queue: seq<Batch>, worker: Worker, known: bool, m: Shared): (s: State) {
    State([p], queue, worker, known, m)
  }

  function Run(number: nat): (x: Item) { Item(number, RunKind, 0, false, 0) }

  const FILLED: Producer := Producer(Filling, [], EMPTY, [], 0)

  /** The counters once one more run is lost. */
  function LostOne(m: Shared): (r: Shared) {
    m.(outstanding := m.outstanding + 1, submitted := m.submitted + [Run(|m.submitted|)], lostRuns := m.lostRuns + [Run(|m.submitted|)],
       droppedRuns := m.droppedRuns + 1, pendingRuns := m.pendingRuns + 1)
  }

  /** An invalid run is submitted and refused; the four counter additions are still owed. */
  lemma RefusesRun(s: State, trace: seq<Step>, queue: seq<Batch>, worker: Worker, known: bool, m: Shared)
      returns (longer: seq<Step>, r: State)
    requires Runs(CFG, s, trace, World(IDLE, queue, worker, known, m))
    ensures Runs(CFG, s, longer, r)
    ensures var x := Run(|m.submitted|);
      r == World(FILLED.(owe := DropRecords(0, 1)), queue, worker, known,
                 m.(outstanding := m.outstanding + 1, submitted := m.submitted + [x], lostRuns := m.lostRuns + [x]))
  {
    longer, r := Go(s, trace, World(IDLE, queue, worker, known, m), ByProducer(0, Submit([Run(|m.submitted|)])));
    longer, r := Go(s, longer, r, ByProducer(0, Take(false)));
    assert [Run(|m.submitted|)][1..] == [];
    assert r.producers == [FILLED.(owe := DropRecords(0, 1))];
  }

  /** One owed addition is performed. */
  lemma Pays(s: State, trace: seq<Step>, mid: State) returns (longer: seq<Step>, r: State)
    requires Runs(CFG, s, trace, mid) && |mid.producers| == 1 && mid.producers[0].owe != []
    ensures Runs(CFG, s, longer, r)
    ensures r == mid.(producers := [mid.producers[0].(owe := mid.producers[0].owe[1..])], mem := AddTo(mid.mem, mid.producers[0].owe[0]))
  {
    longer, r := Go(s, trace, mid, ByProducer(0, PayOwed));
  }

  /** An invalid run is submitted and counted as dropped. */
  lemma LosesRun(s: State, trace: seq<Step>, queue: seq<Batch>, worker: Worker, known: bool, m: Shared)
      returns (longer: seq<Step>, r: State)
    requires Runs(CFG, s, trace, World(IDLE, queue, worker, known, m))
    requires m.droppedRuns < 10 && m.pendingRuns < 10 && m.droppedEvents < 10 && m.pendingEvents < 10
    ensures Runs(CFG, s, longer, r) && r == World(FILLED, queue, worker, known, LostOne(m))
  {
    longer, r := RefusesRun(s, trace, queue, worker, known, m);
    var owed := DropRecords(0, 1);
    assert owed[1..][0] == Add(PendingEvents, 0) && owed[1..][1..][0] == Add(DroppedRuns, 1);
    assert owed[1..][1..][1..] == [Add(PendingRuns, 1)] && [Add(PendingRuns, 1)][1..] == [];
    longer, r := Pays(s, longer, r);
    longer, r := Pays(s, longer, r);
    longer, r := Pays(s, longer, r);
    longer, r := Pays(s, longer, r);
  }

  /** The batch without records is sent, because a run is pending. */
  lemma SendsEmpty(s: State, trace: seq<Step>, worker: Worker, known: bool, m: Shared) returns (longer: seq<Step>, r: State)
    requires Runs(CFG, s, trace, World(FILLED, [], worker, known, m)) && !worker.Dead?
    requires m.pendingEvents == 0 && m.pendingRuns > 0
    ensures Runs(CFG, s, longer, r) && r == World(IDLE, [EMPTY], worker, known, m)
  {
    longer, r := Go(s, trace, World(FILLED, [], worker, known, m), ByProducer(0, SkipEvents));
    longer, r := Go(s, longer, r, ByProducer(0, SkipRuns));
    longer, r := Go(s, longer, r, ByProducer(0, Send));
  }

  /** The counters once the pending run is stored as a gap of time `at`. */
  function GapStored(m: Shared, at: int): (r: Shared)
    requires m.outstanding > 0
  {
    m.(pendingRuns := 0, committedGaps := m.committedGaps + {Gap(at, 0, 1)}, savedGaps := m.savedGaps + [Gap(at, 0, 1)],
       outstanding := m.outstanding - 1)
  }

  function OneGap(at: int): (b: Batch) { EMPTY.(gaps := [Gap(at, 0, 1)]) }

  /** The worker turns the pending run into a gap. */
  lemma MakesGap(s: State, trace: seq<Step>, p: Producer, m: Shared, at: int) returns (longer: seq<Step>, r: State)
    requires Runs(CFG, s, trace, World(p, [], SwappingEvents(EMPTY), true, m))
    requires m.pendingEvents == 0 && m.pendingRuns == 1
    ensures Runs(CFG, s, longer, r) && r == World(p, [], Writing(OneGap(at)), true, m.(pendingRuns := 0))
  {
    longer, r := Go(s, trace, World(p, [], SwappingEvents(EMPTY), true, m), ByWorker(SwapEvents));
    longer, r := Go(s, longer, r, ByWorker(SwapRuns));
    longer, r := Go(s, longer, r, ByWorker(NewGap(at)));
    assert [] + [Gap(at, 0, 1)] == [Gap(at, 0, 1)];
    assert r.worker == Writing(OneGap(at));
  }

  /** A batch without charge leaves the worker. */
  lemma Leaves(s: State, trace: seq<Step>, p: Producer, m: Shared) returns (longer: seq<Step>, r: State)
    requires Runs(CFG, s, trace, World(p, [], Releasing(0), true, m)) && m.outstanding > 0
    ensures Runs(CFG, s, longer, r) && r == World(p, [], Checking, true, m.(outstanding := m.outstanding - 1))
  {
    longer, r := Go(s, trace, World(p, [], Releasing(0), true, m), ByWorker(ReleaseCharge));
    longer, r := Go(s, longer, r, ByWorker(ReleasePending));
  }

  /** The worker turns the pending run into a gap and stores it. */
  lemma StoresGap(s: State, trace: seq<Step>, p: Producer, m: Shared, at: int) returns (longer: seq<Step>, r: State)
    requires Runs(CFG, s, trace, World(p, [], SwappingEvents(EMPTY), true, m))
    requires m.pendingEvents == 0 && m.pendingRuns == 1 && m.outstanding > 0
    ensures Runs(CFG, s, longer, r) && r == World(p, [], Checking, true, GapStored(m, at))
  {
    longer, r := MakesGap(s, trace, p, m, at);
    longer, r := Commits(s, longer, p, m.(pendingRuns := 0), at);
    longer, r := Leaves(s, longer, p, r.mem);
  }

  lemma Commits(s: State, trace: seq<Step>, p: Producer, m: Shared, at: int) returns (longer: seq<Step>, r: State)
    requires Runs(CFG, s, trace, World(p, [], Writing(OneGap(at)), true, m))
    ensures Runs(CFG, s, longer, r)
    ensures r == World(p, [], Releasing(0), true,
                       m.(committedGaps := m.committedGaps + {Gap(at, 0, 1)}, savedGaps := m.savedGaps + [Gap(at, 0, 1)]))
  {
    assert Keys(Records(OneGap(at))) == {} && GapSet(OneGap(at).gaps) == {Gap(at, 0, 1)};
    longer, r := Go(s, trace, World(p, [], Writing(OneGap(at)), true, m), ByWorker(WriteCommits(true)));
  }

  const NOTHING: Shared := Shared(0, 0, 0, 0, 0, 0, {}, {}, [], [], [], [], [])

  /** The first gap is made when the worker receives its first batch. */
  lemma FirstGap(at: int) returns (s: State, trace: seq<Step>, r: State)
    ensures Initial(s) && Runs(CFG, s, trace, r)
    ensures r == World(IDLE, [], Checking, true, GapStored(LostOne(NOTHING), at))
  {
    s := World(IDLE, [], Checking, false, NOTHING);
    assert Runs(CFG, s, [], s);
    trace, r := LosesRun(s, [], [], Checking, false, NOTHING);
    trace, r := SendsEmpty(s, trace, Checking, false, r.mem);
    trace, r := Go(s, trace, r, ByWorker(LoadEvents));
    trace, r := Go(s, trace, r, ByWorker(LoadRuns));
    trace, r := Go(s, trace, r, ByWorker(Receive));
    trace, r := StoresGap(s, trace, IDLE, r.mem, at);
  }

  /**
    Two runs lost one after the other are reported by two gap records of one instant: both are
    counted as dropped, and the database shows one.
   */
  lemma GapKeysClash(at: int) returns (s: State, trace: seq<Step>, r: State)
    ensures Initial(s) && Runs(CFG, s, trace, r) && Small(r.mem) && !r.worker.Dead? && Quiet(r)
    ensures r.mem.droppedRuns == 2 && r.mem.pendingRuns == 0 && GapsInFlight(r.worker) == []
    ensures GapsMade(r) == [Gap(at, 0, 1), Gap(at, 0, 1)] && SetSum(RunPart, GapKeys(r)) == 1
  {
    s, trace, r := FirstGap(at);
    trace, r := LosesRun(s, trace, [], Checking, true, r.mem);
    trace, r := Go(s, trace, r, ByWorker(LoadEvents));
    trace, r := Go(s, trace, r, ByWorker(LoadRuns));
    trace, r := Go(s, trace, r, ByWorker(NewPending));
    trace, r := StoresGap(s, trace, FILLED, r.mem, at);
    assert GapKeys(r) == {Gap(at, 0, 1)};
    SetSumWithout(RunPart, GapKeys(r), Gap(at, 0, 1));
  }
}
