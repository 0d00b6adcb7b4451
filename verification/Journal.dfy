/**
  The history journal of crates/history/src/journal.rs and journal_worker.rs as a step system:
  many producers, one bounded queue, byte permits, one retrying writer, an idempotent database.

  Each atomic operation on a shared counter is one step. The database is the set of keys it
  ever committed. Whether a batch is rejected depends on its contents alone.
 */
module Journal {

  const U64_MAX: nat := 0xFFFF_FFFF_FFFF_FFFF
  const U32_MAX: nat := 0xFFFF_FFFF
  const I64_MAX: nat := 0x7FFF_FFFF_FFFF_FFFF

  datatype Kind = RunKind | EventKind | RecordKind

  /** One submitted record. `number` tells submissions apart, `key` is the stored digest. */
  datatype Item = Item(number: nat, kind: Kind, key: nat, valid: bool, size: nat)

  /** A gap record; its database key is the digest of all three fields. */
  datatype Gap = Gap(at: int, events: nat, runs: nat)

  datatype Batch = Batch(runs: seq<Item>, events: seq<Item>, records: seq<Item>, gaps: seq<Gap>, charge: nat)

  const EMPTY: Batch := Batch([], [], [], [], 0)

  datatype Counter = DroppedEvents | PendingEvents | DroppedRuns | PendingRuns

  /** One counter addition still to be performed. */
  datatype Add = Add(counter: Counter, amount: nat)

  datatype Phase = Idle | Filling | ReadingRuns | Sending | Refused | ReleasingCharge | ReleasingPending

  /** A thread inside `submit_queries`. `spare` is the permit of an item beyond the batch bounds. */
  datatype Producer = Producer(phase: Phase, todo: seq<Item>, batch: Batch, owe: seq<Add>, spare: nat)

  datatype Worker =
    | Checking
    | CheckingRuns
    | Creating
    | Selecting
    | SwappingEvents(batch: Batch)
    | SwappingRuns(batch: Batch, events: nat)
    | MakingGap(batch: Batch, events: nat, runs: nat)
    | Writing(batch: Batch)
    | Paying(owe: seq<Add>, charge: nat)
    | Releasing(charge: nat)
    | LeavingPending
    | Dead

  datatype Config = Config(queueBatches: nat, queueBytes: nat, rejects: Batch -> bool)

  /** The shared counters, the database, and the histories the theorems speak about. */
  datatype Shared = Shared(
    droppedEvents: nat, pendingEvents: nat, droppedRuns: nat, pendingRuns: nat,
    outstanding: nat,
    used: nat,                   // bytes charged to the budget
    committed: set<(Kind, nat)>, // record keys ever committed
    committedGaps: set<Gap>,     // gap keys ever committed
    submitted: seq<Item>,        // everything offered to `submit_queries`
    saved: seq<Item>,            // records of acknowledged writes
    savedGaps: seq<Gap>,         // gaps of acknowledged writes
    lostEvents: seq<Item>,       // events and records given up
    lostRuns: seq<Item>)         // runs given up

  datatype State = State(
    producers: seq<Producer>,
    queue: seq<Batch>,
    worker: Worker,
    known: bool,                 // a revision was seen before
    mem: Shared)

  // ---------------------------------------------------------------- shared operations

  function SaturatingAdd(a: nat, b: nat): (r: nat) {
    if a + b > U64_MAX then U64_MAX else a + b
  }

  /** Subtraction that would expose an underflow by wrapping. */
  function Sub(a: nat, b: nat): (r: nat) {
    if b <= a then a - b else a + U64_MAX + 1
  }

  function AddTo(m: Shared, add: Add): (r: Shared) {
    match add.counter
    case DroppedEvents => m.(droppedEvents := SaturatingAdd(m.droppedEvents, add.amount))
    case PendingEvents => m.(pendingEvents := SaturatingAdd(m.pendingEvents, add.amount))
    case DroppedRuns => m.(droppedRuns := SaturatingAdd(m.droppedRuns, add.amount))
    case PendingRuns => m.(pendingRuns := SaturatingAdd(m.pendingRuns, add.amount))
  }

  /** `drop_records`: the four additions in source order. */
  function DropRecords(events: nat, runs: nat): (r: seq<Add>) {
    [Add(DroppedEvents, events), Add(PendingEvents, events), Add(DroppedRuns, runs), Add(PendingRuns, runs)]
  }

  function GapReturns(gaps: seq<Gap>): (r: seq<Add>) {
    if gaps == [] then []
    else [Add(PendingEvents, gaps[0].events), Add(PendingRuns, gaps[0].runs)] + GapReturns(gaps[1..])
  }

  function EventCount(b: Batch): (n: nat) { |b.events| + |b.records| }

  predicate NoRecords(b: Batch) { b.runs == [] && b.events == [] && b.records == [] }

  predicate HasRoom(b: Batch, kind: Kind) {
    match kind
    case RunKind => |b.runs| < 2048
    case EventKind => |b.events| < 10000
    case RecordKind => |b.records| < 20000
  }

  function Push(b: Batch, item: Item): (r: Batch) {
    match item.kind
    case RunKind => b.(runs := b.runs + [item], charge := b.charge + item.size)
    case EventKind => b.(events := b.events + [item], charge := b.charge + item.size)
    case RecordKind => b.(records := b.records + [item], charge := b.charge + item.size)
  }

  function Lose(m: Shared, item: Item): (r: Shared) {
    if item.kind.RunKind? then m.(lostRuns := m.lostRuns + [item])
    else m.(lostEvents := m.lostEvents + [item])
  }

  function LoseBatch(m: Shared, b: Batch): (r: Shared) {
    m.(lostEvents := m.lostEvents + b.events + b.records, lostRuns := m.lostRuns + b.runs)
  }

  function Keys(items: seq<Item>): (r: set<(Kind, nat)>) {
    set i | 0 <= i < |items| :: (items[i].kind, items[i].key)
  }

  function GapSet(gaps: seq<Gap>): (r: set<Gap>) { set g | g in gaps }

  function Records(b: Batch): (r: seq<Item>) { b.runs + b.events + b.records }

  // ---------------------------------------------------------------- producers

  datatype Move =
    | Submit(items: seq<Item>) | PayOwed | Take(granted: bool) | DropSpare | Full
    | SkipEvents | SkipRuns | Send | DropCharge | DropPending

  const IDLE: Producer := Producer(Idle, [], EMPTY, [], 0)

  predicate ProducerEnabled(cfg: Config, m: Shared, p: Producer, move: Move) {
    match move
    case Submit(items) =>
      p.phase.Idle? && forall k | 0 <= k < |items| :: items[k].number == |m.submitted| + k
    case PayOwed => p.owe != []
    case Take(granted) => Ready(p) && p.todo != [] && (granted ==> Fits(cfg, m, p.todo[0]))
    case DropSpare => p.phase.Filling? && p.owe == [] && p.spare != 0
    case Full => Ready(p) && p.todo == [] && !NoRecords(p.batch)
    case SkipEvents => Ready(p) && p.todo == [] && NoRecords(p.batch)
    case SkipRuns => p.phase.ReadingRuns?
    case Send => p.phase.Sending?
    case DropCharge => p.phase.ReleasingCharge? || (p.phase.Refused? && p.owe == [])
    case DropPending => p.phase.ReleasingPending?
  }

  predicate Ready(p: Producer) { p.phase.Filling? && p.owe == [] && p.spare == 0 }

  /** `reserve` may succeed: the record is valid, its size fits a u32, and the budget has room. */
  predicate Fits(cfg: Config, m: Shared, item: Item) {
    item.valid && item.size <= U32_MAX && m.used + item.size <= cfg.queueBytes
  }

  datatype Local = Local(mem: Shared, p: Producer)

  function SubmitStep(m: Shared, items: seq<Item>): (r: Local) {
    Local(m.(outstanding := m.outstanding + 1, submitted := m.submitted + items), Producer(Filling, items, EMPTY, [], 0))
  }

  /** An admitted record within the batch bounds joins the batch; any other is given up. */
  function TakeStep(m: Shared, p: Producer, granted: bool): (r: Local)
    requires p.todo != []
  {
    if granted && HasRoom(p.batch, p.todo[0].kind) then KeepItem(m, p) else LoseItem(m, p, granted)
  }

  function KeepItem(m: Shared, p: Producer): (r: Local)
    requires p.todo != []
  {
    Local(m.(used := m.used + p.todo[0].size), p.(todo := p.todo[1..], batch := Push(p.batch, p.todo[0])))
  }

  function LoseItem(m: Shared, p: Producer, granted: bool): (r: Local)
    requires p.todo != []
  {
    var item := p.todo[0];
    var spare := if granted then item.size else 0;
    Local(Lose(m.(used := m.used + spare), item),
          p.(todo := p.todo[1..], owe := if item.kind.RunKind? then DropRecords(0, 1) else DropRecords(1, 0), spare := spare))
  }

  /** `try_send` returned the batch: its records are given up before it is dropped. */
  function RefuseStep(m: Shared, p: Producer): (r: Local) {
    Local(LoseBatch(m, p.batch),
          Producer(Refused, [], EMPTY.(charge := p.batch.charge), DropRecords(EventCount(p.batch), |p.batch.runs|), 0))
  }

  /** Every producer step but a successful send, which also moves the batch to the queue. */
  function LocalStep(m: Shared, p: Producer, move: Move): (r: Local)
    requires move.PayOwed? ==> p.owe != []
    requires move.Take? ==> p.todo != []
  {
    match move
    case Submit(items) => SubmitStep(m, items)
    case PayOwed => Local(AddTo(m, p.owe[0]), p.(owe := p.owe[1..]))
    case Take(granted) => TakeStep(m, p, granted)
    case DropSpare => Local(m.(used := Sub(m.used, p.spare)), p.(spare := 0))
    case Full => Local(m, p.(phase := Sending))
    case SkipEvents => Local(m, p.(phase := if m.pendingEvents == 0 then ReadingRuns else Sending))
    case SkipRuns => Local(m, p.(phase := if m.pendingRuns == 0 then ReleasingCharge else Sending))
    case Send => RefuseStep(m, p)
    case DropCharge => Local(m.(used := Sub(m.used, p.batch.charge)), Producer(ReleasingPending, [], EMPTY, [], 0))
    case DropPending => Local(m.(outstanding := Sub(m.outstanding, 1)), IDLE)
  }

  predicate Accepts(cfg: Config, s: State) {
    |s.queue| < cfg.queueBatches && !s.worker.Dead?
  }

  function ProducerStep(cfg: Config, s: State, i: nat, move: Move): (r: State)
    requires i < |s.producers| && ProducerEnabled(cfg, s.mem, s.producers[i], move)
  {
    var p := s.producers[i];
    if move.Send? && Accepts(cfg, s) then
      s.(queue := s.queue + [p.batch], producers := s.producers[i := IDLE])
    else
      var l := LocalStep(s.mem, p, move);
      s.(mem := l.mem, producers := s.producers[i := l.p])
  }

  // ---------------------------------------------------------------- the worker

  datatype Work =
    | LoadEvents | LoadRuns | NewPending | Tick | Receive | SwapEvents | SwapRuns | NewGap(at: int)
    | WriteFails | WriteCommits(acknowledged: bool) | WriteRejected | PayNext | ReleaseCharge | ReleasePending | Stop

  predicate WorkEnabled(cfg: Config, s: State, work: Work) {
    match work
    case LoadEvents => s.worker.Checking?
    case LoadRuns => s.worker.CheckingRuns?
    case NewPending => s.worker.Creating?
    case Tick => s.worker.Selecting?
    case Receive => s.worker.Selecting? && s.queue != []
    case SwapEvents => s.worker.SwappingEvents?
    case SwapRuns => s.worker.SwappingRuns?
    case NewGap(_) => s.worker.MakingGap?
    case WriteFails => s.worker.Writing?
    case WriteCommits(_) => s.worker.Writing? && !cfg.rejects(s.worker.batch)
    case WriteRejected => s.worker.Writing? && cfg.rejects(s.worker.batch)
    case PayNext => s.worker.Paying?
    case ReleaseCharge => s.worker.Releasing?
    case ReleasePending => s.worker.LeavingPending?
    case Stop => s.worker.Selecting? || s.worker.Writing?
  }

  /** The drops seen since the last swap become one gap record, if its amounts fit. */
  function WithGap(b: Batch, at: int, events: nat, runs: nat): (r: Batch) {
    if (events != 0 || runs != 0) && events <= I64_MAX && runs <= I64_MAX
    then b.(gaps := b.gaps + [Gap(at, events, runs)])
    else b
  }

  function Commit(m: Shared, b: Batch): (r: Shared) {
    m.(committed := m.committed + Keys(Records(b)), committedGaps := m.committedGaps + GapSet(b.gaps))
  }

  function Acknowledge(m: Shared, b: Batch): (r: Shared) {
    m.(saved := m.saved + Records(b), savedGaps := m.savedGaps + b.gaps)
  }

  function WorkStep(cfg: Config, s: State, work: Work): (r: State)
    requires WorkEnabled(cfg, s, work)
  {
    var m := s.mem;
    match work
    case LoadEvents =>
      s.(worker := if m.pendingEvents == 0 then CheckingRuns else if s.known then Creating else Selecting)
    case LoadRuns => s.(worker := if m.pendingRuns != 0 && s.known then Creating else Selecting)
    case NewPending => s.(worker := SwappingEvents(EMPTY), mem := m.(outstanding := m.outstanding + 1))
    case Tick => s.(worker := Checking)
    case Receive => s.(worker := SwappingEvents(s.queue[0]), queue := s.queue[1..], known := true)
    case SwapEvents => s.(worker := SwappingRuns(s.worker.batch, m.pendingEvents), mem := m.(pendingEvents := 0))
    case SwapRuns =>
      s.(worker := MakingGap(s.worker.batch, s.worker.events, m.pendingRuns), mem := m.(pendingRuns := 0))
    case NewGap(at) => s.(worker := Writing(WithGap(s.worker.batch, at, s.worker.events, s.worker.runs)))
    case WriteFails => s
    case WriteCommits(acknowledged) =>
      var b := s.worker.batch;
      if acknowledged then s.(worker := Releasing(b.charge), mem := Acknowledge(Commit(m, b), b))
      else s.(mem := Commit(m, b))
    case WriteRejected =>
      var b := s.worker.batch;
      if NoRecords(b) then s.(worker := Dead)
      else s.(mem := LoseBatch(m, b),
              worker := Paying(DropRecords(EventCount(b), |b.runs|) + GapReturns(b.gaps), b.charge))
    case PayNext =>
      if s.worker.owe == [] then s.(worker := Releasing(s.worker.charge))
      else s.(mem := AddTo(m, s.worker.owe[0]), worker := s.worker.(owe := s.worker.owe[1..]))
    case ReleaseCharge => s.(worker := LeavingPending, mem := m.(used := Sub(m.used, s.worker.charge)))
    case ReleasePending => s.(worker := Checking, mem := m.(outstanding := Sub(m.outstanding, 1)))
    case Stop => s.(worker := Dead)
  }

  datatype Step = ByProducer(i: nat, move: Move) | ByWorker(work: Work)

  predicate Enabled(cfg: Config, s: State, step: Step) {
    match step
    case ByProducer(i, move) => i < |s.producers| && ProducerEnabled(cfg, s.mem, s.producers[i], move)
    case ByWorker(work) => WorkEnabled(cfg, s, work)
  }

  function After(cfg: Config, s: State, step: Step): (r: State)
    requires Enabled(cfg, s, step)
  {
    match step
    case ByProducer(i, move) => ProducerStep(cfg, s, i, move)
    case ByWorker(work) => WorkStep(cfg, s, work)
  }

  ghost predicate Initial(s: State) {
    && (forall i :: 0 <= i < |s.producers| ==> s.producers[i] == IDLE)
    && s.queue == [] && s.worker.Checking?
    && s.mem == Shared(0, 0, 0, 0, 0, 0, {}, {}, [], [], [], [], [])
  }

  /** Any finite interleaving of enabled steps. */
  ghost predicate Runs(cfg: Config, s: State, trace: seq<Step>, r: State)
    decreases |trace|
  {
    if trace == [] then r == s
    else Enabled(cfg, s, trace[0]) && Runs(cfg, After(cfg, s, trace[0]), trace[1..], r)
  }
}
