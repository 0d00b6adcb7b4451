/** Conservation of records, gaps, batches and bytes over every run of the journal. */
module JournalProofs {
  import opened Journal

  // ---------------------------------------------------------------- tallies

  /**
    What one owner still answers for: how often it holds the watched record `x`, how many
    records in all, live batches, bytes, and counter additions to come.
   */
  datatype Tally = Tally(held: int, count: int, live: int, bytes: int, de: int, pe: int, dr: int, pr: int)

  const ZERO: Tally := Tally(0, 0, 0, 0, 0, 0, 0, 0)

  function Plus(a: Tally, b: Tally): (r: Tally) {
    Tally(a.held + b.held, a.count + b.count, a.live + b.live, a.bytes + b.bytes, a.de + b.de, a.pe + b.pe, a.dr + b.dr, a.pr + b.pr)
  }

  /** How often `x` occurs. */
  function Times(items: seq<Item>, x: Item): (n: nat) {
    if items == [] then 0 else (if items[0] == x then 1 else 0) + Times(items[1..], x)
  }

  function Owed(owe: seq<Add>, c: Counter): (n: nat) {
    if owe == [] then 0 else (if owe[0].counter == c then owe[0].amount else 0) + Owed(owe[1..], c)
  }

  function GapEvents(gaps: seq<Gap>): (n: nat) { if gaps == [] then 0 else gaps[0].events + GapEvents(gaps[1..]) }

  function GapRuns(gaps: seq<Gap>): (n: nat) { if gaps == [] then 0 else gaps[0].runs + GapRuns(gaps[1..]) }

  function InBatch(b: Batch, x: Item): (n: nat) { Times(b.runs, x) + Times(b.events, x) + Times(b.records, x) }

  function BatchCount(b: Batch): (n: nat) { |b.runs| + |b.events| + |b.records| }

  function ProducerTally(p: Producer, x: Item): (r: Tally) {
    Tally(Times(p.todo, x) + InBatch(p.batch, x), |p.todo| + BatchCount(p.batch),
          if p.phase.Idle? then 0 else 1, p.batch.charge + p.spare,
          Owed(p.owe, DroppedEvents), Owed(p.owe, PendingEvents), Owed(p.owe, DroppedRuns), Owed(p.owe, PendingRuns))
  }

  function BatchTally(b: Batch, x: Item): (r: Tally) {
    Tally(InBatch(b, x), BatchCount(b), 1, b.charge, 0, GapEvents(b.gaps), 0, GapRuns(b.gaps))
  }

  function WorkerTally(w: Worker, x: Item): (r: Tally) {
    match w
    case SwappingEvents(b) => BatchTally(b, x)
    case SwappingRuns(b, e) => Plus(BatchTally(b, x), ZERO.(pe := e))
    case MakingGap(b, e, n) => Plus(BatchTally(b, x), ZERO.(pe := e, pr := n))
    case Writing(b) => BatchTally(b, x)
    case Paying(owe, charge) =>
      Tally(0, 0, 1, charge, Owed(owe, DroppedEvents), Owed(owe, PendingEvents), Owed(owe, DroppedRuns), Owed(owe, PendingRuns))
    case Releasing(charge) => ZERO.(live := 1, bytes := charge)
    case LeavingPending => ZERO.(live := 1)
    case _ => ZERO
  }

  function Producers(ps: seq<Producer>, x: Item): (r: Tally) {
    if ps == [] then ZERO else Plus(ProducerTally(ps[0], x), Producers(ps[1..], x))
  }

  function Queue(q: seq<Batch>, x: Item): (r: Tally) {
    if q == [] then ZERO else Plus(BatchTally(q[0], x), Queue(q[1..], x))
  }

  function Total(s: State, x: Item): (r: Tally) {
    Plus(Plus(Producers(s.producers, x), Queue(s.queue, x)), WorkerTally(s.worker, x))
  }

  /** `rest` is everything but producer `i`. */
  lemma {:induction false} ProducersAt(ps: seq<Producer>, i: nat, p: Producer, x: Item) returns (rest: Tally)
    requires i < |ps|
    ensures Producers(ps, x) == Plus(ProducerTally(ps[i], x), rest)
    ensures Producers(ps[i := p], x) == Plus(ProducerTally(p, x), rest)
  {
    hide ProducerTally;
    if i == 0 {
      rest := Producers(ps[1..], x);
      assert ps[0 := p][1..] == ps[1..];
    } else {
      var inner := ProducersAt(ps[1..], i - 1, p, x);
      rest := Plus(ProducerTally(ps[0], x), inner);
      assert ps[i := p][1..] == ps[1..][i - 1 := p];
    }
  }

  lemma {:induction false} QueuePush(q: seq<Batch>, b: Batch, x: Item)
    ensures Queue(q + [b], x) == Plus(Queue(q, x), BatchTally(b, x))
  {
    if q == [] {
      assert q + [b] == [b] && [b][1..] == [];
    } else {
      QueuePush(q[1..], b, x);
      assert (q + [b])[1..] == q[1..] + [b];
    }
  }

  lemma {:induction false} TimesAppend(a: seq<Item>, b: seq<Item>, x: Item)
    ensures Times(a + b, x) == Times(a, x) + Times(b, x)
  {
    if a == [] {
      assert a + b == b;
    } else {
      assert (a + b)[1..] == a[1..] + b;
      TimesAppend(a[1..], b, x);
    }
  }

  lemma {:induction false} OwedAppend(a: seq<Add>, b: seq<Add>, c: Counter)
    ensures Owed(a + b, c) == Owed(a, c) + Owed(b, c)
  {
    if a == [] {
      assert a + b == b;
    } else {
      assert (a + b)[1..] == a[1..] + b;
      OwedAppend(a[1..], b, c);
    }
  }

  lemma OwedDrop(events: nat, runs: nat)
    ensures Owed(DropRecords(events, runs), DroppedEvents) == events == Owed(DropRecords(events, runs), PendingEvents)
    ensures Owed(DropRecords(events, runs), DroppedRuns) == runs == Owed(DropRecords(events, runs), PendingRuns)
  {
    var d := DropRecords(events, runs);
    assert d[1..] == [d[1], d[2], d[3]] && d[1..][1..] == [d[2], d[3]];
    assert d[1..][1..][1..] == [d[3]] && d[1..][1..][1..][1..] == [];
    forall c: Counter
      ensures Owed(d[1..][1..][1..], c) == if d[3].counter == c then d[3].amount else 0
      ensures Owed(d[1..][1..], c) == (if d[2].counter == c then d[2].amount else 0) + Owed(d[1..][1..][1..], c)
      ensures Owed(d[1..], c) == (if d[1].counter == c then d[1].amount else 0) + Owed(d[1..][1..], c)
    {
    }
  }

  lemma {:induction false} OwedReturns(gaps: seq<Gap>)
    ensures Owed(GapReturns(gaps), PendingEvents) == GapEvents(gaps)
    ensures Owed(GapReturns(gaps), PendingRuns) == GapRuns(gaps)
    ensures Owed(GapReturns(gaps), DroppedEvents) == 0 == Owed(GapReturns(gaps), DroppedRuns)
  {
    if gaps != [] {
      OwedReturns(gaps[1..]);
      var head := [Add(PendingEvents, gaps[0].events), Add(PendingRuns, gaps[0].runs)];
      assert head[1..][1..] == [];
      forall c: Counter
        ensures Owed(GapReturns(gaps), c) == Owed(head, c) + Owed(GapReturns(gaps[1..]), c)
      {
        OwedAppend(head, GapReturns(gaps[1..]), c);
      }
    }
  }

  lemma {:induction false} GapAppend(a: seq<Gap>, b: seq<Gap>)
    ensures GapEvents(a + b) == GapEvents(a) + GapEvents(b)
    ensures GapRuns(a + b) == GapRuns(a) + GapRuns(b)
  {
    if a == [] {
      assert a + b == b;
    } else {
      assert (a + b)[1..] == a[1..] + b;
      GapAppend(a[1..], b);
    }
  }

  // ---------------------------------------------------------------- the invariant

  /** The shape each phase guarantees, so that a thread past its batch holds nothing. */
  ghost predicate Shaped(p: Producer) {
    && p.batch.gaps == []
    && (p.phase.Idle? || p.phase.ReleasingPending? ==> p == Producer(p.phase, [], EMPTY, [], 0))
    && (!p.phase.Filling? ==> p.todo == [] && p.spare == 0)
    && (p.phase.ReadingRuns? || p.phase.Refused? || p.phase.ReleasingCharge? ==> NoRecords(p.batch))
    && (!p.phase.Filling? && !p.phase.Refused? ==> p.owe == [])
  }

  /** The counters and histories of the state, written so that owners and books cancel out. */
  function Books(m: Shared, x: Item): (r: Tally) {
    Tally(Times(m.saved, x) + Times(m.lostEvents, x) + Times(m.lostRuns, x) - Times(m.submitted, x),
          |m.saved| + |m.lostEvents| + |m.lostRuns| - |m.submitted|,
          0 - m.outstanding,
          0 - m.used,
          m.droppedEvents - |m.lostEvents|,
          m.pendingEvents + GapEvents(m.savedGaps) - |m.lostEvents|,
          m.droppedRuns - |m.lostRuns|,
          m.pendingRuns + GapRuns(m.savedGaps) - |m.lostRuns|)
  }

  ghost predicate Balanced(s: State, x: Item) {
    Plus(Total(s, x), Books(s.mem, x)) == ZERO
  }

  ghost predicate Numbered(m: Shared) {
    forall k :: 0 <= k < |m.submitted| ==> m.submitted[k].number == k
  }

  /** Below this many submissions no counter saturates and every gap amount fits an i64. */
  ghost predicate Small(m: Shared) { |m.submitted| <= I64_MAX }

  lemma {:induction false} IdleProducers(ps: seq<Producer>, x: Item)
    requires forall i :: 0 <= i < |ps| ==> ps[i] == IDLE
    ensures Producers(ps, x) == ZERO
  {
    if ps != [] {
      IdleProducers(ps[1..], x);
    }
  }

  lemma InitialBalanced(s: State, x: Item)
    requires Initial(s)
    ensures Balanced(s, x)
  {
    IdleProducers(s.producers, x);
    assert Books(s.mem, x) == ZERO;
    assert Total(s, x) == ZERO;
  }

  // ---------------------------------------------------------------- producer steps

  lemma TimesHead(items: seq<Item>, x: Item)
    requires items != []
    ensures Times(items, x) == Times([items[0]], x) + Times(items[1..], x)
  {
    assert items == [items[0]] + items[1..];
    TimesAppend([items[0]], items[1..], x);
  }

  lemma PushInBatch(b: Batch, item: Item, x: Item)
    ensures InBatch(Push(b, item), x) == InBatch(b, x) + Times([item], x)
  {
    TimesAppend(b.runs, [item], x);
    TimesAppend(b.events, [item], x);
    TimesAppend(b.records, [item], x);
  }

  lemma LoseTimes(m: Shared, item: Item, x: Item)
    ensures Times(Lose(m, item).lostEvents, x) + Times(Lose(m, item).lostRuns, x)
         == Times(m.lostEvents, x) + Times(m.lostRuns, x) + Times([item], x)
  {
    TimesAppend(m.lostEvents, [item], x);
    TimesAppend(m.lostRuns, [item], x);
  }

  lemma LoseBatchTimes(m: Shared, b: Batch, x: Item)
    ensures Times(LoseBatch(m, b).lostEvents, x) + Times(LoseBatch(m, b).lostRuns, x)
         == Times(m.lostEvents, x) + Times(m.lostRuns, x) + InBatch(b, x)
  {
    TimesAppend(m.lostEvents + b.events, b.records, x);
    TimesAppend(m.lostEvents, b.events, x);
    TimesAppend(m.lostRuns, b.runs, x);
  }

  /** A step is balanced when the owner's tally and the books move oppositely. */
  ghost predicate Exchanged(m: Shared, p: Producer, l: Local, x: Item) {
    Plus(ProducerTally(p, x), Books(m, x)) == Plus(ProducerTally(l.p, x), Books(l.mem, x))
  }

  lemma SubmitExchanged(m: Shared, p: Producer, items: seq<Item>, x: Item)
    requires Shaped(p) && p.phase.Idle?
    ensures Exchanged(m, p, SubmitStep(m, items), x)
  {
    TimesAppend(m.submitted, items, x);
  }

  lemma KeepExchanged(m: Shared, p: Producer, x: Item)
    requires p.todo != []
    ensures Exchanged(m, p, KeepItem(m, p), x)
  {
    hide Times, GapEvents, GapRuns, Owed;
    TimesHead(p.todo, x);
    PushInBatch(p.batch, p.todo[0], x);
  }

  lemma LoseExchanged(m: Shared, p: Producer, granted: bool, x: Item)
    requires p.todo != [] && Ready(p)
    ensures Exchanged(m, p, LoseItem(m, p, granted), x)
  {
    hide Times, GapEvents, GapRuns;
    TimesHead(p.todo, x);
    LoseTimes(m, p.todo[0], x);
    OwedDrop(0, 1);
    OwedDrop(1, 0);
  }

  lemma RefuseExchanged(m: Shared, p: Producer, x: Item)
    requires Shaped(p) && p.phase.Sending?
    ensures Exchanged(m, p, RefuseStep(m, p), x)
  {
    LoseBatchTimes(m, p.batch, x);
    OwedDrop(EventCount(p.batch), |p.batch.runs|);
  }

  /** An addition that does not saturate moves its amount from the debtor to the counter. */
  lemma AddExchanged(m: Shared, add: Add, x: Item)
    requires AmountFits(m, add)
    ensures Books(AddTo(m, add), x) == Plus(Books(m, x), AddTally(add))
  {
  }

  function AddTally(add: Add): (r: Tally) {
    match add.counter
    case DroppedEvents => ZERO.(de := add.amount)
    case PendingEvents => ZERO.(pe := add.amount)
    case DroppedRuns => ZERO.(dr := add.amount)
    case PendingRuns => ZERO.(pr := add.amount)
  }

  function Value(m: Shared, c: Counter): (n: nat) {
    match c
    case DroppedEvents => m.droppedEvents
    case PendingEvents => m.pendingEvents
    case DroppedRuns => m.droppedRuns
    case PendingRuns => m.pendingRuns
  }

  predicate AmountFits(m: Shared, add: Add) { Value(m, add.counter) + add.amount <= U64_MAX }

  lemma PayExchanged(m: Shared, p: Producer, x: Item)
    requires p.owe != [] && AmountFits(m, p.owe[0])
    ensures Exchanged(m, p, Local(AddTo(m, p.owe[0]), p.(owe := p.owe[1..])), x)
  {
    AddExchanged(m, p.owe[0], x);
  }

  /** Each local step of a producer exchanges what it holds against the books. */
  lemma LocalExchanged(cfg: Config, m: Shared, p: Producer, move: Move, x: Item)
    requires Shaped(p) && ProducerEnabled(cfg, m, p, move)
    requires move.PayOwed? ==> AmountFits(m, p.owe[0])
    requires p.batch.charge + p.spare <= m.used && (!p.phase.Idle? ==> 1 <= m.outstanding)
    ensures Exchanged(m, p, LocalStep(m, p, move), x)
  {
    match move
    case Submit(items) => SubmitExchanged(m, p, items, x);
    case PayOwed => PayExchanged(m, p, x);
    case Take(granted) => KeepExchanged(m, p, x); LoseExchanged(m, p, granted, x);
    case Send => RefuseExchanged(m, p, x);
    case _ =>
  }

  // ---------------------------------------------------------------- worker steps

  lemma RecordsTimes(m: Shared, b: Batch, x: Item)
    ensures Times(m.saved + Records(b), x) == Times(m.saved, x) + InBatch(b, x)
  {
    TimesAppend(m.saved, Records(b), x);
    TimesAppend(b.runs + b.events, b.records, x);
    TimesAppend(b.runs, b.events, x);
  }

  /** The worker's tally and the books move oppositely, the queue being untouched. */
  ghost predicate WorkExchanged(m: Shared, w: Worker, n: Shared, v: Worker, x: Item) {
    Plus(WorkerTally(w, x), Books(m, x)) == Plus(WorkerTally(v, x), Books(n, x))
  }

  lemma GapExchanged(m: Shared, b: Batch, at: int, events: nat, runs: nat, x: Item)
    requires events <= I64_MAX && runs <= I64_MAX
    ensures WorkExchanged(m, MakingGap(b, events, runs), m, Writing(WithGap(b, at, events, runs)), x)
  {
    GapAppend(b.gaps, [Gap(at, events, runs)]);
    assert [Gap(at, events, runs)][1..] == [];
  }

  lemma AcknowledgeExchanged(m: Shared, b: Batch, x: Item)
    ensures WorkExchanged(m, Writing(b), Acknowledge(Commit(m, b), b), Releasing(b.charge), x)
  {
    hide Times;
    RecordsTimes(m, b, x);
    GapAppend(m.savedGaps, b.gaps);
  }

  lemma RejectExchanged(m: Shared, b: Batch, x: Item)
    ensures WorkExchanged(m, Writing(b), LoseBatch(m, b),
                          Paying(DropRecords(EventCount(b), |b.runs|) + GapReturns(b.gaps), b.charge), x)
  {
    hide Times, GapEvents, GapRuns;
    LoseBatchTimes(m, b, x);
    var drop := DropRecords(EventCount(b), |b.runs|);
    OwedDrop(EventCount(b), |b.runs|);
    OwedReturns(b.gaps);
    forall c: Counter
      ensures Owed(drop + GapReturns(b.gaps), c) == Owed(drop, c) + Owed(GapReturns(b.gaps), c)
    {
      OwedAppend(drop, GapReturns(b.gaps), c);
    }
  }

  lemma PayNextExchanged(m: Shared, owe: seq<Add>, charge: nat, x: Item)
    requires owe != [] && AmountFits(m, owe[0])
    ensures WorkExchanged(m, Paying(owe, charge), AddTo(m, owe[0]), Paying(owe[1..], charge), x)
  {
    AddExchanged(m, owe[0], x);
  }

  // ---------------------------------------------------------------- bounds

  ghost predicate Nonneg(t: Tally) {
    t.held >= 0 && t.count >= 0 && t.live >= 0 && t.bytes >= 0 && t.de >= 0 && t.pe >= 0 && t.dr >= 0 && t.pr >= 0
  }

  lemma {:induction false} ProducersNonneg(ps: seq<Producer>, x: Item)
    ensures Nonneg(Producers(ps, x))
  {
    if ps != [] {
      ProducersNonneg(ps[1..], x);
    }
  }

  lemma {:induction false} QueueNonneg(q: seq<Batch>, x: Item)
    ensures Nonneg(Queue(q, x))
  {
    if q != [] {
      QueueNonneg(q[1..], x);
    }
  }

  /** `other` is everything but producer `i`, and owes nothing negative. */
  lemma Others(s: State, i: nat, p: Producer, x: Item) returns (other: Tally)
    requires i < |s.producers|
    ensures Nonneg(other)
    ensures Total(s, x) == Plus(ProducerTally(s.producers[i], x), other)
    ensures Total(s.(producers := s.producers[i := p]), x) == Plus(ProducerTally(p, x), other)
  {
    hide ProducerTally, BatchTally;
    var idle := ProducersAt(s.producers, i, IDLE, x);
    var rest := ProducersAt(s.producers, i, p, x);
    ProducersNonneg(s.producers[i := IDLE], x);
    assert ProducerTally(IDLE, x) == ZERO by { IdleTally(x); }
    QueueNonneg(s.queue, x);
    other := Plus(Plus(rest, Queue(s.queue, x)), WorkerTally(s.worker, x));
    WorkerNonneg(s.worker, x);
  }

  lemma IdleTally(x: Item)
    ensures ProducerTally(IDLE, x) == ZERO
  {
  }

  lemma WorkerNonneg(w: Worker, x: Item)
    ensures Nonneg(WorkerTally(w, x))
  {
  }

  /** A debt is at most the records given up, so paying it never saturates. */
  lemma DebtFits(m: Shared, debt: Tally, other: Tally, x: Item)
    requires Small(m) && Nonneg(debt) && Nonneg(other)
    requires Plus(Plus(debt, other), Books(m, x)) == ZERO
    ensures debt.bytes <= m.used && debt.live <= m.outstanding
    ensures m.droppedEvents + debt.de <= I64_MAX && m.pendingEvents + debt.pe <= I64_MAX
    ensures m.droppedRuns + debt.dr <= I64_MAX && m.pendingRuns + debt.pr <= I64_MAX
  {
  }

  lemma {:induction false} OwedFirst(owe: seq<Add>)
    requires owe != []
    ensures owe[0].amount <= Owed(owe, owe[0].counter)
  {
  }

  lemma ProducerNonneg(p: Producer, x: Item)
    ensures Nonneg(ProducerTally(p, x))
  {
  }

  // ---------------------------------------------------------------- one step

  lemma LocalBalanced(cfg: Config, s: State, i: nat, move: Move, x: Item)
    requires Balanced(s, x) && Small(s.mem) && i < |s.producers| && Shaped(s.producers[i])
    requires ProducerEnabled(cfg, s.mem, s.producers[i], move) && !(move.Send? && Accepts(cfg, s))
    ensures Balanced(ProducerStep(cfg, s, i, move), x)
  {
    var p := s.producers[i];
    var l := LocalStep(s.mem, p, move);
    var other := Others(s, i, l.p, x);
    LocalFits(s.mem, p, other, x);
    LocalExchanged(cfg, s.mem, p, move, x);
    Combine(ProducerTally(p, x), Books(s.mem, x), ProducerTally(l.p, x), Books(l.mem, x), other);
    assert Total(ProducerStep(cfg, s, i, move), x) == Total(s.(producers := s.producers[i := l.p]), x);
  }

  lemma LocalFits(m: Shared, p: Producer, other: Tally, x: Item)
    requires Small(m) && Nonneg(other) && Plus(Plus(ProducerTally(p, x), other), Books(m, x)) == ZERO
    ensures p.owe != [] ==> AmountFits(m, p.owe[0])
    ensures p.batch.charge + p.spare <= m.used && (!p.phase.Idle? ==> 1 <= m.outstanding)
  {
    ProducerNonneg(p, x);
    DebtFits(m, ProducerTally(p, x), other, x);
    if p.owe != [] {
      OwedFirst(p.owe);
    }
  }

  lemma Combine(a: Tally, m: Tally, b: Tally, n: Tally, other: Tally)
    requires Plus(a, m) == Plus(b, n) && Plus(Plus(a, other), m) == ZERO
    ensures Plus(Plus(b, other), n) == ZERO
  {
  }

  lemma SendBalanced(cfg: Config, s: State, i: nat, x: Item)
    requires Balanced(s, x) && i < |s.producers| && Shaped(s.producers[i])
    requires ProducerEnabled(cfg, s.mem, s.producers[i], Send) && Accepts(cfg, s)
    ensures Balanced(ProducerStep(cfg, s, i, Send), x)
  {
    var p := s.producers[i];
    var other := Others(s, i, IDLE, x);
    QueuePush(s.queue, p.batch, x);
    SentTally(p, x);
    IdleTally(x);
  }

  lemma SentTally(p: Producer, x: Item)
    requires Shaped(p) && p.phase.Sending?
    ensures ProducerTally(p, x) == BatchTally(p.batch, x)
  {
  }

  /** `other` is everything but the worker. */
  function Rest(s: State, x: Item): (r: Tally) { Plus(Producers(s.producers, x), Queue(s.queue, x)) }

  lemma RestNonneg(s: State, x: Item)
    ensures Nonneg(Rest(s, x))
  {
    ProducersNonneg(s.producers, x);
    QueueNonneg(s.queue, x);
  }

  lemma WorkerFits(m: Shared, w: Worker, other: Tally, x: Item)
    requires Small(m) && Nonneg(other) && Plus(Plus(other, WorkerTally(w, x)), Books(m, x)) == ZERO
    ensures w.Paying? && w.owe != [] ==> AmountFits(m, w.owe[0])
    ensures w.Paying? || w.Releasing? ==> w.charge <= m.used
    ensures w.LeavingPending? ==> 1 <= m.outstanding
    ensures w.MakingGap? ==> w.events <= I64_MAX && w.runs <= I64_MAX
  {
    WorkerNonneg(w, x);
    assert Plus(Plus(WorkerTally(w, x), other), Books(m, x)) == ZERO;
    DebtFits(m, WorkerTally(w, x), other, x);
    if w.Paying? && w.owe != [] {
      OwedFirst(w.owe);
    }
  }

  lemma OwedNone()
    ensures forall c :: Owed([], c) == 0
  {
  }

  lemma EmptyTally(x: Item)
    ensures BatchTally(EMPTY, x) == ZERO.(live := 1)
  {
  }

  /** Loads, ticks and failed writes move nothing. */
  lemma QuietExchanged(cfg: Config, s: State, work: Work, x: Item)
    requires WorkEnabled(cfg, s, work) && !WorkStep(cfg, s, work).worker.Dead?
    requires work.LoadEvents? || work.LoadRuns? || work.Tick? || work.WriteFails? || work.Stop?
    ensures WorkExchanged(s.mem, s.worker, WorkStep(cfg, s, work).mem, WorkStep(cfg, s, work).worker, x)
  {
    hide Books;
    EmptyTally(x);
  }

  lemma SwapExchanged(cfg: Config, s: State, work: Work, x: Item)
    requires WorkEnabled(cfg, s, work) && (work.SwapEvents? || work.SwapRuns?)
    ensures WorkExchanged(s.mem, s.worker, WorkStep(cfg, s, work).mem, WorkStep(cfg, s, work).worker, x)
  {
    hide Times, GapEvents, GapRuns, Owed, BatchTally;
  }

  lemma ReleaseExchanged(cfg: Config, s: State, work: Work, x: Item)
    requires WorkEnabled(cfg, s, work) && (work.NewPending? || work.ReleaseCharge? || work.ReleasePending?)
    requires s.worker.Releasing? ==> s.worker.charge <= s.mem.used
    requires s.worker.LeavingPending? ==> 1 <= s.mem.outstanding
    ensures WorkExchanged(s.mem, s.worker, WorkStep(cfg, s, work).mem, WorkStep(cfg, s, work).worker, x)
  {
    hide Times, GapEvents, GapRuns, Owed, BatchTally;
    EmptyTally(x);
  }

  lemma CommitExchanged(m: Shared, b: Batch, x: Item)
    ensures WorkExchanged(m, Writing(b), Commit(m, b), Writing(b), x)
  {
    hide Times, GapEvents, GapRuns, BatchTally;
  }

  lemma PaidExchanged(m: Shared, charge: nat, x: Item)
    ensures WorkExchanged(m, Paying([], charge), m, Releasing(charge), x)
  {
    hide Books;
    OwedNone();
  }

  /** Every worker step but a receive exchanges its own tally against the books. */
  lemma WorkerExchanged(cfg: Config, s: State, work: Work, x: Item)
    requires WorkEnabled(cfg, s, work) && !work.Receive? && WorkerShaped(s)
    requires s.worker.Paying? && s.worker.owe != [] ==> AmountFits(s.mem, s.worker.owe[0])
    requires s.worker.Releasing? ==> s.worker.charge <= s.mem.used
    requires s.worker.LeavingPending? ==> 1 <= s.mem.outstanding
    requires s.worker.MakingGap? ==> s.worker.events <= I64_MAX && s.worker.runs <= I64_MAX
    requires !WorkStep(cfg, s, work).worker.Dead?
    ensures WorkExchanged(s.mem, s.worker, WorkStep(cfg, s, work).mem, WorkStep(cfg, s, work).worker, x)
  {
    hide WorkExchanged, WithGap, Commit, Acknowledge, LoseBatch, AddTo, GapReturns, DropRecords, WorkerShaped;
    match work
    case SwapEvents => SwapExchanged(cfg, s, work, x);
    case SwapRuns => SwapExchanged(cfg, s, work, x);
    case NewPending => ReleaseExchanged(cfg, s, work, x);
    case ReleaseCharge => ReleaseExchanged(cfg, s, work, x);
    case ReleasePending => ReleaseExchanged(cfg, s, work, x);
    case NewGap(at) => GapExchanged(s.mem, s.worker.batch, at, s.worker.events, s.worker.runs, x);
    case WriteCommits(acknowledged) =>
      CommitExchanged(s.mem, s.worker.batch, x);
      AcknowledgeExchanged(s.mem, s.worker.batch, x);
    case WriteRejected => RejectExchanged(s.mem, s.worker.batch, x);
    case PayNext =>
      if s.worker.owe != [] {
        PayNextExchanged(s.mem, s.worker.owe, s.worker.charge, x);
      } else {
        PaidExchanged(s.mem, s.worker.charge, x);
      }
    case _ => QuietExchanged(cfg, s, work, x);
  }

  lemma WorkBalanced(cfg: Config, s: State, work: Work, x: Item)
    requires Balanced(s, x) && Small(s.mem) && WorkerShaped(s) && WorkEnabled(cfg, s, work)
    requires !WorkStep(cfg, s, work).worker.Dead?
    ensures Balanced(WorkStep(cfg, s, work), x)
  {
    hide WorkerTally, Books;
    if work.Receive? {
      ReceiveBalanced(s, x);
    } else {
      var r := WorkStep(cfg, s, work);
      var other := Rest(s, x);
      RestNonneg(s, x);
      WorkerFits(s.mem, s.worker, other, x);
      WorkerExchanged(cfg, s, work, x);
      assert Rest(r, x) == other;
      Combine(WorkerTally(s.worker, x), Books(s.mem, x), WorkerTally(r.worker, x), Books(r.mem, x), other);
    }
  }

  lemma ReceiveBalanced(s: State, x: Item)
    requires Balanced(s, x) && s.worker.Selecting? && s.queue != []
    ensures Balanced(s.(worker := SwappingEvents(s.queue[0]), queue := s.queue[1..], known := true), x)
  {
    hide BatchTally, ProducerTally, Producers, Books;
    var q := s.queue;
    assert Queue(q, x) == Plus(BatchTally(q[0], x), Queue(q[1..], x));
    assert WorkerTally(SwappingEvents(q[0]), x) == BatchTally(q[0], x);
  }

  // ---------------------------------------------------------------- shapes and the database

  ghost predicate AllShaped(s: State) {
    forall i :: 0 <= i < |s.producers| ==> Shaped(s.producers[i])
  }

  ghost predicate WorkerShaped(s: State) {
    && (forall i :: 0 <= i < |s.queue| ==> s.queue[i].gaps == [])
    && (s.worker.SwappingEvents? || s.worker.SwappingRuns? || s.worker.MakingGap? ==> s.worker.batch.gaps == [])
  }

  /** The batch a failed write may already have committed; a rejected one never is. */
  function Retried(cfg: Config, w: Worker): (r: Batch) {
    if w.Writing? && !cfg.rejects(w.batch) then w.batch else EMPTY
  }

  /** The database holds what was acknowledged, and beyond that only the batch being retried. */
  ghost predicate Stored(cfg: Config, s: State) {
    var b := Retried(cfg, s.worker);
    && Keys(s.mem.saved) <= s.mem.committed <= Keys(s.mem.saved) + Keys(Records(b))
    && GapSet(s.mem.savedGaps) <= s.mem.committedGaps <= GapSet(s.mem.savedGaps) + GapSet(b.gaps)
  }

  /** A gap record always reports something. */
  ghost predicate GapsReport(s: State) {
    && (forall g :: g in s.mem.savedGaps ==> g.events + g.runs > 0)
    && (s.worker.Writing? ==> forall g :: g in s.worker.batch.gaps ==> g.events + g.runs > 0)
  }

  lemma LocalShaped(cfg: Config, m: Shared, p: Producer, move: Move)
    requires Shaped(p) && ProducerEnabled(cfg, m, p, move)
    ensures Shaped(LocalStep(m, p, move).p)
    ensures LocalStep(m, p, move).mem.committed == m.committed && LocalStep(m, p, move).mem.committedGaps == m.committedGaps
    ensures LocalStep(m, p, move).mem.saved == m.saved && LocalStep(m, p, move).mem.savedGaps == m.savedGaps
  {
  }

  lemma KeysAppend(a: seq<Item>, b: seq<Item>)
    ensures Keys(a + b) == Keys(a) + Keys(b)
  {
    forall k
      ensures k in Keys(a + b) <==> k in Keys(a) + Keys(b)
    {
      if k in Keys(a) {
        var i :| 0 <= i < |a| && (a[i].kind, a[i].key) == k;
        assert (a + b)[i] == a[i];
      }
      if k in Keys(b) {
        var i :| 0 <= i < |b| && (b[i].kind, b[i].key) == k;
        assert (a + b)[|a| + i] == b[i];
      }
    }
  }

  lemma NoKeys()
    ensures Keys(Records(EMPTY)) == {}
  {
  }

  lemma StepStored(cfg: Config, s: State, work: Work)
    requires WorkEnabled(cfg, s, work) && Stored(cfg, s) && GapsReport(s) && WorkerShaped(s)
    requires !WorkStep(cfg, s, work).worker.Dead?
    ensures Stored(cfg, WorkStep(cfg, s, work))
  {
    hide Keys;
    assert Keys(Records(EMPTY)) == {} by { NoKeys(); }
    if work.WriteCommits? {
      KeysAppend(s.mem.saved, Records(s.worker.batch));
    }
  }

  lemma StepReports(cfg: Config, s: State, work: Work)
    requires WorkEnabled(cfg, s, work) && GapsReport(s) && WorkerShaped(s)
    requires !WorkStep(cfg, s, work).worker.Dead?
    ensures GapsReport(WorkStep(cfg, s, work)) && WorkerShaped(WorkStep(cfg, s, work))
  {
  }

  // ---------------------------------------------------------------- the invariant over runs

  /** While the worker lives: books balance for every record, and owners have their shapes. */
  ghost predicate Inv(cfg: Config, s: State) {
    && (forall x: Item :: Balanced(s, x))
    && AllShaped(s) && WorkerShaped(s) && Stored(cfg, s) && GapsReport(s) && Numbered(s.mem)
  }

  lemma InitialInv(cfg: Config, s: State)
    requires Initial(s)
    ensures Inv(cfg, s)
  {
    hide Balanced;
    forall x: Item
      ensures Balanced(s, x)
    {
      InitialBalanced(s, x);
    }
  }

  lemma ProducerKeepsInv(cfg: Config, s: State, i: nat, move: Move)
    requires Inv(cfg, s) && Small(s.mem) && i < |s.producers|
    requires ProducerEnabled(cfg, s.mem, s.producers[i], move)
    ensures Inv(cfg, ProducerStep(cfg, s, i, move))
  {
    hide Balanced, LocalStep;
    var r := ProducerStep(cfg, s, i, move);
    forall x: Item
      ensures Balanced(r, x)
    {
      if move.Send? && Accepts(cfg, s) {
        SendBalanced(cfg, s, i, x);
      } else {
        LocalBalanced(cfg, s, i, move, x);
      }
    }
    LocalShaped(cfg, s.mem, s.producers[i], move);
    LocalNumbered(cfg, s.mem, s.producers[i], move);
  }

  lemma LocalNumbered(cfg: Config, m: Shared, p: Producer, move: Move)
    requires Numbered(m) && ProducerEnabled(cfg, m, p, move)
    ensures Numbered(LocalStep(m, p, move).mem)
  {
  }

  lemma WorkKeepsInv(cfg: Config, s: State, work: Work)
    requires Inv(cfg, s) && Small(s.mem) && WorkEnabled(cfg, s, work)
    requires !WorkStep(cfg, s, work).worker.Dead?
    ensures Inv(cfg, WorkStep(cfg, s, work))
  {
    hide Balanced, Stored;
    var r := WorkStep(cfg, s, work);
    forall x: Item
      ensures Balanced(r, x)
    {
      WorkBalanced(cfg, s, work, x);
    }
    StepStored(cfg, s, work);
    StepReports(cfg, s, work);
  }

  /** Histories only grow, and a dead worker stays dead. */
  ghost predicate Grows(s: State, r: State) {
    && s.mem.submitted <= r.mem.submitted
    && s.mem.saved <= r.mem.saved
    && s.mem.lostEvents <= r.mem.lostEvents
    && s.mem.lostRuns <= r.mem.lostRuns
    && (s.worker.Dead? ==> r.worker.Dead?)
  }

  lemma StepGrows(cfg: Config, s: State, step: Step)
    requires Enabled(cfg, s, step)
    ensures Grows(s, After(cfg, s, step))
  {
    hide Keys, Records, GapReturns;
  }

  lemma {:induction false} RunGrows(cfg: Config, s: State, trace: seq<Step>, r: State)
    requires Runs(cfg, s, trace, r)
    ensures Grows(s, r)
    decreases |trace|
  {
    if trace != [] {
      StepGrows(cfg, s, trace[0]);
      RunGrows(cfg, After(cfg, s, trace[0]), trace[1..], r);
    }
  }

  lemma {:induction false} RunKeepsInv(cfg: Config, s: State, trace: seq<Step>, r: State)
    requires Runs(cfg, s, trace, r) && Inv(cfg, s) && Small(r.mem) && !r.worker.Dead?
    ensures Inv(cfg, r)
    decreases |trace|
  {
    hide Inv;
    if trace != [] {
      var t := After(cfg, s, trace[0]);
      RunGrows(cfg, t, trace[1..], r);
      StepGrows(cfg, s, trace[0]);
      match trace[0] {
        case ByProducer(i, move) => ProducerKeepsInv(cfg, s, i, move);
        case ByWorker(work) => WorkKeepsInv(cfg, s, work);
      }
      RunKeepsInv(cfg, t, trace[1..], r);
    }
  }

  // ---------------------------------------------------------------- conservation of records

  lemma {:induction false} TimesMember(items: seq<Item>, x: Item)
    ensures x in items <==> Times(items, x) > 0
  {
    if items != [] {
      assert items == [items[0]] + items[1..];
      TimesMember(items[1..], x);
    }
  }

  lemma {:induction false} NumberedOnce(items: seq<Item>, k: nat, base: nat)
    requires k < |items| && forall j :: 0 <= j < |items| ==> items[j].number == base + j
    ensures Times(items, items[k]) == 1
  {
    if k == 0 {
      TimesMember(items[1..], items[0]);
      assert forall j :: 0 <= j < |items[1..]| ==> items[1..][j].number == base + 1 + j;
    } else {
      NumberedOnce(items[1..], k - 1, base + 1);
    }
  }

  /**
    While the worker lives, every submitted record is in exactly one place: with a producer,
    in the queue, in the worker's batch, acknowledged by the database, or counted as dropped.
   */
  lemma RecordsConserved(cfg: Config, s: State, trace: seq<Step>, r: State, k: nat)
    requires Initial(s) && Runs(cfg, s, trace, r) && Small(r.mem) && !r.worker.Dead?
    requires k < |r.mem.submitted|
    ensures var x := r.mem.submitted[k];
      Producers(r.producers, x).held + Queue(r.queue, x).held + WorkerTally(r.worker, x).held
        + Times(r.mem.saved, x) + Times(r.mem.lostEvents, x) + Times(r.mem.lostRuns, x) == 1
  {
    hide Producers, Queue, WorkerTally;
    InitialInv(cfg, s);
    RunKeepsInv(cfg, s, trace, r);
    var x := r.mem.submitted[k];
    NumberedOnce(r.mem.submitted, k, 0);
    assert Balanced(r, x);
  }

  /**
    The database holds exactly the keys of acknowledged records, plus at most those of the
    batch whose write committed but is being retried; gaps likewise.
   */
  lemma DatabaseExact(cfg: Config, s: State, trace: seq<Step>, r: State)
    requires Initial(s) && Runs(cfg, s, trace, r) && Small(r.mem) && !r.worker.Dead?
    ensures Keys(r.mem.saved) <= r.mem.committed <= Keys(r.mem.saved) + Keys(Records(Retried(cfg, r.worker)))
    ensures GapSet(r.mem.savedGaps) <= r.mem.committedGaps <= GapSet(r.mem.savedGaps) + GapSet(Retried(cfg, r.worker).gaps)
  {
    InitialInv(cfg, s);
    RunKeepsInv(cfg, s, trace, r);
  }

  /** The gap records of the worker's batch. */
  function GapsInFlight(w: Worker): (r: seq<Gap>) { if w.Writing? then w.batch.gaps else [] }

  /** Nobody is between taking or paying a counter amount and the next counter operation. */
  predicate Quiet(s: State) {
    && (forall i :: 0 <= i < |s.producers| ==> s.producers[i].owe == [])
    && !s.worker.SwappingRuns? && !s.worker.MakingGap? && !s.worker.Paying?
  }

  lemma {:induction false} QuietProducers(ps: seq<Producer>, x: Item)
    requires forall i :: 0 <= i < |ps| ==> ps[i].owe == []
    ensures var t := Producers(ps, x); t.de == 0 && t.pe == 0 && t.dr == 0 && t.pr == 0
  {
    if ps != [] {
      QuietProducers(ps[1..], x);
    }
  }

  lemma {:induction false} QuietQueue(q: seq<Batch>, x: Item)
    requires forall i :: 0 <= i < |q| ==> q[i].gaps == []
    ensures var t := Queue(q, x); t.de == 0 && t.pe == 0 && t.dr == 0 && t.pr == 0
  {
    if q != [] {
      QuietQueue(q[1..], x);
    }
  }

  /**
    Each dropped total counts the records given up, and equals the pending count plus the
    amounts of the gap records in flight or acknowledged.
   */
  lemma DropsAccounted(cfg: Config, s: State, trace: seq<Step>, r: State)
    requires Initial(s) && Runs(cfg, s, trace, r) && Small(r.mem) && !r.worker.Dead? && Quiet(r)
    ensures r.mem.droppedEvents == |r.mem.lostEvents| && r.mem.droppedRuns == |r.mem.lostRuns|
    ensures r.mem.droppedEvents == r.mem.pendingEvents + GapEvents(GapsInFlight(r.worker)) + GapEvents(r.mem.savedGaps)
    ensures r.mem.droppedRuns == r.mem.pendingRuns + GapRuns(GapsInFlight(r.worker)) + GapRuns(r.mem.savedGaps)
  {
    InitialInv(cfg, s);
    RunKeepsInv(cfg, s, trace, r);
    var x := Item(0, RunKind, 0, true, 0);
    QuietProducers(r.producers, x);
    QuietQueue(r.queue, x);
    QuietWorker(r.worker, x);
    assert Balanced(r, x);
  }

  lemma QuietWorker(w: Worker, x: Item)
    requires !w.SwappingRuns? && !w.MakingGap? && !w.Paying?
    requires w.SwappingEvents? ==> w.batch.gaps == []
    ensures var t := WorkerTally(w, x);
      t.de == 0 && t.dr == 0 && t.pe == GapEvents(GapsInFlight(w)) && t.pr == GapRuns(GapsInFlight(w))
  {
  }

  // ---------------------------------------------------------------- gaps by database key

  /** The two amounts a gap record reports. */
  datatype Part = EventPart | RunPart

  function Of(part: Part, g: Gap): (n: nat) { if part.EventPart? then g.events else g.runs }

  /** The amounts of a set of gaps, each key counted once. */
  ghost function SetSum(part: Part, gs: set<Gap>): (n: nat)
  {
    if gs == {} then 0 else var g :| g in gs; Of(part, g) + SetSum(part, gs - {g})
  }

  lemma {:induction false} SetSumWithout(part: Part, gs: set<Gap>, g: Gap)
    requires g in gs
    ensures SetSum(part, gs) == Of(part, g) + SetSum(part, gs - {g})
  {
    var h :| h in gs && SetSum(part, gs) == Of(part, h) + SetSum(part, gs - {h});
    if h != g {
      SetSumWithout(part, gs - {h}, g);
      SetSumWithout(part, gs - {g}, h);
      assert gs - {h} - {g} == gs - {g} - {h};
    }
  }

  function SeqSum(part: Part, gs: seq<Gap>): (n: nat) { if part.EventPart? then GapEvents(gs) else GapRuns(gs) }

  ghost predicate Distinct(gs: seq<Gap>) {
    forall i, j :: 0 <= i < j < |gs| ==> gs[i] != gs[j]
  }

  /** No two gaps that report any of this part share a key. */
  ghost predicate DistinctIn(part: Part, gs: seq<Gap>) {
    forall i, j :: 0 <= i < j < |gs| && Of(part, gs[i]) > 0 ==> gs[i] != gs[j]
  }

  /**
    Counting gaps by database key loses nothing exactly when no two of them that report
    something were made at the same instant with the same amounts, and never gains anything.
   */
  lemma {:induction false} UnionByKey(part: Part, gs: seq<Gap>)
    ensures SetSum(part, GapSet(gs)) <= SeqSum(part, gs)
    ensures SetSum(part, GapSet(gs)) == SeqSum(part, gs) <==> DistinctIn(part, gs)
  {
    if gs != [] {
      var rest := gs[1..];
      assert gs == [gs[0]] + rest;
      UnionByKey(part, rest);
      DistinctHead(part, gs);
      if gs[0] in rest {
        assert GapSet(gs) == GapSet(rest);
      } else {
        assert GapSet(gs) - {gs[0]} == GapSet(rest);
        SetSumWithout(part, GapSet(gs), gs[0]);
      }
    }
  }

  lemma DistinctHead(part: Part, gs: seq<Gap>)
    requires gs != []
    ensures DistinctIn(part, gs) <==> DistinctIn(part, gs[1..]) && (gs[0] in gs[1..] ==> Of(part, gs[0]) == 0)
  {
    var rest := gs[1..];
    if DistinctIn(part, gs) {
      forall i, j | 0 <= i < j < |rest| && Of(part, rest[i]) > 0
        ensures rest[i] != rest[j]
      {
        assert gs[i + 1] != gs[j + 1];
      }
      if j :| 0 <= j < |rest| && rest[j] == gs[0] {
        assert gs[j + 1] == gs[0];
      }
    }
    if DistinctIn(part, rest) && (gs[0] in rest ==> Of(part, gs[0]) == 0) {
      forall i, j | 0 <= i < j < |gs| && Of(part, gs[i]) > 0
        ensures gs[i] != gs[j]
      {
        assert gs[j] == rest[j - 1];
        assert i > 0 ==> gs[i] == rest[i - 1];
      }
    }
  }

  lemma DistinctParts(gs: seq<Gap>)
    requires forall g :: g in gs ==> g.events + g.runs > 0
    ensures Distinct(gs) <==> DistinctIn(EventPart, gs) && DistinctIn(RunPart, gs)
  {
    if DistinctIn(EventPart, gs) && DistinctIn(RunPart, gs) {
      forall i, j | 0 <= i < j < |gs|
        ensures gs[i] != gs[j]
      {
        assert gs[i] in gs;
        assert Of(EventPart, gs[i]) > 0 || Of(RunPart, gs[i]) > 0;
      }
    }
  }

  /** The gap keys in the database or on their way to it. */
  function GapKeys(s: State): (r: set<Gap>) { s.mem.committedGaps + GapSet(GapsInFlight(s.worker)) }

  /** The gaps made so far that were not taken back. */
  function GapsMade(s: State): (r: seq<Gap>) { s.mem.savedGaps + GapsInFlight(s.worker) }

  /**
    Each dropped total is at least its pending count plus what the gaps in flight or committed
    report of it, each database key counted once. It is equal exactly when no two gaps that
    report any of it share a key, and both are equal exactly when all gap keys are distinct.
   */
  lemma DropsInDatabase(cfg: Config, s: State, trace: seq<Step>, r: State)
    requires Initial(s) && Runs(cfg, s, trace, r) && Small(r.mem) && !r.worker.Dead? && Quiet(r)
    ensures r.mem.droppedEvents >= r.mem.pendingEvents + SetSum(EventPart, GapKeys(r))
    ensures r.mem.droppedRuns >= r.mem.pendingRuns + SetSum(RunPart, GapKeys(r))
    ensures r.mem.droppedEvents == r.mem.pendingEvents + SetSum(EventPart, GapKeys(r)) <==> DistinctIn(EventPart, GapsMade(r))
    ensures r.mem.droppedRuns == r.mem.pendingRuns + SetSum(RunPart, GapKeys(r)) <==> DistinctIn(RunPart, GapsMade(r))
    ensures Distinct(GapsMade(r)) <==> DistinctIn(EventPart, GapsMade(r)) && DistinctIn(RunPart, GapsMade(r))
  {
    hide GapEvents, GapRuns, SetSum, Distinct, DistinctIn;
    DropsAccounted(cfg, s, trace, r);
    InitialInv(cfg, s);
    RunKeepsInv(cfg, s, trace, r);
    GapAppend(r.mem.savedGaps, GapsInFlight(r.worker));
    assert GapKeys(r) == GapSet(GapsMade(r));
    UnionByKey(EventPart, GapsMade(r));
    UnionByKey(RunPart, GapsMade(r));
    DistinctParts(GapsMade(r));
  }

  // ---------------------------------------------------------------- live batches and flush

  function LiveBatches(s: State): (n: nat) {
    LiveProducers(s.producers) + |s.queue| + LiveWorker(s.worker)
  }

  function LiveProducers(ps: seq<Producer>): (n: nat) {
    if ps == [] then 0 else (if ps[0].phase.Idle? then 0 else 1) + LiveProducers(ps[1..])
  }

  function LiveWorker(w: Worker): (n: nat) {
    if w.Checking? || w.CheckingRuns? || w.Creating? || w.Selecting? || w.Dead? then 0 else 1
  }

  function LiveBytes(s: State): (n: nat) {
    ProducerBytes(s.producers) + QueueBytes(s.queue) + WorkerBytes(s.worker)
  }

  function ProducerBytes(ps: seq<Producer>): (n: nat) {
    if ps == [] then 0 else ps[0].batch.charge + ps[0].spare + ProducerBytes(ps[1..])
  }

  function QueueBytes(q: seq<Batch>): (n: nat) { if q == [] then 0 else q[0].charge + QueueBytes(q[1..]) }

  function WorkerBytes(w: Worker): (n: nat) {
    match w
    case SwappingEvents(b) => b.charge
    case SwappingRuns(b, _) => b.charge
    case MakingGap(b, _, _) => b.charge
    case Writing(b) => b.charge
    case Paying(_, c) => c
    case Releasing(c) => c
    case _ => 0
  }

  lemma {:induction false} LiveTotals(ps: seq<Producer>, q: seq<Batch>, x: Item)
    ensures Producers(ps, x).live == LiveProducers(ps) && Producers(ps, x).bytes == ProducerBytes(ps)
    ensures Queue(q, x).live == |q| && Queue(q, x).bytes == QueueBytes(q)
    decreases |ps| + |q|
  {
    if ps != [] {
      LiveTotals(ps[1..], q, x);
    } else if q != [] {
      LiveTotals(ps, q[1..], x);
    }
  }

  /** `outstanding` counts the live batches and the byte budget holds exactly their charges. */
  lemma BatchesAccounted(cfg: Config, s: State, trace: seq<Step>, r: State)
    requires Initial(s) && Runs(cfg, s, trace, r) && Small(r.mem) && !r.worker.Dead?
    ensures r.mem.outstanding == LiveBatches(r)
    ensures r.mem.used == LiveBytes(r)
  {
    hide Producers, Queue, WorkerTally, Books, LiveProducers, ProducerBytes, QueueBytes, LiveWorker, WorkerBytes;
    InitialInv(cfg, s);
    RunKeepsInv(cfg, s, trace, r);
    var x := Item(0, RunKind, 0, true, 0);
    LiveTotals(r.producers, r.queue, x);
    WorkerLive(r.worker, r.mem, x);
    assert Balanced(r, x);
  }

  lemma WorkerLive(w: Worker, m: Shared, x: Item)
    ensures WorkerTally(w, x).live == LiveWorker(w) && WorkerTally(w, x).bytes == WorkerBytes(w)
    ensures Books(m, x).live == 0 - m.outstanding && Books(m, x).bytes == 0 - m.used
  {
    hide Times, GapEvents, GapRuns, Owed;
  }

  lemma {:induction false} NothingLive(ps: seq<Producer>, x: Item)
    requires LiveProducers(ps) == 0 && forall i :: 0 <= i < |ps| ==> Shaped(ps[i])
    ensures Producers(ps, x).held == 0
  {
    if ps != [] {
      NothingLive(ps[1..], x);
      IdleTally(x);
    }
  }

  /**
    What `flush` relies on: if `outstanding` is read as zero, every record submitted before
    that read is, from then on, acknowledged by the database or counted as dropped.
   */
  lemma FlushSound(cfg: Config, s: State, first: seq<Step>, read: State, second: seq<Step>, r: State, k: nat)
    requires Initial(s) && Runs(cfg, s, first, read) && Runs(cfg, read, second, r)
    requires Small(read.mem) && !read.worker.Dead? && read.mem.outstanding == 0
    requires k < |read.mem.submitted|
    ensures var x := read.mem.submitted[k];
      x in r.mem.saved || x in r.mem.lostEvents || x in r.mem.lostRuns
  {
    hide Producers, ProducerTally, WorkerTally, Times;
    var x := read.mem.submitted[k];
    BatchesAccounted(cfg, s, first, read);
    RecordsConserved(cfg, s, first, read, k);
    InitialInv(cfg, s);
    RunKeepsInv(cfg, s, first, read);
    NothingLive(read.producers, x);
    assert Queue(read.queue, x) == ZERO;
    IdleWorker(read.worker, x);
    TimesMember(read.mem.saved, x);
    TimesMember(read.mem.lostEvents, x);
    TimesMember(read.mem.lostRuns, x);
    RunGrows(cfg, read, second, r);
  }

  lemma IdleWorker(w: Worker, x: Item)
    requires LiveWorker(w) == 0
    ensures WorkerTally(w, x) == ZERO
  {
  }
}
