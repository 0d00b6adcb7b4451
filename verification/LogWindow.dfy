/**
  Overlapping log windows (crates/integrations/src/log_window.rs, log_dedup.rs) and the cursor
  that advances only over complete results (crates/providers/src/log_cursor.rs).
 */
module LogWindow {
  import opened Order
  import Evidence

  type Time = Evidence.Time

  datatype Event = Event(scope: string, id: Option<string>, message: string, at: Time)

  /** What the digest of an event is taken over; distinct inputs have distinct digests. */
  datatype Print = Print(window: string, scope: string, ident: string, at: Time)

  function PrintOf(window: string, e: Event): (p: Print) {
    Print(window, e.scope, if e.id.Some? then e.id.value else e.message, e.at)
  }

  type Entries = map<Print, Time>

  // ---------------------------------------------------------------- the cache

  /** Counted in a batch that has been committed since. */
  predicate Known(entries: Entries, p: Print, committed: Option<Time>) {
    p in entries && committed.Some? && entries[p] <= committed.value
  }

  class Dedupe {
    var entries: Entries

    constructor ()
      ensures entries == map[]
    {
      entries := map[];
    }

    /** `accept`: refuses what a committed batch counted, otherwise stamps it with this batch. */
    method Accept(p: Print, end: Time, committed: Option<Time>) returns (accepted: bool)
      modifies this
      ensures accepted == !Known(old(entries), p, committed)
      ensures entries == if accepted then old(entries)[p := end] else old(entries)
    {
      if p in entries {
        var at := entries[p];
        if committed.Some? && at <= committed.value {
          return false;
        }
      }
      entries := entries[p := end];
      accepted := true;
    }
  }

  // ---------------------------------------------------------------- one window

  datatype Range = Range(start: Time, end: Time, committed: Option<Time>, gapSeconds: nat)

  /** `Window::new`: the configured span, shortened to an overlap before the cursor. */
  function RangeOf(end: Time, span: nat, overlap: nat, cursor: Option<Time>): (r: Range) {
    var full := end - span * Evidence.SECOND;
    match cursor
    case None => Range(full, end, None, 0)
    case Some(at) =>
      var near := at - overlap * Evidence.SECOND;
      var gap := Evidence.Seconds(full - at);
      Range(if full >= near then full else near, end, cursor, if gap >= 0 then gap else 0)
  }

  /** The counters of a window while it is read; `counted` are the events its groups hold. */
  datatype Tally = Tally(scanned: nat, duplicates: nat, prints: set<Print>, counted: seq<Event>)

  const FRESH: Tally := Tally(0, 0, {}, [])

  datatype Recording = Recording(tally: Tally, entries: Entries, ok: bool)

  /** `record`: bounded, in range, and counted once. */
  function Record(id: string, limit: nat, range: Range, t: Tally, entries: Entries, e: Event): (r: Recording) {
    if t.scanned >= limit then Recording(t, entries, false)
    else
      var u := t.(scanned := t.scanned + 1);
      if e.at < range.start || e.at > range.end then Recording(u, entries, false)
      else
        var p := PrintOf(id, e);
        if p in t.prints then Recording(u.(duplicates := u.duplicates + 1), entries, true)
        else if Known(entries, p, range.committed)
        then Recording(u.(prints := u.prints + {p}, duplicates := u.duplicates + 1), entries, true)
        else Recording(u.(prints := u.prints + {p}, counted := u.counted + [e]), entries[p := range.end], true)
  }

  class Window {
    const id: string
    const dedupe: Dedupe?
    const range: Range
    const limit: nat
    var scanned: nat
    var duplicates: nat
    var prints: set<Print>
    var counted: seq<Event>

    constructor (id: string, end: Time, span: nat, overlap: nat, limit: nat, cursor: Option<Time>, dedupe: Dedupe?)
      ensures this.id == id && this.dedupe == dedupe && this.limit == limit
      ensures range == RangeOf(end, span, overlap, cursor) && Reading() == FRESH
    {
      this.id, this.dedupe, this.limit := id, dedupe, limit;
      range := RangeOf(end, span, overlap, cursor);
      scanned, duplicates, prints, counted := 0, 0, {}, [];
    }

    function Reading(): (t: Tally)
      reads this
    {
      Tally(scanned, duplicates, prints, counted)
    }

    method Add(e: Event) returns (ok: bool)
      modifies this, dedupe
      ensures dedupe != null ==>
        Recording(Reading(), dedupe.entries, ok) == Record(id, limit, range, old(Reading()), old(dedupe.entries), e)
      ensures dedupe == null ==> Recording(Reading(), map[], ok) == Record(id, limit, range, old(Reading()), map[], e).(entries := map[])
    {
      if scanned >= limit {
        return false;
      }
      scanned := scanned + 1;
      if e.at < range.start || e.at > range.end {
        return false;
      }
      var p := PrintOf(id, e);
      var seen := p in prints;
      prints := prints + {p};
      var accepted := true;
      if !seen && dedupe != null {
        accepted := dedupe.Accept(p, range.end, range.committed);
      }
      if seen || !accepted {
        duplicates := duplicates + 1;
        assert seen ==> prints == old(prints);
        return true;
      }
      counted := counted + [e];
      ok := true;
    }

    /** `finish`: describes the window, names a gap, and closes the operation. */
    method Close(continuous: bool, outcome: Coverage, r: Result) returns (s: Result)
      ensures s == Finish(id, range, dedupe != null, continuous, outcome, r)
    {
      var final := outcome;
      if continuous && dedupe == null && outcome.Complete? {
        final := Failed;
      }
      var operations := r.operations;
      if range.gapSeconds > 0 {
        operations := operations + [Operation(id + SUFFIX, Missing)];
      }
      operations := operations + [Operation(id, final)];
      s := Result(r.windows + [Description(id, range.gapSeconds, final.Complete?)], operations);
    }
  }

  // ---------------------------------------------------------------- the result

  datatype Coverage = Complete | Missing | Failed

  datatype Operation = Operation(id: string, coverage: Coverage)

  /** The observation that describes a window. */
  datatype Description = Description(operation: string, gapSeconds: nat, complete: bool)

  datatype Result = Result(windows: seq<Description>, operations: seq<Operation>)

  const SUFFIX: string := "/missing-window"

  /** `finish`: a continuous job without a cache never completes. */
  function Finish(id: string, range: Range, cached: bool, continuous: bool, outcome: Coverage, r: Result): (s: Result) {
    var final := if continuous && !cached && outcome.Complete? then Failed else outcome;
    Result(r.windows + [Description(id, range.gapSeconds, final.Complete?)],
           r.operations + (if range.gapSeconds > 0 then [Operation(id + SUFFIX, Missing)] else []) + [Operation(id, final)])
  }

  /** Why a missing operation may be passed over: a complete window recorded the gap itself. */
  predicate Excused(r: Result, o: Operation) {
    o.coverage.Missing? && exists i | 0 <= i < |r.windows| ::
      o.id == r.windows[i].operation + SUFFIX && r.windows[i].gapSeconds > 0 && r.windows[i].complete
  }

  /** `log_cursor::complete`. */
  predicate Advances(r: Result) {
    && (exists i | 0 <= i < |r.windows| :: r.windows[i].complete)
    && forall i | 0 <= i < |r.operations| :: r.operations[i].coverage.Complete? || Excused(r, r.operations[i])
  }

  // ---------------------------------------------------------------- one collection

  /** A window as the collector reads it: the events returned and whether the pages were complete. */
  datatype Visit = Visit(id: string, span: nat, limit: nat, events: seq<Event>, fetched: Coverage)

  /** One collection of a job: its end, and the windows in order. */
  datatype Attempt = Attempt(end: Time, overlap: nat, visits: seq<Visit>, others: seq<Operation>)

  function RecordAll(id: string, limit: nat, range: Range, t: Tally, entries: Entries, events: seq<Event>): (r: Recording)
    decreases |events|
  {
    if events == [] then Recording(t, entries, true)
    else
      var n := |events| - 1;
      var before := RecordAll(id, limit, range, t, entries, events[..n]);
      var r := Record(id, limit, range, before.tally, before.entries, events[n]);
      r.(ok := before.ok && r.ok)
  }

  /** The outcome of a window: the fetch's own, unless a record failed. */
  function Outcome(v: Visit, r: Recording): (c: Coverage) { if v.fetched.Complete? && !r.ok then Failed else v.fetched }

  function Read(v: Visit, a: Attempt, cursor: Option<Time>, entries: Entries): (r: Recording) {
    RecordAll(v.id, v.limit, RangeOf(a.end, v.span, a.overlap, cursor), FRESH, entries, v.events)
  }

  datatype Collecting = Collecting(entries: Entries, result: Result, counted: set<Print>)

  /** The first `n` windows of a collection. */
  function Collect(a: Attempt, cursor: Option<Time>, entries: Entries, n: nat): (r: Collecting)
    requires n <= |a.visits|
  {
    if n == 0 then Collecting(entries, Result([], a.others), {})
    else
      var before := Collect(a, cursor, entries, n - 1);
      var v := a.visits[n - 1];
      var r := Read(v, a, cursor, before.entries);
      Collecting(r.entries,
                 Finish(v.id, RangeOf(a.end, v.span, a.overlap, cursor), true, true, Outcome(v, r), before.result),
                 before.counted + Prints(v.id, r.tally.counted))
  }

  function Prints(id: string, events: seq<Event>): (s: set<Print>) { set i | 0 <= i < |events| :: PrintOf(id, events[i]) }

  /** The cache and the cursor of one job. */
  datatype World = World(entries: Entries, cursor: Option<Time>)

  predicate Commits(w: World, a: Attempt) { Advances(Collect(a, w.cursor, w.entries, |a.visits|).result) }

  function After(w: World, a: Attempt): (r: World) {
    var c := Collect(a, w.cursor, w.entries, |a.visits|);
    World(c.entries, if Advances(c.result) then Some(a.end) else w.cursor)
  }

  function At(attempts: seq<Attempt>, n: nat): (w: World)
    requires n <= |attempts|
  {
    if n == 0 then World(map[], None) else After(At(attempts, n - 1), attempts[n - 1])
  }

  predicate Committed(attempts: seq<Attempt>, k: nat)
    requires k < |attempts|
  {
    Commits(At(attempts, k), attempts[k])
  }
}
