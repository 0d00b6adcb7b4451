/** A log event is counted in at most one committed window, and in exactly one when nothing is missing. */
module LogWindowProofs {
  import opened Order
  import Evidence
  import opened LogWindow

  // ---------------------------------------------------------------- one window

  function Find(entries: Entries, p: Print): (t: Option<Time>) { if p in entries then Some(entries[p]) else None }

  /** What reading a window does to the cache, and what it counts. */
  ghost predicate Traced(id: string, range: Range, entries: Entries, r: Recording) {
    && (forall p :: p !in r.tally.prints ==> Find(r.entries, p) == Find(entries, p))
    && (forall p :: p in r.tally.prints ==> p.window == id && p.at <= range.end)
    && (forall p :: p in r.tally.prints && Known(entries, p, range.committed) ==> Find(r.entries, p) == Find(entries, p))
    && (forall p :: p in r.tally.prints && !Known(entries, p, range.committed) ==>
          Find(r.entries, p) == Some(range.end) && p in Prints(id, r.tally.counted))
    && (forall p :: p in Prints(id, r.tally.counted) ==> p in r.tally.prints && !Known(entries, p, range.committed))
  }

  ghost predicate DistinctPrints(id: string, events: seq<Event>) {
    forall i, j :: 0 <= i < j < |events| ==> PrintOf(id, events[i]) != PrintOf(id, events[j])
  }

  lemma PrintsPush(id: string, events: seq<Event>, e: Event)
    ensures Prints(id, events + [e]) == Prints(id, events) + {PrintOf(id, e)}
    ensures DistinctPrints(id, events) && PrintOf(id, e) !in Prints(id, events) ==> DistinctPrints(id, events + [e])
  {
    var all := events + [e];
    assert all[|events|] == e;
    forall i | 0 <= i < |events|
      ensures all[i] == events[i] && PrintOf(id, events[i]) in Prints(id, events)
    {
    }
    forall p | p in Prints(id, events)
      ensures p in Prints(id, all)
    {
      var i :| 0 <= i < |events| && PrintOf(id, events[i]) == p;
      assert PrintOf(id, all[i]) == p;
    }
  }

  lemma RecordTraced(id: string, limit: nat, range: Range, entries: Entries, r: Recording, e: Event)
    requires Traced(id, range, entries, r) && DistinctPrints(id, r.tally.counted)
    ensures var s := Record(id, limit, range, r.tally, r.entries, e);
      && Traced(id, range, entries, s) && DistinctPrints(id, s.tally.counted)
      && r.tally.prints <= s.tally.prints && (s.ok ==> PrintOf(id, e) in s.tally.prints)
  {
    hide Prints, DistinctPrints;
    PrintsPush(id, r.tally.counted, e);
  }

  lemma {:induction false} RecordAllTraced(id: string, limit: nat, range: Range, entries: Entries, events: seq<Event>)
    ensures var r := RecordAll(id, limit, range, FRESH, entries, events);
      && Traced(id, range, entries, r) && DistinctPrints(id, r.tally.counted)
      && (r.ok ==> forall i :: 0 <= i < |events| ==> PrintOf(id, events[i]) in r.tally.prints)
    decreases |events|
  {
    hide Traced, DistinctPrints, Record;
    if events == [] {
      Untraced(id, range, entries);
    } else {
      var n := |events| - 1;
      RecordAllTraced(id, limit, range, entries, events[..n]);
      var before := RecordAll(id, limit, range, FRESH, entries, events[..n]);
      RecordTraced(id, limit, range, entries, before, events[n]);
      var r := Record(id, limit, range, before.tally, before.entries, events[n]);
      OkIrrelevant(id, range, entries, r, before.ok && r.ok);
      forall i | 0 <= i < |events| && before.ok && r.ok
        ensures PrintOf(id, events[i]) in r.tally.prints
      {
        if i < n {
          assert events[..n][i] == events[i];
        }
      }
    }
  }

  lemma OkIrrelevant(id: string, range: Range, entries: Entries, r: Recording, ok: bool)
    requires Traced(id, range, entries, r)
    ensures Traced(id, range, entries, r.(ok := ok))
  {
    hide Prints, Known;
  }

  lemma Untraced(id: string, range: Range, entries: Entries)
    ensures Traced(id, range, entries, Recording(FRESH, entries, true)) && DistinctPrints(id, [])
  {
  }

  // ---------------------------------------------------------------- one collection

  predicate DistinctIds(a: Attempt) {
    forall i, j :: 0 <= i < j < |a.visits| ==> a.visits[i].id != a.visits[j].id
  }

  /** The windows before `n` touch only prints of their own windows, and stamp them with the end. */
  ghost predicate Touched(a: Attempt, cursor: Option<Time>, entries: Entries, n: nat, c: Collecting)
    requires n <= |a.visits|
  {
    && (forall p: Print :: (forall i :: 0 <= i < n ==> p.window != a.visits[i].id) ==> Find(c.entries, p) == Find(entries, p) && p !in c.counted)
    && (forall p :: Known(entries, p, cursor) ==> Find(c.entries, p) == Find(entries, p) && p !in c.counted)
    && (forall p :: Find(c.entries, p) == Find(entries, p) || (Find(c.entries, p) == Some(a.end) && p.at <= a.end))
    && (forall p :: p in c.counted ==> Find(c.entries, p) == Some(a.end))
  }

  lemma KnownFind(a: Entries, b: Entries, p: Print, cursor: Option<Time>)
    requires Find(a, p) == Find(b, p)
    ensures Known(a, p, cursor) <==> Known(b, p, cursor)
  {
  }

  lemma {:induction false} CollectTouched(a: Attempt, cursor: Option<Time>, entries: Entries, n: nat)
    requires n <= |a.visits| && DistinctIds(a)
    ensures Touched(a, cursor, entries, n, Collect(a, cursor, entries, n))
  {
    hide RangeOf, Finish, Outcome, Known, Touched;
    if n == 0 {
      UntouchedStart(a, cursor, entries);
    } else {
      CollectTouched(a, cursor, entries, n - 1);
      TouchedPush(a, cursor, entries, n - 1);
    }
  }

  lemma UntouchedStart(a: Attempt, cursor: Option<Time>, entries: Entries)
    ensures Touched(a, cursor, entries, 0, Collect(a, cursor, entries, 0))
  {
  }

  lemma RangeFacts(end: Time, span: nat, overlap: nat, cursor: Option<Time>)
    ensures var r := RangeOf(end, span, overlap, cursor); r.end == end && r.committed == cursor
  {
  }

  lemma TouchedPush(a: Attempt, cursor: Option<Time>, entries: Entries, n: nat)
    requires n < |a.visits| && DistinctIds(a) && Touched(a, cursor, entries, n, Collect(a, cursor, entries, n))
    ensures Touched(a, cursor, entries, n + 1, Collect(a, cursor, entries, n + 1))
  {
    hide RangeOf, Finish, Outcome, Known, RecordAll, Prints;
    var v := a.visits[n];
    var before := Collect(a, cursor, entries, n);
    RangeFacts(a.end, v.span, a.overlap, cursor);
    RecordAllTraced(v.id, v.limit, RangeOf(a.end, v.span, a.overlap, cursor), before.entries, v.events);
    forall p
      ensures Find(before.entries, p) == Find(entries, p) ==> (Known(before.entries, p, cursor) <==> Known(entries, p, cursor))
    {
      if Find(before.entries, p) == Find(entries, p) {
        KnownFind(before.entries, entries, p, cursor);
      }
    }
  }

  /** What visit `i` of a collection counted. */
  function CountedBy(a: Attempt, cursor: Option<Time>, entries: Entries, i: nat): (s: set<Print>)
    requires i < |a.visits|
  {
    Prints(a.visits[i].id, Read(a.visits[i], a, cursor, Collect(a, cursor, entries, i).entries).tally.counted)
  }

  /** A print a visit counted was not known to be committed before. */
  lemma CountedUnknown(a: Attempt, cursor: Option<Time>, entries: Entries, i: nat, p: Print)
    requires i < |a.visits| && DistinctIds(a) && p in CountedBy(a, cursor, entries, i)
    ensures p.window == a.visits[i].id && !Known(entries, p, cursor)
  {
    hide RangeOf, Finish, Outcome, Known, RecordAll, Prints;
    var v := a.visits[i];
    var before := Collect(a, cursor, entries, i);
    CollectTouched(a, cursor, entries, i);
    RangeFacts(a.end, v.span, a.overlap, cursor);
    RecordAllTraced(v.id, v.limit, RangeOf(a.end, v.span, a.overlap, cursor), before.entries, v.events);
    if Known(entries, p, cursor) {
      KnownFind(before.entries, entries, p, cursor);
    }
  }

  lemma {:induction false} CountedGrows(a: Attempt, cursor: Option<Time>, entries: Entries, i: nat, n: nat)
    requires i < n <= |a.visits|
    ensures CountedBy(a, cursor, entries, i) <= Collect(a, cursor, entries, n).counted
    decreases n
  {
    hide RangeOf, Finish, Outcome, Read;
    if i < n - 1 {
      CountedGrows(a, cursor, entries, i, n - 1);
    }
  }

  // ---------------------------------------------------------------- at most once

  /** The clock of successive collections never goes back. */
  predicate Forward(attempts: seq<Attempt>) {
    && (forall i :: 0 <= i < |attempts| ==> DistinctIds(attempts[i]))
    && forall i, j :: 0 <= i < j < |attempts| ==> attempts[i].end <= attempts[j].end
  }

  lemma {:induction false} CursorIs(attempts: seq<Attempt>, n: nat)
    requires n <= |attempts| && Forward(attempts)
    ensures var c := At(attempts, n).cursor;
      c.Some? ==> exists k :: 0 <= k < n && c.value == attempts[k].end
  {
    hide Collect, Advances;
    if n > 0 {
      CursorIs(attempts, n - 1);
      var c := At(attempts, n - 1).cursor;
      if c.Some? {
        var k :| 0 <= k < n - 1 && c.value == attempts[k].end;
      }
      assert At(attempts, n).cursor == Some(attempts[n - 1].end) || At(attempts, n).cursor == c;
    }
  }

  lemma CursorForward(attempts: seq<Attempt>, n: nat)
    requires n < |attempts| && Forward(attempts)
    ensures At(attempts, n).cursor.Some? ==> At(attempts, n).cursor.value <= attempts[n].end
  {
    hide At;
    CursorIs(attempts, n);
  }

  predicate KnownAt(attempts: seq<Attempt>, n: nat, p: Print)
    requires n <= |attempts|
  {
    Known(At(attempts, n).entries, p, At(attempts, n).cursor)
  }

  /** A committed print stays known. */
  lemma KnownStays(attempts: seq<Attempt>, n: nat, p: Print)
    requires n < |attempts| && Forward(attempts) && KnownAt(attempts, n, p)
    ensures KnownAt(attempts, n + 1, p)
  {
    hide Collect, Advances;
    var w, a := At(attempts, n), attempts[n];
    CursorForward(attempts, n);
    CollectTouched(a, w.cursor, w.entries, |a.visits|);
  }

  lemma {:induction false} KnownStaysOn(attempts: seq<Attempt>, n: nat, m: nat, p: Print)
    requires n <= m <= |attempts| && Forward(attempts) && KnownAt(attempts, n, p)
    ensures KnownAt(attempts, m, p)
    decreases m
  {
    hide At, KnownAt;
    if n < m {
      KnownStaysOn(attempts, n, m - 1, p);
      KnownStays(attempts, m - 1, p);
    }
  }

  /** What visit `i` of attempt `k` counted. */
  function CountedIn(attempts: seq<Attempt>, k: nat, i: nat): (s: set<Print>)
    requires k < |attempts| && i < |attempts[k].visits|
  {
    CountedBy(attempts[k], At(attempts, k).cursor, At(attempts, k).entries, i)
  }

  /** Committing a collection makes everything it counted known. */
  lemma CommitKnows(attempts: seq<Attempt>, k: nat, i: nat, p: Print)
    requires k < |attempts| && Forward(attempts) && Committed(attempts, k)
    requires i < |attempts[k].visits| && p in CountedIn(attempts, k, i)
    ensures KnownAt(attempts, k + 1, p)
  {
    hide Collect, Advances, CountedBy;
    var w, a := At(attempts, k), attempts[k];
    CollectTouched(a, w.cursor, w.entries, |a.visits|);
    CountedGrows(a, w.cursor, w.entries, i, |a.visits|);
  }

  /**
    No event is counted in two committed windows, whatever overlaps and however many collections
    fail in between.
   */
  lemma AtMostOnce(attempts: seq<Attempt>, k: nat, i: nat, l: nat, j: nat, p: Print)
    requires k <= l < |attempts| && Forward(attempts) && Committed(attempts, k) && Committed(attempts, l)
    requires i < |attempts[k].visits| && p in CountedIn(attempts, k, i)
    requires j < |attempts[l].visits| && p in CountedIn(attempts, l, j)
    ensures k == l && i == j
  {
    hide At, Committed, CountedBy, Known;
    var w, a := At(attempts, l), attempts[l];
    CountedUnknown(a, w.cursor, w.entries, j, p);
    CountedUnknown(attempts[k], At(attempts, k).cursor, At(attempts, k).entries, i, p);
    if k < l {
      CommitKnows(attempts, k, i, p);
      KnownStaysOn(attempts, k + 1, l, p);
    }
  }

  // ---------------------------------------------------------------- when the cursor advances

  predicate PlainIds(a: Attempt) {
    && (forall i, j :: 0 <= i < |a.visits| && 0 <= j < |a.visits| ==> a.visits[i].id != a.visits[j].id + SUFFIX)
    && (forall i, j :: 0 <= i < |a.others| && 0 <= j < |a.visits| ==> a.others[i].id != a.visits[j].id + SUFFIX)
  }

  function OutcomeOf(a: Attempt, cursor: Option<Time>, entries: Entries, i: nat): (c: Coverage)
    requires i < |a.visits|
  {
    Outcome(a.visits[i], Read(a.visits[i], a, cursor, Collect(a, cursor, entries, i).entries))
  }

  /** The result of the first `n` windows: their descriptions, then their operations after the others. */
  ghost predicate Describes(a: Attempt, cursor: Option<Time>, entries: Entries, n: nat, r: Result)
    requires n <= |a.visits|
  {
    && |r.windows| == n
    && (forall i :: 0 <= i < n ==> Described(a, cursor, entries, i, r.windows[i]))
    && (forall o :: o in r.operations <==> o in a.others || exists i :: 0 <= i < n && Opens(a, cursor, entries, i, o))
  }

  ghost predicate Described(a: Attempt, cursor: Option<Time>, entries: Entries, i: nat, d: Description)
    requires i < |a.visits|
  {
    && d.operation == a.visits[i].id && d.gapSeconds == RangeOf(a.end, a.visits[i].span, a.overlap, cursor).gapSeconds
    && (d.complete <==> OutcomeOf(a, cursor, entries, i).Complete?)
  }

  ghost predicate Opens(a: Attempt, cursor: Option<Time>, entries: Entries, i: nat, o: Operation)
    requires i < |a.visits|
  {
    || o == Operation(a.visits[i].id, OutcomeOf(a, cursor, entries, i))
    || (RangeOf(a.end, a.visits[i].span, a.overlap, cursor).gapSeconds > 0 && o == Operation(a.visits[i].id + SUFFIX, Missing))
  }

  /** The result after window `n`: one more description, and its operations. */
  ghost predicate Extends(a: Attempt, cursor: Option<Time>, entries: Entries, n: nat, before: Result, after: Result)
    requires n < |a.visits|
  {
    && |after.windows| == |before.windows| + 1 && after.windows[..|before.windows|] == before.windows
    && Described(a, cursor, entries, n, after.windows[|before.windows|])
    && forall o :: o in after.operations <==> o in before.operations || Opens(a, cursor, entries, n, o)
  }

  lemma {:induction false} CollectDescribes(a: Attempt, cursor: Option<Time>, entries: Entries, n: nat)
    requires n <= |a.visits|
    ensures Describes(a, cursor, entries, n, Collect(a, cursor, entries, n).result)
  {
    hide Collect, Describes, Extends;
    if n == 0 {
      NothingDescribed(a, cursor, entries);
    } else {
      CollectDescribes(a, cursor, entries, n - 1);
      FinishDescribes(a, cursor, entries, n - 1);
      DescribesPush(a, cursor, entries, n - 1, Collect(a, cursor, entries, n - 1).result, Collect(a, cursor, entries, n).result);
    }
  }

  lemma NothingDescribed(a: Attempt, cursor: Option<Time>, entries: Entries)
    ensures Describes(a, cursor, entries, 0, Collect(a, cursor, entries, 0).result)
  {
  }

  lemma DescribesPush(a: Attempt, cursor: Option<Time>, entries: Entries, n: nat, before: Result, after: Result)
    requires n < |a.visits| && Describes(a, cursor, entries, n, before) && Extends(a, cursor, entries, n, before, after)
    ensures Describes(a, cursor, entries, n + 1, after)
  {
    hide Described, Opens;
  }

  lemma FinishDescribes(a: Attempt, cursor: Option<Time>, entries: Entries, n: nat)
    requires n < |a.visits|
    ensures Extends(a, cursor, entries, n, Collect(a, cursor, entries, n).result, Collect(a, cursor, entries, n + 1).result)
  {
    hide RangeOf, Outcome, Read;
  }

  /** A missing operation that bears the name of a complete window's recorded gap. */
  ghost predicate Excusable(a: Attempt, cursor: Option<Time>, entries: Entries, o: Operation) {
    o.coverage.Missing? && exists j :: 0 <= j < |a.visits| && NamesGap(a, cursor, entries, o.id, j)
  }

  ghost predicate NamesGap(a: Attempt, cursor: Option<Time>, entries: Entries, name: string, j: nat)
    requires j < |a.visits|
  {
    && name == a.visits[j].id + SUFFIX && OutcomeOf(a, cursor, entries, j).Complete?
    && RangeOf(a.end, a.visits[j].span, a.overlap, cursor).gapSeconds > 0
  }

  ghost predicate Passes(a: Attempt, cursor: Option<Time>, entries: Entries, o: Operation) {
    o.coverage.Complete? || Excusable(a, cursor, entries, o)
  }

  lemma PassesIff(a: Attempt, cursor: Option<Time>, entries: Entries, r: Result, o: Operation)
    requires Describes(a, cursor, entries, |a.visits|, r)
    ensures o.coverage.Complete? || Excused(r, o) <==> Passes(a, cursor, entries, o)
  {
    hide RangeOf, OutcomeOf, Opens;
    if Excused(r, o) {
      var i :| 0 <= i < |r.windows| && o.id == r.windows[i].operation + SUFFIX && r.windows[i].gapSeconds > 0 && r.windows[i].complete;
      assert Described(a, cursor, entries, i, r.windows[i]);
      assert NamesGap(a, cursor, entries, o.id, i);
    }
    if Excusable(a, cursor, entries, o) {
      var j :| 0 <= j < |a.visits| && NamesGap(a, cursor, entries, o.id, j);
      assert Described(a, cursor, entries, j, r.windows[j]);
    }
  }

  /** The operation of every window passes, and so does the gap it records. */
  ghost predicate WindowsPass(a: Attempt, cursor: Option<Time>, entries: Entries) {
    forall i :: 0 <= i < |a.visits| ==>
      && Passes(a, cursor, entries, Operation(a.visits[i].id, OutcomeOf(a, cursor, entries, i)))
      && (RangeOf(a.end, a.visits[i].span, a.overlap, cursor).gapSeconds > 0 ==>
            Passes(a, cursor, entries, Operation(a.visits[i].id + SUFFIX, Missing)))
  }

  /**
    The cursor advances exactly when some window completed with all its events recorded and each
    operation, of a window or not, is complete or is the recorded gap of a complete window.
   */
  lemma AdvancesIff(a: Attempt, cursor: Option<Time>, entries: Entries)
    ensures Advances(Collect(a, cursor, entries, |a.visits|).result) <==>
      && (exists i :: 0 <= i < |a.visits| && OutcomeOf(a, cursor, entries, i).Complete?)
      && WindowsPass(a, cursor, entries)
      && forall i :: 0 <= i < |a.others| ==> Passes(a, cursor, entries, a.others[i])
  {
    hide RangeOf, OutcomeOf, Collect, Excused, Passes;
    var r := Collect(a, cursor, entries, |a.visits|).result;
    CollectDescribes(a, cursor, entries, |a.visits|);
    forall o: Operation
      ensures o.coverage.Complete? || Excused(r, o) <==> Passes(a, cursor, entries, o)
    {
      PassesIff(a, cursor, entries, r, o);
    }
    CompleteWindow(a, cursor, entries, r);
    if Advances(r) {
      EachPasses(a, cursor, entries, r);
    }
    if WindowsPass(a, cursor, entries) && forall i :: 0 <= i < |a.others| ==> Passes(a, cursor, entries, a.others[i]) {
      forall k | 0 <= k < |r.operations|
        ensures Passes(a, cursor, entries, r.operations[k])
      {
        var o := r.operations[k];
        assert o in r.operations;
        if o !in a.others {
          var i :| 0 <= i < |a.visits| && Opens(a, cursor, entries, i, o);
        }
      }
    }
  }

  lemma CompleteWindow(a: Attempt, cursor: Option<Time>, entries: Entries, r: Result)
    requires Describes(a, cursor, entries, |a.visits|, r)
    ensures (exists i :: 0 <= i < |r.windows| && r.windows[i].complete)
       <==> exists i :: 0 <= i < |a.visits| && OutcomeOf(a, cursor, entries, i).Complete?
  {
    hide RangeOf, OutcomeOf, Opens;
    forall i | 0 <= i < |a.visits|
      ensures r.windows[i].complete <==> OutcomeOf(a, cursor, entries, i).Complete?
    {
      assert Described(a, cursor, entries, i, r.windows[i]);
    }
    if i :| 0 <= i < |a.visits| && OutcomeOf(a, cursor, entries, i).Complete? {
      assert r.windows[i].complete;
    }
  }

  lemma EachPasses(a: Attempt, cursor: Option<Time>, entries: Entries, r: Result)
    requires Describes(a, cursor, entries, |a.visits|, r)
    requires forall k :: 0 <= k < |r.operations| ==> Passes(a, cursor, entries, r.operations[k])
    ensures WindowsPass(a, cursor, entries)
    ensures forall i :: 0 <= i < |a.others| ==> Passes(a, cursor, entries, a.others[i])
  {
    hide RangeOf, OutcomeOf, Passes;
    forall i | 0 <= i < |a.visits|
      ensures Passes(a, cursor, entries, Operation(a.visits[i].id, OutcomeOf(a, cursor, entries, i)))
      ensures RangeOf(a.end, a.visits[i].span, a.overlap, cursor).gapSeconds > 0 ==>
                Passes(a, cursor, entries, Operation(a.visits[i].id + SUFFIX, Missing))
    {
      var o := Operation(a.visits[i].id, OutcomeOf(a, cursor, entries, i));
      assert Opens(a, cursor, entries, i, o);
      assert o in r.operations;
      if RangeOf(a.end, a.visits[i].span, a.overlap, cursor).gapSeconds > 0 {
        var gap := Operation(a.visits[i].id + SUFFIX, Missing);
        assert Opens(a, cursor, entries, i, gap);
        assert gap in r.operations;
      }
    }
    forall i | 0 <= i < |a.others|
      ensures Passes(a, cursor, entries, a.others[i])
    {
      assert a.others[i] in a.others;
      assert a.others[i] in r.operations;
    }
  }

  /** Where no operation bears the name of a window's gap, every window and every other operation must complete. */
  lemma AdvancesPlain(a: Attempt, cursor: Option<Time>, entries: Entries)
    requires PlainIds(a)
    ensures Advances(Collect(a, cursor, entries, |a.visits|).result) <==>
      && a.visits != []
      && (forall i :: 0 <= i < |a.visits| ==> OutcomeOf(a, cursor, entries, i).Complete?)
      && forall i :: 0 <= i < |a.others| ==> a.others[i].coverage.Complete?
  {
    hide RangeOf, OutcomeOf, Collect, Advances;
    AdvancesIff(a, cursor, entries);
    forall i | 0 <= i < |a.visits| && OutcomeOf(a, cursor, entries, i).Complete?
      ensures RangeOf(a.end, a.visits[i].span, a.overlap, cursor).gapSeconds > 0 ==>
                Passes(a, cursor, entries, Operation(a.visits[i].id + SUFFIX, Missing))
    {
      if RangeOf(a.end, a.visits[i].span, a.overlap, cursor).gapSeconds > 0 {
        assert NamesGap(a, cursor, entries, a.visits[i].id + SUFFIX, i);
      }
    }
    if a.visits != [] && forall i :: 0 <= i < |a.visits| ==> OutcomeOf(a, cursor, entries, i).Complete? {
      assert OutcomeOf(a, cursor, entries, 0).Complete?;
    }
  }

  // ---------------------------------------------------------------- exactly once

  /** A window returned every event of the log in its range. */
  predicate Returns(log: set<Event>, v: Visit, range: Range) {
    forall e :: e in log && range.start <= e.at <= range.end ==> e in v.events
  }

  function VisitRange(attempts: seq<Attempt>, k: nat, i: nat): (r: Range)
    requires k < |attempts| && i < |attempts[k].visits|
  {
    RangeOf(attempts[k].end, attempts[k].visits[i].span, attempts[k].overlap, At(attempts, k).cursor)
  }

  /** Visit `i` of attempt `k` reads window `id`, returned every event, and left no gap before it. */
  predicate Covers(attempts: seq<Attempt>, k: nat, i: nat, id: string, log: set<Event>)
    requires k < |attempts|
  {
    && i < |attempts[k].visits| && attempts[k].visits[i].id == id
    && Returns(log, attempts[k].visits[i], VisitRange(attempts, k, i))
    && (At(attempts, k).cursor.Some? ==> VisitRange(attempts, k, i).start <= At(attempts, k).cursor.value)
  }

  /** Every committed collection covers the window. */
  ghost predicate Sound(attempts: seq<Attempt>, id: string, log: set<Event>) {
    && Forward(attempts) && (forall k :: 0 <= k < |attempts| ==> PlainIds(attempts[k]))
    && forall k :: 0 <= k < |attempts| && Committed(attempts, k) ==> exists i :: Covers(attempts, k, i, id, log)
  }

  /** An entry is never older than its event. */
  ghost predicate Dated(entries: Entries) { forall p :: p in entries ==> p.at <= entries[p] }

  lemma CollectDated(a: Attempt, cursor: Option<Time>, entries: Entries, n: nat)
    requires n <= |a.visits| && DistinctIds(a) && Dated(entries)
    ensures Dated(Collect(a, cursor, entries, n).entries)
  {
    hide Collect;
    CollectTouched(a, cursor, entries, n);
    var after := Collect(a, cursor, entries, n).entries;
    forall p | p in after
      ensures p.at <= after[p]
    {
      assert Find(after, p) == Find(entries, p) || (Find(after, p) == Some(a.end) && p.at <= a.end);
    }
  }

  lemma {:induction false} RunDated(attempts: seq<Attempt>, n: nat)
    requires n <= |attempts| && Forward(attempts)
    ensures Dated(At(attempts, n).entries)
  {
    hide Collect, Advances, Dated;
    if n == 0 {
      NothingDated();
    } else {
      RunDated(attempts, n - 1);
      CollectDated(attempts[n - 1], At(attempts, n - 1).cursor, At(attempts, n - 1).entries, |attempts[n - 1].visits|);
    }
  }

  lemma NothingDated()
    ensures Dated(map[])
  {
  }

  /** A committed window counts every event it returned that is newer than the cursor. */
  lemma CommittedCounts(attempts: seq<Attempt>, k: nat, i: nat, e: Event)
    requires k < |attempts| && Forward(attempts) && PlainIds(attempts[k]) && Committed(attempts, k)
    requires i < |attempts[k].visits| && e in attempts[k].visits[i].events
    requires At(attempts, k).cursor.Some? ==> e.at > At(attempts, k).cursor.value
    ensures PrintOf(attempts[k].visits[i].id, e) in CountedIn(attempts, k, i)
  {
    hide At, Collect, RangeOf, RecordAll, Prints;
    var w, a := At(attempts, k), attempts[k];
    var v := a.visits[i];
    AdvancesPlain(a, w.cursor, w.entries);
    var before := Collect(a, w.cursor, w.entries, i).entries;
    RunDated(attempts, k);
    CollectDated(a, w.cursor, w.entries, i);
    RangeFacts(a.end, v.span, a.overlap, w.cursor);
    RecordAllTraced(v.id, v.limit, RangeOf(a.end, v.span, a.overlap, w.cursor), before, v.events);
    assert OutcomeOf(a, w.cursor, w.entries, i).Complete?;
    var j :| 0 <= j < |v.events| && v.events[j] == e;
    var p := PrintOf(v.id, e);
    assert p in Read(v, a, w.cursor, before).tally.prints;
    assert !Known(before, p, w.cursor);
  }

  lemma {:induction false} CursorStays(attempts: seq<Attempt>, k: nat, n: nat)
    requires k < n <= |attempts| && Committed(attempts, k)
    ensures At(attempts, n).cursor.Some?
    decreases n
  {
    hide Collect, Advances;
    if k < n - 1 {
      CursorStays(attempts, k, n - 1);
    }
  }

  /** Attempt `k` counted the event in its window `id`, and was committed. */
  ghost predicate CommittedWith(attempts: seq<Attempt>, id: string, e: Event, k: nat, i: nat)
    requires k < |attempts|
  {
    && Committed(attempts, k) && i < |attempts[k].visits| && attempts[k].visits[i].id == id
    && PrintOf(id, e) in CountedIn(attempts, k, i)
  }

  /**
    From the first committed window on, every event the log holds up to the cursor has been
    counted in a committed window, when complete windows return all their events and no gap is
    left between a window and the cursor before it.
   */
  lemma {:induction false} AtLeastOnce(attempts: seq<Attempt>, id: string, log: set<Event>, e: Event, first: nat, n: nat)
      returns (k: nat, i: nat)
    requires first < n <= |attempts| && Sound(attempts, id, log) && e in log
    requires Committed(attempts, first) && At(attempts, first).cursor.None?
    requires forall j :: Covers(attempts, first, j, id, log) ==> VisitRange(attempts, first, j).start <= e.at
    requires At(attempts, n).cursor.Some? ==> e.at <= At(attempts, n).cursor.value
    ensures k < n && CommittedWith(attempts, id, e, k, i)
    decreases n
  {
    hide At, Committed, CountedIn, PlainIds, Forward, RangeOf;
    CursorStays(attempts, first, n);
    var m := n - 1;
    AfterCursor(attempts, m);
    if m > first && !Committed(attempts, m) {
      k, i := AtLeastOnce(attempts, id, log, e, first, m);
    } else {
      assert Committed(attempts, m);
      i :| Covers(attempts, m, i, id, log);
      if m > first && At(attempts, m).cursor.Some? && e.at <= At(attempts, m).cursor.value {
        k, i := AtLeastOnce(attempts, id, log, e, first, m);
      } else {
        k := m;
        if m > first {
          CursorStays(attempts, first, m);
        }
        RangeFacts(attempts[m].end, attempts[m].visits[i].span, attempts[m].overlap, At(attempts, m).cursor);
        CommittedCounts(attempts, m, i, e);
      }
    }
  }

  lemma AfterCursor(attempts: seq<Attempt>, m: nat)
    requires m < |attempts|
    ensures At(attempts, m + 1).cursor == if Committed(attempts, m) then Some(attempts[m].end) else At(attempts, m).cursor
  {
    hide Collect, Advances;
  }

  ghost predicate OnlyIn(attempts: seq<Attempt>, id: string, e: Event, k: nat, i: nat)
    requires k < |attempts|
  {
    && CommittedWith(attempts, id, e, k, i)
    && forall l: nat, j: nat :: l < |attempts| && CommittedWith(attempts, id, e, l, j) ==> l == k && j == i
  }

  /** Exactly one committed window counts the event. */
  lemma ExactlyOnce(attempts: seq<Attempt>, id: string, log: set<Event>, e: Event, first: nat, n: nat)
    requires first < n <= |attempts| && Sound(attempts, id, log) && e in log
    requires Committed(attempts, first) && At(attempts, first).cursor.None?
    requires forall j :: Covers(attempts, first, j, id, log) ==> VisitRange(attempts, first, j).start <= e.at
    requires At(attempts, n).cursor.Some? ==> e.at <= At(attempts, n).cursor.value
    ensures exists k: nat, i: nat :: k < n && OnlyIn(attempts, id, e, k, i)
  {
    hide At, Committed, CountedIn, RangeOf;
    var k, i := AtLeastOnce(attempts, id, log, e, first, n);
    forall l: nat, j: nat | l < |attempts| && CommittedWith(attempts, id, e, l, j)
      ensures l == k && j == i
    {
      if k <= l {
        AtMostOnce(attempts, k, i, l, j, PrintOf(id, e));
      } else {
        AtMostOnce(attempts, l, j, k, i, PrintOf(id, e));
      }
    }
    assert OnlyIn(attempts, id, e, k, i);
  }

  // ---------------------------------------------------------------- gaps

  /**
    A window starts no later than the cursor exactly when its configured span reaches back to it;
    the recorded gap is zero exactly when less than one second is missing.
   */
  lemma GapMeaning(end: Time, span: nat, overlap: nat, cursor: Time)
    ensures var r := RangeOf(end, span, overlap, Some(cursor)); var missing := end - span * Evidence.SECOND - cursor;
      && (r.start <= cursor <==> missing <= 0)
      && (r.gapSeconds == 0 <==> missing < Evidence.SECOND)
  {
  }

  lemma WholeSeconds(end: Time, span: nat, overlap: nat, cursor: Time)
    requires (end - cursor) % Evidence.SECOND == 0
    ensures var r := RangeOf(end, span, overlap, Some(cursor)); r.gapSeconds == 0 <==> r.start <= cursor
  {
    var d := end - cursor;
    assert (d - span * Evidence.SECOND) % Evidence.SECOND == 0;
    GapMeaning(end, span, overlap, cursor);
  }

  /** Visit `i` of attempt `k` reads window `id`, returned every event, and recorded no gap. */
  predicate Gapless(attempts: seq<Attempt>, k: nat, i: nat, id: string, log: set<Event>)
    requires k < |attempts|
  {
    && i < |attempts[k].visits| && attempts[k].visits[i].id == id
    && Returns(log, attempts[k].visits[i], VisitRange(attempts, k, i))
    && VisitRange(attempts, k, i).gapSeconds == 0
  }

  /** Collections that end a whole number of seconds apart. */
  predicate Ticking(attempts: seq<Attempt>) {
    forall i, j :: 0 <= i < |attempts| && 0 <= j < |attempts| ==> (attempts[i].end - attempts[j].end) % Evidence.SECOND == 0
  }

  lemma GaplessCovers(attempts: seq<Attempt>, k: nat, i: nat, id: string, log: set<Event>)
    requires k < |attempts| && Forward(attempts) && Ticking(attempts)
    ensures Gapless(attempts, k, i, id, log) <==> Covers(attempts, k, i, id, log) && VisitRange(attempts, k, i).gapSeconds == 0
    ensures Covers(attempts, k, i, id, log) ==> VisitRange(attempts, k, i).gapSeconds == 0
  {
    hide At;
    CursorIs(attempts, k);
    var cursor := At(attempts, k).cursor;
    if cursor.Some? && i < |attempts[k].visits| {
      WholeSeconds(attempts[k].end, attempts[k].visits[i].span, attempts[k].overlap, cursor.value);
    }
  }

  /**
    Between collections a whole number of seconds apart the recorded gap tells the truth: where
    every committed window returned all its events and recorded none, each event is counted in
    exactly one.
   */
  lemma RecordedGapsSuffice(attempts: seq<Attempt>, id: string, log: set<Event>, e: Event, first: nat, n: nat)
    requires first < n <= |attempts| && Forward(attempts) && Ticking(attempts) && e in log
    requires forall k :: 0 <= k < |attempts| ==> PlainIds(attempts[k])
    requires forall k :: 0 <= k < |attempts| && Committed(attempts, k) ==> exists i :: Gapless(attempts, k, i, id, log)
    requires Committed(attempts, first) && At(attempts, first).cursor.None?
    requires forall j :: Gapless(attempts, first, j, id, log) ==> VisitRange(attempts, first, j).start <= e.at
    requires At(attempts, n).cursor.Some? ==> e.at <= At(attempts, n).cursor.value
    ensures exists k: nat, i: nat :: k < n && OnlyIn(attempts, id, e, k, i)
  {
    hide At, Committed, CountedIn, RangeOf, Forward, PlainIds, Ticking;
    forall k | 0 <= k < |attempts| && Committed(attempts, k)
      ensures exists i :: Covers(attempts, k, i, id, log)
    {
      var i :| Gapless(attempts, k, i, id, log);
      GaplessCovers(attempts, k, i, id, log);
      assert Covers(attempts, k, i, id, log);
    }
    forall j | Covers(attempts, first, j, id, log)
      ensures VisitRange(attempts, first, j).start <= e.at
    {
      GaplessCovers(attempts, first, j, id, log);
      assert Gapless(attempts, first, j, id, log);
    }
    ExactlyOnce(attempts, id, log, e, first, n);
  }

  // ---------------------------------------------------------------- part of a second

  const QUARTER: Time := Evidence.SECOND / 4

  /** A window that returned every event of its range, of which there were none. */
  function Quiet(end: Time): (a: Attempt) { Attempt(end, 0, [Visit("w", 10, 100, [], Complete)], []) }

  /** The second collection ends half a second late. */
  function LateRun(): (attempts: seq<Attempt>) { [Quiet(0), Quiet(10 * Evidence.SECOND + 2 * QUARTER)] }

  lemma QuietCommits(end: Time, cursor: Option<Time>, entries: Entries)
    requires RangeOf(end, 10, 0, cursor).gapSeconds == 0
    ensures var c := Collect(Quiet(end), cursor, entries, 1);
      c.entries == entries && c.counted == {} && Advances(c.result)
    ensures PlainIds(Quiet(end)) && CountedBy(Quiet(end), cursor, entries, 0) == {}
  {
    hide RangeOf;
    var a := Quiet(end);
    var before := Collect(a, cursor, entries, 0);
    var r := Read(a.visits[0], a, cursor, entries);
    assert r == Recording(FRESH, entries, true);
    assert Collect(a, cursor, entries, 1).result == Finish("w", RangeOf(end, 10, 0, cursor), true, true, Complete, Result([], []));
    assert Collect(a, cursor, entries, 1).result.windows == [Description("w", 0, true)];
    assert Collect(a, cursor, entries, 1).result.operations == [Operation("w", Complete)];
    assert Collect(a, cursor, entries, 1).result.windows[0].complete;
    assert |"w"| != |"w" + SUFFIX|;
  }

  /**
    Part of a second is different: in a run of two committed collections, with every event in
    range returned and every recorded gap zero, an event before the cursor is counted by none.
   */
  lemma SubSecondGapLoses() returns (log: set<Event>, e: Event)
    ensures var attempts := LateRun();
      && Forward(attempts) && (forall k :: 0 <= k < 2 ==> PlainIds(attempts[k]) && Committed(attempts, k) && Gapless(attempts, k, 0, "w", log))
      && e in log && VisitRange(attempts, 0, 0).start <= e.at
      && At(attempts, 2).cursor.Some? && e.at <= At(attempts, 2).cursor.value
      && forall k: nat, i: nat :: k < 2 ==> !CommittedWith(attempts, "w", e, k, i)
  {
    hide Collect, Advances;
    e := Event("s", None, "m", QUARTER);
    log := {e};
    var attempts := LateRun();
    QuietCommits(0, None, map[]);
    assert At(attempts, 1) == World(map[], Some(0)) by { assert At(attempts, 0) == World(map[], None); }
    QuietCommits(attempts[1].end, Some(0), map[]);
    assert At(attempts, 2) == World(map[], Some(attempts[1].end));
  }
}
