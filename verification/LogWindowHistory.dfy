/** When a log event is counted, and when it is counted never, said of the collections alone. */
module LogWindowHistory {
  import opened Order
  import Evidence
  import opened LogWindow
  import opened LogWindowProofs

  // ---------------------------------------------------------------- what a collection reads

  /** The prints of the events a window read within its range and limit, counted or not. */
  function PrintsOf(a: Attempt, cursor: Option<Time>, entries: Entries, i: nat): (s: set<Print>)
    requires i < |a.visits|
  {
    Read(a.visits[i], a, cursor, Collect(a, cursor, entries, i).entries).tally.prints
  }

  function ReadIn(attempts: seq<Attempt>, k: nat, i: nat): (s: set<Print>)
    requires k < |attempts| && i < |attempts[k].visits|
  {
    PrintsOf(attempts[k], At(attempts, k).cursor, At(attempts, k).entries, i)
  }

  predicate Reads(attempts: seq<Attempt>, k: nat, p: Print)
    requires k < |attempts|
  {
    exists i :: 0 <= i < |attempts[k].visits| && p in ReadIn(attempts, k, i)
  }

  /** A collection that ended by the cursor has read the print before. */
  predicate ReadBefore(attempts: seq<Attempt>, n: nat, p: Print)
    requires n <= |attempts|
  {
    At(attempts, n).cursor.Some?
    && exists j :: 0 <= j < n && attempts[j].end <= At(attempts, n).cursor.value && Reads(attempts, j, p)
  }

  /** Reading stays in range. */
  lemma {:induction false} PrintsInRange(id: string, limit: nat, range: Range, entries: Entries, events: seq<Event>)
    ensures forall p :: p in RecordAll(id, limit, range, FRESH, entries, events).tally.prints ==>
      p.window == id && range.start <= p.at <= range.end
    decreases |events|
  {
    hide Known;
    if events != [] {
      PrintsInRange(id, limit, range, entries, events[..|events| - 1]);
    }
  }

  /** The windows before `n` stamp what they read and was not known, and nothing else. */
  ghost predicate Stamped(a: Attempt, cursor: Option<Time>, entries: Entries, n: nat, after: Entries, p: Print)
    requires n <= |a.visits|
  {
    Find(after, p) ==
      if (exists i :: 0 <= i < n && p in PrintsOf(a, cursor, entries, i)) && !Known(entries, p, cursor) then Some(a.end)
      else Find(entries, p)
  }

  lemma {:induction false} CollectStamps(a: Attempt, cursor: Option<Time>, entries: Entries, n: nat, p: Print)
    requires n <= |a.visits| && DistinctIds(a)
    ensures Stamped(a, cursor, entries, n, Collect(a, cursor, entries, n).entries, p)
  {
    hide RangeOf, Finish, Outcome, Known, RecordAll, Prints;
    if n > 0 {
      CollectStamps(a, cursor, entries, n - 1, p);
      var v := a.visits[n - 1];
      var before := Collect(a, cursor, entries, n - 1).entries;
      RangeFacts(a.end, v.span, a.overlap, cursor);
      RecordAllTraced(v.id, v.limit, RangeOf(a.end, v.span, a.overlap, cursor), before, v.events);
      if p in PrintsOf(a, cursor, entries, n - 1) {
        OtherWindows(a, cursor, entries, n - 1, p);
        KnownFind(before, entries, p, cursor);
      }
    }
  }

  /** The windows before the one of a print do not touch it. */
  lemma {:induction false} OtherWindows(a: Attempt, cursor: Option<Time>, entries: Entries, n: nat, p: Print)
    requires n < |a.visits| && DistinctIds(a) && p.window == a.visits[n].id
    ensures Find(Collect(a, cursor, entries, n).entries, p) == Find(entries, p)
    ensures forall i :: 0 <= i < n ==> p !in PrintsOf(a, cursor, entries, i)
  {
    hide RangeOf, Known, RecordAll, Collect;
    CollectTouched(a, cursor, entries, n);
    forall i | 0 <= i < n
      ensures p !in PrintsOf(a, cursor, entries, i)
    {
      PrintsWindow(a, cursor, entries, i, p);
    }
  }

  lemma {:induction false} PrintsWindow(a: Attempt, cursor: Option<Time>, entries: Entries, i: nat, p: Print)
    requires i < |a.visits|
    ensures p in PrintsOf(a, cursor, entries, i) ==>
      p.window == a.visits[i].id && RangeOf(a.end, a.visits[i].span, a.overlap, cursor).start <= p.at <= a.end
  {
    hide RangeOf, Collect, RecordAll;
    var v := a.visits[i];
    RangeFacts(a.end, v.span, a.overlap, cursor);
    PrintsInRange(v.id, v.limit, RangeOf(a.end, v.span, a.overlap, cursor), Collect(a, cursor, entries, i).entries, v.events);
  }

  // ---------------------------------------------------------------- what is known

  /** An entry bears the end of a collection that read it, and whatever was read has one. */
  ghost predicate Recorded(attempts: seq<Attempt>, n: nat, p: Print)
    requires n <= |attempts|
  {
    && (p in At(attempts, n).entries ==> exists j :: 0 <= j < n && attempts[j].end == At(attempts, n).entries[p] && Reads(attempts, j, p))
    && (forall j :: 0 <= j < n && Reads(attempts, j, p) ==> p in At(attempts, n).entries)
  }

  lemma {:induction false} AttemptStamps(attempts: seq<Attempt>, n: nat, p: Print)
    requires n < |attempts| && Forward(attempts)
    ensures Find(At(attempts, n + 1).entries, p) ==
      if Reads(attempts, n, p) && !KnownAt(attempts, n, p) then Some(attempts[n].end) else Find(At(attempts, n).entries, p)
  {
    hide Collect, Advances, Known, PrintsOf;
    var w, a := At(attempts, n), attempts[n];
    CollectStamps(a, w.cursor, w.entries, |a.visits|, p);
    assert Reads(attempts, n, p) <==> exists i :: 0 <= i < |a.visits| && p in PrintsOf(a, w.cursor, w.entries, i) by {
      if Reads(attempts, n, p) {
        var i :| 0 <= i < |a.visits| && p in ReadIn(attempts, n, i);
        assert p in PrintsOf(a, w.cursor, w.entries, i);
      }
      if i :| 0 <= i < |a.visits| && p in PrintsOf(a, w.cursor, w.entries, i) {
        assert p in ReadIn(attempts, n, i);
      }
    }
  }

  lemma {:induction false} RunRecorded(attempts: seq<Attempt>, n: nat, p: Print)
    requires n <= |attempts| && Forward(attempts)
    ensures Recorded(attempts, n, p)
  {
    hide Collect, Advances, Reads;
    if n > 0 {
      var m := n - 1;
      RunRecorded(attempts, m, p);
      AttemptStamps(attempts, m, p);
      hide At;
      if p in At(attempts, n).entries && !(Reads(attempts, m, p) && !KnownAt(attempts, m, p)) {
        var j :| 0 <= j < m && attempts[j].end == At(attempts, m).entries[p] && Reads(attempts, j, p);
        assert attempts[j].end == At(attempts, n).entries[p];
      }
    }
  }

  /** A print is known exactly when a collection that ended by the cursor has read it. */
  lemma {:induction false} KnownIff(attempts: seq<Attempt>, n: nat, p: Print)
    requires n <= |attempts| && Forward(attempts)
    ensures KnownAt(attempts, n, p) <==> ReadBefore(attempts, n, p)
  {
    hide At, Reads, Forward;
    RunRecorded(attempts, n, p);
    if ReadBefore(attempts, n, p) {
      var j :| 0 <= j < n && attempts[j].end <= At(attempts, n).cursor.value && Reads(attempts, j, p);
      KnownOnceRead(attempts, n, p, j);
    }
  }

  lemma {:induction false} KnownOnceRead(attempts: seq<Attempt>, n: nat, p: Print, j: nat)
    requires j < n <= |attempts| && Forward(attempts) && Reads(attempts, j, p)
    requires At(attempts, n).cursor.Some? && attempts[j].end <= At(attempts, n).cursor.value
    ensures KnownAt(attempts, n, p)
    decreases n
  {
    hide At, Reads, Committed;
    var m := n - 1;
    RunRecorded(attempts, n, p);
    AfterCursor(attempts, m);
    if !Committed(attempts, m) {
      if j < m {
        KnownOnceRead(attempts, m, p, j);
        KnownStays(attempts, m, p);
      } else {
        AttemptStamps(attempts, m, p);
        CursorForward(attempts, m);
        if KnownAt(attempts, m, p) {
          KnownStays(attempts, m, p);
        }
      }
    }
  }

  /**
    A window counts a print if and only if it reads it and no collection that ended by the cursor
    had read it, committed or not.
   */
  lemma {:induction false} CountedIff(attempts: seq<Attempt>, k: nat, i: nat, p: Print)
    requires k < |attempts| && Forward(attempts) && i < |attempts[k].visits|
    ensures p in CountedIn(attempts, k, i) <==> p in ReadIn(attempts, k, i) && !ReadBefore(attempts, k, p)
  {
    hide At, RangeOf, RecordAll, Prints, Collect, Known, ReadBefore;
    var w, a := At(attempts, k), attempts[k];
    var v := a.visits[i];
    KnownIff(attempts, k, p);
    RangeFacts(a.end, v.span, a.overlap, w.cursor);
    RecordAllTraced(v.id, v.limit, RangeOf(a.end, v.span, a.overlap, w.cursor), Collect(a, w.cursor, w.entries, i).entries, v.events);
    if p in ReadIn(attempts, k, i) {
      OtherWindows(a, w.cursor, w.entries, i, p);
      KnownFind(Collect(a, w.cursor, w.entries, i).entries, w.entries, p, w.cursor);
    }
  }

  // ---------------------------------------------------------------- what is never counted

  /** Visit `i` of attempt `k` reads window `id` and returned every event of its range. */
  predicate ReturnsAll(attempts: seq<Attempt>, k: nat, i: nat, id: string, log: set<Event>)
    requires k < |attempts|
  {
    && i < |attempts[k].visits| && attempts[k].visits[i].id == id
    && Returns(log, attempts[k].visits[i], VisitRange(attempts, k, i))
  }

  /** Every committed collection reads the window and returned all its events; gaps are allowed. */
  ghost predicate Returning(attempts: seq<Attempt>, id: string, log: set<Event>) {
    && Forward(attempts) && (forall k :: 0 <= k < |attempts| ==> PlainIds(attempts[k]))
    && forall k :: 0 <= k < |attempts| && Committed(attempts, k) ==> exists i :: ReturnsAll(attempts, k, i, id, log)
  }

  ghost predicate Uncounted(attempts: seq<Attempt>, id: string, e: Event, n: nat)
    requires n <= |attempts|
  {
    forall k: nat, i: nat :: k < n ==> !CommittedWith(attempts, id, e, k, i)
  }

  /** Committed attempt `k` starts its window after the event, which lies after the cursor. */
  predicate Skips(attempts: seq<Attempt>, id: string, e: Event, k: nat, i: nat)
    requires k < |attempts|
  {
    && Committed(attempts, k) && i < |attempts[k].visits| && attempts[k].visits[i].id == id
    && At(attempts, k).cursor.Some? && At(attempts, k).cursor.value < e.at < VisitRange(attempts, k, i).start
  }

  /** Committed attempt `l` does not make up for it: it starts later too, or the event was read before. */
  predicate Misses(attempts: seq<Attempt>, id: string, e: Event, l: nat, j: nat)
    requires l < |attempts|
  {
    Committed(attempts, l) && j < |attempts[l].visits| && attempts[l].visits[j].id == id ==>
      e.at < VisitRange(attempts, l, j).start || ReadBefore(attempts, l, PrintOf(id, e))
  }

  /** The event was skipped by attempt `k` and never made up for. */
  ghost predicate SkippedFor(attempts: seq<Attempt>, id: string, e: Event, k: nat, i: nat, n: nat)
    requires k < n <= |attempts|
  {
    Skips(attempts, id, e, k, i) && forall l: nat, j: nat :: k < l < n ==> Misses(attempts, id, e, l, j)
  }

  lemma {:induction false} CursorAtLeast(attempts: seq<Attempt>, k: nat, n: nat)
    requires k < n <= |attempts| && Forward(attempts) && Committed(attempts, k)
    ensures At(attempts, n).cursor.Some? && attempts[k].end <= At(attempts, n).cursor.value
    decreases n
  {
    hide At, Committed;
    AfterCursor(attempts, n - 1);
    if k < n - 1 {
      CursorAtLeast(attempts, k, n - 1);
      CursorForward(attempts, n - 1);
    }
  }

  /** The committed attempt that moved the cursor past the event. */
  lemma {:induction false} PassedBy(attempts: seq<Attempt>, e: Event, n: nat) returns (k: nat)
    requires n <= |attempts| && At(attempts, n).cursor.Some? && e.at <= At(attempts, n).cursor.value
    ensures k < n && Committed(attempts, k) && e.at <= attempts[k].end
    ensures At(attempts, k).cursor.Some? ==> At(attempts, k).cursor.value < e.at
  {
    hide Committed;
    assert n > 0;
    AfterCursor(attempts, n - 1);
    hide At;
    var m := n - 1;
    if At(attempts, m).cursor.Some? && e.at <= At(attempts, m).cursor.value {
      k := PassedBy(attempts, e, m);
    } else {
      k := m;
    }
  }

  /** A committed window reads what it returned. */
  lemma {:induction false} CommittedReads(attempts: seq<Attempt>, k: nat, i: nat, e: Event)
    requires k < |attempts| && PlainIds(attempts[k]) && Committed(attempts, k)
    requires i < |attempts[k].visits| && e in attempts[k].visits[i].events
    ensures PrintOf(attempts[k].visits[i].id, e) in ReadIn(attempts, k, i)
  {
    hide At, Collect, RangeOf, RecordAll, Prints;
    var w, a := At(attempts, k), attempts[k];
    var v := a.visits[i];
    AdvancesPlain(a, w.cursor, w.entries);
    RecordAllTraced(v.id, v.limit, RangeOf(a.end, v.span, a.overlap, w.cursor), Collect(a, w.cursor, w.entries, i).entries, v.events);
    assert OutcomeOf(a, w.cursor, w.entries, i).Complete?;
    var j :| 0 <= j < |v.events| && v.events[j] == e;
  }

  lemma {:induction false} ReadInRange(attempts: seq<Attempt>, k: nat, i: nat, p: Print)
    requires k < |attempts| && i < |attempts[k].visits| && p in ReadIn(attempts, k, i)
    ensures p.window == attempts[k].visits[i].id && VisitRange(attempts, k, i).start <= p.at <= attempts[k].end
  {
    hide At, PrintsOf, RangeOf;
    PrintsWindow(attempts[k], At(attempts, k).cursor, At(attempts, k).entries, i, p);
  }

  /** Whatever was skipped and not made up for is counted by no committed window. */
  lemma {:induction false} SkippedUncounted(attempts: seq<Attempt>, id: string, e: Event, k: nat, i: nat, n: nat)
    requires k < n <= |attempts| && Forward(attempts) && SkippedFor(attempts, id, e, k, i, n)
    ensures Uncounted(attempts, id, e, n)
  {
    hide At, Committed, CountedIn, ReadIn, VisitRange, ReadBefore;
    var p := PrintOf(id, e);
    forall l: nat, j: nat | l < n
      ensures !CommittedWith(attempts, id, e, l, j)
    {
      if Committed(attempts, l) && j < |attempts[l].visits| && attempts[l].visits[j].id == id {
        CountedIff(attempts, l, j, p);
        if l < k {
          CursorAtLeast(attempts, l, k);
        } else if l == k {
          assert DistinctIds(attempts[k]);
        } else {
          assert Misses(attempts, id, e, l, j);
        }
        if p in ReadIn(attempts, l, j) {
          ReadInRange(attempts, l, j, p);
        }
      }
    }
  }

  /** In a window that returned all its events, an event of its range that was not read before is counted. */
  lemma {:induction false} InRangeCounted(attempts: seq<Attempt>, id: string, log: set<Event>, e: Event, k: nat, i: nat)
    requires k < |attempts| && Forward(attempts) && PlainIds(attempts[k]) && Committed(attempts, k)
    requires ReturnsAll(attempts, k, i, id, log) && e in log && VisitRange(attempts, k, i).start <= e.at <= attempts[k].end
    ensures !ReadBefore(attempts, k, PrintOf(id, e)) ==> CommittedWith(attempts, id, e, k, i)
  {
    hide At, Committed, CountedIn, ReadIn, ReadBefore, RangeOf;
    RangeFacts(attempts[k].end, attempts[k].visits[i].span, attempts[k].overlap, At(attempts, k).cursor);
    CommittedReads(attempts, k, i, e);
    CountedIff(attempts, k, i, PrintOf(id, e));
  }

  /** Nothing newer than the cursor was read by a collection that ended by it. */
  lemma {:induction false} NewIsUnread(attempts: seq<Attempt>, n: nat, p: Print)
    requires n <= |attempts| && (At(attempts, n).cursor.Some? ==> At(attempts, n).cursor.value < p.at)
    ensures !ReadBefore(attempts, n, p)
  {
    hide At, ReadIn;
    if ReadBefore(attempts, n, p) {
      var j :| 0 <= j < n && attempts[j].end <= At(attempts, n).cursor.value && Reads(attempts, j, p);
      var i :| 0 <= i < |attempts[j].visits| && p in ReadIn(attempts, j, i);
      ReadInRange(attempts, j, i, p);
    }
  }

  /**
    Where committed windows return all their events, with gaps or without, an event behind the
    cursor is counted by none of them if and only if one of them skipped it, starting after it
    when it still lay before the cursor, and none after that made up for it: each starts after it
    too, or a collection that ended by its cursor, a failed one, had read it already.
   */
  lemma {:induction false} UncountedIff(attempts: seq<Attempt>, id: string, log: set<Event>, e: Event, first: nat, n: nat)
    requires first < n <= |attempts| && Returning(attempts, id, log) && e in log
    requires Committed(attempts, first) && At(attempts, first).cursor.None?
    requires forall j :: ReturnsAll(attempts, first, j, id, log) ==> VisitRange(attempts, first, j).start <= e.at
    requires At(attempts, n).cursor.Some? ==> e.at <= At(attempts, n).cursor.value
    ensures Uncounted(attempts, id, e, n) <==> exists k: nat, i: nat :: first < k < n && SkippedFor(attempts, id, e, k, i, n)
  {
    hide At, Committed, ReturnsAll, SkippedFor, Uncounted, Forward, PlainIds;
    if Uncounted(attempts, id, e, n) {
      var k, i := Skipper(attempts, id, log, e, first, n);
    }
    if k: nat, i: nat :| first < k < n && SkippedFor(attempts, id, e, k, i, n) {
      SkippedUncounted(attempts, id, e, k, i, n);
    }
  }

  lemma {:induction false} Skipper(attempts: seq<Attempt>, id: string, log: set<Event>, e: Event, first: nat, n: nat) returns (k: nat, i: nat)
    requires first < n <= |attempts| && Returning(attempts, id, log) && e in log
    requires Committed(attempts, first) && At(attempts, first).cursor.None?
    requires forall j :: ReturnsAll(attempts, first, j, id, log) ==> VisitRange(attempts, first, j).start <= e.at
    requires At(attempts, n).cursor.Some? ==> e.at <= At(attempts, n).cursor.value
    requires Uncounted(attempts, id, e, n)
    ensures first < k < n && SkippedFor(attempts, id, e, k, i, n)
  {
    hide At, Committed, ReadBefore, VisitRange, PlainIds, CommittedWith;
    var p := PrintOf(id, e);
    CursorAtLeast(attempts, first, n);
    k := PassedBy(attempts, e, n);
    i :| ReturnsAll(attempts, k, i, id, log);
    NewIsUnread(attempts, k, p);
    if VisitRange(attempts, k, i).start <= e.at {
      InRangeCounted(attempts, id, log, e, k, i);
      assert false;
    }
    if k < first {
      CursorAtLeast(attempts, k, first);
      assert false;
    }
    if k > first {
      CursorAtLeast(attempts, first, k);
    }
    forall l: nat, j: nat | k < l < n
      ensures Misses(attempts, id, e, l, j)
    {
      if Committed(attempts, l) && j < |attempts[l].visits| && attempts[l].visits[j].id == id && VisitRange(attempts, l, j).start <= e.at {
        var m :| ReturnsAll(attempts, l, m, id, log);
        assert m == j by { assert DistinctIds(attempts[l]); }
        InRangeCounted(attempts, id, log, e, l, j);
        assert !CommittedWith(attempts, id, e, l, j);
      }
    }
  }

  // ---------------------------------------------------------------- an event a failed collection read

  const S: Time := Evidence.SECOND

  /** A collection of one window that returned at most the one event of the log. */
  function Solo(end: Time, span: nat, overlap: nat, events: seq<Event>, fetched: Coverage): (a: Attempt) {
    Attempt(end, overlap, [Visit("w", span, 100, events, fetched)], [])
  }

  lemma {:induction false} SoloMeans(end: Time, span: nat, overlap: nat, events: seq<Event>, fetched: Coverage, cursor: Option<Time>, entries: Entries)
    requires |events| <= 1
    requires forall e :: e in events ==> RangeOf(end, span, overlap, cursor).start <= e.at <= end
    ensures var a := Solo(end, span, overlap, events, fetched);
      && DistinctIds(a) && PlainIds(a)
      && PrintsOf(a, cursor, entries, 0) == (if events == [] then {} else {PrintOf("w", events[0])})
      && (Advances(Collect(a, cursor, entries, 1).result) <==> fetched.Complete?)
  {
    hide RangeOf, Known, Advances;
    var a := Solo(end, span, overlap, events, fetched);
    RangeFacts(end, span, overlap, cursor);
    assert Collect(a, cursor, entries, 0).entries == entries;
    if events != [] {
      assert events == [events[0]] && events[..0] == [];
      assert RecordAll("w", 100, RangeOf(end, span, overlap, cursor), FRESH, entries, events[..0]) == Recording(FRESH, entries, true);
    }
    assert |"w"| != |"w" + SUFFIX|;
    AdvancesPlain(a, cursor, entries);
    assert OutcomeOf(a, cursor, entries, 0) == fetched;
  }

  /** The one event, between the first collection and the second. */
  const LATE: Event := Event("s", None, "m", 2 * S)

  /** A commit, a failure that reads the event, a commit that skips it, a commit that reaches back over it. */
  function FailedRead(): (attempts: seq<Attempt>) {
    [Solo(0, 10, 0, [], Complete), Solo(5 * S, 10, 0, [LATE], Failed), Solo(20 * S, 10, 0, [], Complete), Solo(21 * S, 100, 30, [LATE], Complete)]
  }

  lemma {:induction false} FailedReadCursors()
    ensures var attempts := FailedRead();
      && Forward(attempts) && (forall k :: 0 <= k < 4 ==> PlainIds(attempts[k]))
      && At(attempts, 0).cursor == None && At(attempts, 1).cursor == Some(0) && At(attempts, 2).cursor == Some(0)
      && At(attempts, 3).cursor == Some(20 * S) && At(attempts, 4).cursor == Some(21 * S)
      && Committed(attempts, 0) && !Committed(attempts, 1) && Committed(attempts, 2) && Committed(attempts, 3)
      && Reads(attempts, 1, PrintOf("w", LATE))
  {
    hide Collect, Advances, PrintsOf;
    var attempts := FailedRead();
    SoloMeans(0, 10, 0, [], Complete, At(attempts, 0).cursor, At(attempts, 0).entries);
    AfterCursor(attempts, 0);
    SoloMeans(5 * S, 10, 0, [LATE], Failed, At(attempts, 1).cursor, At(attempts, 1).entries);
    AfterCursor(attempts, 1);
    SoloMeans(20 * S, 10, 0, [], Complete, At(attempts, 2).cursor, At(attempts, 2).entries);
    AfterCursor(attempts, 2);
    SoloMeans(21 * S, 100, 30, [LATE], Complete, At(attempts, 3).cursor, At(attempts, 3).entries);
    AfterCursor(attempts, 3);
    assert PrintOf("w", LATE) in ReadIn(attempts, 1, 0);
  }

  /**
    In that run every committed window returns all events of its range and the last one reaches
    back over the event, and still no committed window counts it: the failed collection had read
    it before the cursor passed it.
   */
  lemma {:induction false} FailedReadLoses()
    ensures var attempts := FailedRead();
      && Returning(attempts, "w", {LATE}) && Committed(attempts, 0) && At(attempts, 0).cursor.None?
      && At(attempts, 4).cursor.Some? && LATE.at <= At(attempts, 4).cursor.value
      && VisitRange(attempts, 3, 0).start <= LATE.at <= attempts[3].end && Committed(attempts, 3)
      && Uncounted(attempts, "w", LATE, 4)
  {
    hide At, Committed, Reads, CountedIn, ReadIn, PlainIds, Forward;
    var attempts := FailedRead();
    FailedReadCursors();
    forall k | 0 <= k < |attempts| && Committed(attempts, k)
      ensures exists i :: ReturnsAll(attempts, k, i, "w", {LATE})
    {
      assert ReturnsAll(attempts, k, 0, "w", {LATE});
    }
    assert Skips(attempts, "w", LATE, 2, 0);
    assert ReadBefore(attempts, 3, PrintOf("w", LATE));
    SkippedUncounted(attempts, "w", LATE, 2, 0, 4);
  }
}
