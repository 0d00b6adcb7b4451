/** What readers of the billing tables see changes only when an import is published. */
module CostWriteProofs {
  import opened Order
  import opened Fallible
  import opened CostWrite

  // ---------------------------------------------------------------- the invariant

  predicate Held(db: Db, p: (string, Day), id: Id) {
    && id in db.imports && db.imports[id].published && db.imports[id].source == p.0
    && db.imports[id].from <= p.1 < db.imports[id].to
  }

  predicate RowValid(db: Db, row: DailyRow) {
    row.importId in db.imports && db.imports[row.importId].from <= row.day < db.imports[row.importId].to
  }

  ghost predicate Valid(db: Db) {
    && OnePending(db)
    && (forall p :: p in db.partitions ==> Held(db, p, db.partitions[p]))
    && (forall k :: k in db.daily ==> k < db.next && RowValid(db, db.daily[k]))
    && (forall id :: id in db.imports ==> id < db.next && db.imports[id].source in db.sources)
    && (forall n :: n in db.sources && db.sources[n].revision.Some? ==> db.sources[n].revision.value in db.imports)
  }

  /** The rows of the reader's join. */
  function Visible(db: Db): (r: map<Id, DailyRow>) {
    map k | k in db.daily && Shown(db, db.daily[k]) :: db.daily[k]
  }

  /** The handle of an import begun and not published. */
  predicate Open(db: Db, h: Import) {
    h.id in db.imports && db.imports[h.id] == ImportRow(h.source, h.from, h.to, false, db.imports[h.id].reserved)
  }

  /** The pairs the readers' join produces: a row with a partition that serves it. */
  function Joined(db: Db): (r: set<(Id, (string, Day))>) {
    set k, p | k in db.daily && p in db.partitions && ServedBy(db, p, db.daily[k]) :: (k, p)
  }

  lemma ServedOnce(db: Db, k: Id, p: (string, Day), q: (string, Day))
    requires Valid(db) && k in db.daily && ServedBy(db, p, db.daily[k]) && ServedBy(db, q, db.daily[k])
    ensures p == q
  {
    assert Held(db, p, db.partitions[p]) && Held(db, q, db.partitions[q]);
  }

  lemma {:induction false} SameCount(pairs: set<(Id, (string, Day))>, keys: set<Id>)
    requires forall k :: k in keys <==> exists p :: (k, p) in pairs
    requires forall k, p, q :: (k, p) in pairs && (k, q) in pairs ==> p == q
    ensures |pairs| == |keys|
    decreases |keys|
  {
    if keys == {} {
      forall x | x in pairs
        ensures x.0 in keys
      {
        assert (x.0, x.1) in pairs;
      }
      assert pairs == {};
    } else {
      var k :| k in keys;
      var p :| (k, p) in pairs;
      forall j | j in keys - {k}
        ensures exists q :: (j, q) in pairs - {(k, p)}
      {
        var q :| (j, q) in pairs;
        assert (j, q) in pairs - {(k, p)};
      }
      SameCount(pairs - {(k, p)}, keys - {k});
    }
  }

  /** The join never doubles a row: it has as many pairs as there are visible rows. */
  lemma ShownOnce(db: Db)
    requires Valid(db)
    ensures |Joined(db)| == |Visible(db)|
    ensures forall k :: k in Visible(db) <==> exists p :: (k, p) in Joined(db)
  {
    forall k
      ensures k in Visible(db) <==> exists p :: (k, p) in Joined(db)
    {
      if k in Visible(db) {
        var p :| p in db.partitions && ServedBy(db, p, db.daily[k]);
        assert (k, p) in Joined(db);
      }
    }
    forall k, p, q | (k, p) in Joined(db) && (k, q) in Joined(db)
      ensures p == q
    {
      ServedOnce(db, k, p, q);
    }
    SameCount(Joined(db), Visible(db).Keys);
    assert |Visible(db)| == |Visible(db).Keys|;
  }

  lemma SameVisible(a: Db, b: Db)
    requires forall k :: (k in a.daily && Shown(a, a.daily[k])) <==> (k in b.daily && Shown(b, b.daily[k]))
    requires forall k :: k in a.daily && k in b.daily ==> a.daily[k] == b.daily[k]
    ensures Visible(a) == Visible(b)
  {
    hide Shown;
  }

  // ---------------------------------------------------------------- begin

  lemma OpenUnshown(db: Db, row: DailyRow)
    requires Valid(db) && row.importId in db.imports && !db.imports[row.importId].published
    ensures !Shown(db, row)
  {
  }

  lemma SourcedGrows(db: Db, name: string, provider: Provider, scope: string)
    ensures var r := Sourced(db, name, provider, scope);
      r.Ok? ==> name in r.value && forall n :: n in db.sources ==> n in r.value && r.value[n] == db.sources[n]
    ensures var r := Sourced(db, name, provider, scope);
      r.Ok? ==> forall n :: n in r.value && n !in db.sources ==> r.value[n].revision.None?
  {
    hide ScopeTaken;
  }

  /** Begin, fresh or resuming, keeps the tables valid and what readers see. */
  lemma BeginKeeps(db: Db, name: string, provider: Provider, scope: string, from: Day, to: Day, reservation: nat, granted: bool)
    requires Valid(db)
    ensures var r := Begun(db, name, provider, scope, from, to, reservation, granted);
      r.Ok? ==> Valid(r.value.0) && Visible(r.value.0) == Visible(db) && Open(r.value.0, r.value.1)
                && RowsOf(r.value.0.daily, r.value.1.id) == {} && r.value.0.partitions == db.partitions
  {
    hide Shown, Sourced, PeriodValid;
    var r := Begun(db, name, provider, scope, from, to, reservation, granted);
    if r.Ok? {
      SourcedGrows(db, name, provider, scope);
      var after := r.value.0;
      if HasPending(db, name) {
        ResumeKeeps(db, after, name, Pending(db, name));
      } else {
        FreshKeeps(db, after, name);
      }
    }
  }

  /** `after` resumes import `id`: its rows are gone, its reservation may have grown. */
  ghost predicate Resumed(db: Db, after: Db, name: string, id: Id) {
    && IsPending(db, name, id)
    && (exists reserved: nat :: after.imports == db.imports[id := db.imports[id].(reserved := reserved)])
    && after.partitions == db.partitions && after.next == db.next && after.daily == WithoutRows(db.daily, id)
    && (forall n :: n in db.sources ==> n in after.sources && after.sources[n] == db.sources[n])
    && (forall n :: n in after.sources && n !in db.sources ==> after.sources[n].revision.None?)
  }

  lemma ResumeKeeps(db: Db, after: Db, name: string, id: Id)
    requires Valid(db) && Resumed(db, after, name, id)
    ensures Valid(after) && Visible(after) == Visible(db) && RowsOf(after.daily, id) == {}
  {
    ResumeVisible(db, after, name, id);
    forall a, b, n | IsPending(after, n, a) && IsPending(after, n, b)
      ensures a == b
    {
      assert IsPending(db, n, a) && IsPending(db, n, b);
    }
    forall p | p in after.partitions
      ensures Held(after, p, after.partitions[p])
    {
      assert Held(db, p, db.partitions[p]);
    }
  }

  lemma ResumeVisible(db: Db, after: Db, name: string, id: Id)
    requires Valid(db) && Resumed(db, after, name, id)
    ensures Visible(after) == Visible(db)
  {
    hide Shown;
    forall k | k in db.daily && db.daily[k].importId == id
      ensures !Shown(db, db.daily[k])
    {
      OpenUnshown(db, db.daily[k]);
    }
    SamePartitions(db, after);
    SameVisible(db, after);
  }

  lemma SamePartitions(a: Db, b: Db)
    requires a.partitions == b.partitions
    ensures forall row :: Shown(a, row) <==> Shown(b, row)
  {
    forall row
      ensures Shown(a, row) <==> Shown(b, row)
    {
      assert forall p :: ServedBy(a, p, row) <==> ServedBy(b, p, row);
    }
  }

  lemma FreshKeeps(db: Db, after: Db, name: string)
    requires Valid(db) && !HasPending(db, name)
    requires db.next !in db.imports && db.next in after.imports && after.imports - {db.next} == db.imports
    requires after.imports[db.next].source == name && name in after.sources
    requires after.partitions == db.partitions && after.next == db.next + 1 && after.daily == db.daily
    requires forall n :: n in db.sources ==> n in after.sources && after.sources[n] == db.sources[n]
    requires forall n :: n in after.sources && n !in db.sources ==> after.sources[n].revision.None?
    ensures Valid(after) && Visible(after) == Visible(db) && RowsOf(after.daily, db.next) == {}
  {
    hide Shown;
    forall id | id in db.imports
      ensures id in after.imports && after.imports[id] == db.imports[id]
    {
      assert id in after.imports - {db.next};
    }
    forall id | id in after.imports && id != db.next
      ensures id in db.imports
    {
      assert id in after.imports - {db.next};
    }
    forall a, b, n | IsPending(after, n, a) && IsPending(after, n, b)
      ensures a == b
    {
      assert a != db.next ==> IsPending(db, n, a);
      assert b != db.next ==> IsPending(db, n, b);
    }
    forall p | p in after.partitions
      ensures Held(after, p, after.partitions[p])
    {
      assert Held(db, p, db.partitions[p]);
    }
    forall k | k in after.daily
      ensures RowValid(after, after.daily[k])
    {
      assert RowValid(db, db.daily[k]);
    }
    SamePartitions(db, after);
    SameVisible(db, after);
  }

  // ---------------------------------------------------------------- stage

  lemma {:induction false} AddRowsFacts(daily: map<Id, DailyRow>, next: Id, id: Id, charges: seq<Charge>)
    requires forall k :: k in daily ==> k < next
    ensures var r := AddRows(daily, next, id, charges);
      && (forall k :: k in r <==> k in daily || next <= k < next + |charges|)
      && (forall k :: k in daily ==> r[k] == daily[k])
      && (forall i :: 0 <= i < |charges| ==> r[next + i] == DailyRow(id, charges[i].key, charges[i].day, charges[i].amount))
    decreases |charges|
  {
    if charges != [] {
      var first := DailyRow(id, charges[0].key, charges[0].day, charges[0].amount);
      var more := daily[next := first];
      AddRowsFacts(more, next + 1, id, charges[1..]);
      var r := AddRows(more, next + 1, id, charges[1..]);
      assert more[next] == first && r[next] == first;
      forall i | 0 <= i < |charges|
        ensures r[next + i] == DailyRow(id, charges[i].key, charges[i].day, charges[i].amount)
      {
        if i > 0 {
          assert r[next + 1 + (i - 1)] == DailyRow(id, charges[1..][i - 1].key, charges[1..][i - 1].day, charges[1..][i - 1].amount);
        }
      }
    }
  }

  lemma StageKeepsValid(db: Db, h: Import, charges: seq<Charge>)
    requires Valid(db) && Open(db, h) && Staged(db, h, charges).Ok?
    ensures Valid(Staged(db, h, charges).value)
  {
    hide Repeats;
    var after := Staged(db, h, charges).value;
    if charges != [] {
      AddRowsFacts(db.daily, db.next, h.id, charges);
      forall k | k in after.daily
        ensures RowValid(after, after.daily[k])
      {
        if k in db.daily {
          assert RowValid(db, db.daily[k]);
        } else {
          var i := k - db.next;
          assert after.daily[db.next + i].day == charges[i].day && InPeriod(h, charges[i]);
        }
      }
      forall p | p in after.partitions
        ensures Held(after, p, after.partitions[p])
      {
        assert Held(db, p, db.partitions[p]);
      }
      forall a, b, n | IsPending(after, n, a) && IsPending(after, n, b)
        ensures a == b
      {
        assert IsPending(db, n, a) && IsPending(db, n, b);
      }
    }
  }

  /** Some accepted row falls on a day the import already serves. */
  predicate Touches(db: Db, h: Import, charges: seq<Charge>) {
    exists i | 0 <= i < |charges| :: Shown(db, DailyRow(h.id, charges[i].key, charges[i].day, charges[i].amount))
  }

  /**
    Staged rows show, whatever the import's state, exactly when one of their days is already
    served by the import: staging is invisible if and only if none is.
   */
  lemma StageVisible(db: Db, h: Import, charges: seq<Charge>)
    requires Valid(db) && Staged(db, h, charges).Ok?
    ensures Visible(Staged(db, h, charges).value) == Visible(db) <==> !Touches(db, h, charges)
  {
    hide Repeats, Shown, Acceptable;
    var after := Staged(db, h, charges).value;
    if charges != [] {
      SamePartitions(db, after);
      if Touches(db, h, charges) {
        StageShows(db, after, h, charges);
      } else {
        StageHides(db, after, h, charges);
      }
    }
  }

  lemma StageShows(db: Db, after: Db, h: Import, charges: seq<Charge>)
    requires Valid(db) && after.daily == AddRows(db.daily, db.next, h.id, charges) && after.partitions == db.partitions
    requires Touches(db, h, charges)
    ensures Visible(after) != Visible(db)
  {
    hide Shown;
    AddRowsFacts(db.daily, db.next, h.id, charges);
    SamePartitions(db, after);
    var i :| 0 <= i < |charges| && Shown(db, DailyRow(h.id, charges[i].key, charges[i].day, charges[i].amount));
    assert after.daily[db.next + i] == DailyRow(h.id, charges[i].key, charges[i].day, charges[i].amount);
    assert db.next + i in Visible(after) && db.next + i !in Visible(db);
  }

  lemma StageHides(db: Db, after: Db, h: Import, charges: seq<Charge>)
    requires Valid(db) && after.daily == AddRows(db.daily, db.next, h.id, charges) && after.partitions == db.partitions
    requires !Touches(db, h, charges)
    ensures Visible(after) == Visible(db)
  {
    hide Shown, Visible;
    AddRowsFacts(db.daily, db.next, h.id, charges);
    SamePartitions(db, after);
    forall k | k in after.daily && k !in db.daily
      ensures !Shown(after, after.daily[k])
    {
      var i := k - db.next;
      assert after.daily[db.next + i] == DailyRow(h.id, charges[i].key, charges[i].day, charges[i].amount);
    }
    SameVisible(db, after);
  }

  /** An open import serves nothing yet, so staging into it is never visible. */
  lemma StageKeepsVisible(db: Db, h: Import, charges: seq<Charge>)
    requires Valid(db) && Open(db, h) && Staged(db, h, charges).Ok?
    ensures Visible(Staged(db, h, charges).value) == Visible(db)
  {
    hide Shown, Staged;
    forall i | 0 <= i < |charges|
      ensures !Shown(db, DailyRow(h.id, charges[i].key, charges[i].day, charges[i].amount))
    {
      OpenUnshown(db, DailyRow(h.id, charges[i].key, charges[i].day, charges[i].amount));
    }
    StageVisible(db, h, charges);
  }

  // ---------------------------------------------------------------- publish

  lemma PublishKeepsValid(db: Db, h: Import, expected: nat, cutoff: Day)
    requires Valid(db) && Open(db, h) && Published(db, h, expected, cutoff).Ok?
    ensures Valid(Published(db, h, expected, cutoff).value)
  {
    var after := Published(db, h, expected, cutoff).value;
    forall p | p in after.partitions
      ensures Held(after, p, after.partitions[p])
    {
      if p !in Days(h) {
        assert Held(db, p, db.partitions[p]);
      }
    }
    forall k | k in after.daily
      ensures RowValid(after, after.daily[k])
    {
      assert RowValid(db, db.daily[k]);
    }
    forall a, b, n | IsPending(after, n, a) && IsPending(after, n, b)
      ensures a == b
    {
      assert IsPending(db, n, a) && IsPending(db, n, b);
    }
  }

  /**
    Publishing shows exactly the counted rows of the import on its days and hides what it
    replaces there; elsewhere readers see what they saw, from the cutoff on.
   */
  lemma PublishShows(db: Db, h: Import, expected: nat, cutoff: Day, k: Id)
    requires Valid(db) && Open(db, h) && Published(db, h, expected, cutoff).Ok? && k in db.daily
    ensures |RowsOf(db.daily, h.id)| == expected
    ensures var row := db.daily[k]; var source := db.imports[row.importId].source;
      k in Visible(Published(db, h, expected, cutoff).value) <==>
        row.day >= cutoff && if (source, row.day) in Days(h) then row.importId == h.id else k in Visible(db)
  {
    var after := Published(db, h, expected, cutoff).value;
    var row := db.daily[k];
    var p := (db.imports[row.importId].source, row.day);
    assert RowValid(db, row);
    assert forall q :: ServedBy(db, q, row) ==> q == p by {
      forall q | ServedBy(db, q, row)
        ensures q == p
      {
        assert Held(db, q, db.partitions[q]);
      }
    }
    assert forall q :: ServedBy(after, q, row) ==> q == p by {
      PublishKeepsValid(db, h, expected, cutoff);
      forall q | ServedBy(after, q, row)
        ensures q == p
      {
        assert Held(after, q, after.partitions[q]);
      }
    }
    assert Shown(db, row) <==> ServedBy(db, p, row);
    assert Shown(after, row) <==> ServedBy(after, p, row);
  }

  // ---------------------------------------------------------------- clean up

  lemma DeleteKeeps(db: Db, gone: set<Id>)
    requires Valid(db) && gone <= Obsolete(db)
    ensures Valid(Deleted(db, gone)) && Visible(Deleted(db, gone)) == Visible(db)
    ensures Deleted(db, gone).partitions == db.partitions
  {
    hide IsRevision;
    var after := Deleted(db, gone);
    forall p | p in db.partitions
      ensures db.partitions[p] !in gone && Held(after, p, db.partitions[p])
    {
      assert Held(db, p, db.partitions[p]);
      assert Serves(db, db.partitions[p]);
    }
    assert after.partitions == db.partitions;
    forall k | k in after.daily
      ensures RowValid(after, after.daily[k])
    {
      assert RowValid(db, db.daily[k]);
    }
    forall a, b, n | IsPending(after, n, a) && IsPending(after, n, b)
      ensures a == b
    {
      assert IsPending(db, n, a) && IsPending(db, n, b);
    }
    RevisionsKept(db, gone);
    SamePartitions(db, after);
    forall k | k in db.daily && db.daily[k].importId in gone
      ensures !Shown(db, db.daily[k])
    {
      assert !Serves(db, db.daily[k].importId);
    }
    hide Shown;
    SameVisible(db, after);
  }

  lemma RevisionsKept(db: Db, gone: set<Id>)
    requires Valid(db) && gone <= Obsolete(db)
    ensures forall n :: n in db.sources && db.sources[n].revision.Some? ==> db.sources[n].revision.value !in gone
  {
    hide Serves;
    forall n | n in db.sources && db.sources[n].revision.Some?
      ensures db.sources[n].revision.value !in gone
    {
      assert IsRevision(db, db.sources[n].revision.value);
    }
  }

  lemma DropUnused(db: Db, unused: set<Id>)
    requires Valid(db) && unused <= Unused(db)
    ensures var after := db.(daily := db.daily - unused); Valid(after) && Visible(after) == Visible(db)
  {
    hide Shown;
    var after := db.(daily := db.daily - unused);
    SamePartitions(db, after);
    SameVisible(db, after);
    forall p | p in after.partitions
      ensures Held(after, p, after.partitions[p])
    {
      assert Held(db, p, db.partitions[p]);
    }
    forall k | k in after.daily
      ensures RowValid(after, after.daily[k])
    {
      assert RowValid(db, db.daily[k]);
    }
    forall a, b, n | IsPending(after, n, a) && IsPending(after, n, b)
      ensures a == b
    {
      assert IsPending(db, n, a) && IsPending(db, n, b);
    }
  }

  // ---------------------------------------------------------------- runs

  datatype Event =
    | Begin(name: string, provider: Provider, scope: string, from: Day, to: Day, reservation: nat, granted: bool)
    | Stage(h: Import, charges: seq<Charge>)
    | Publish(h: Import, expected: nat, cutoff: Day)
    | Cleanup(gone: set<Id>, unused: set<Id>)

  /** An importer stages and publishes only what it has begun and not yet published. */
  predicate Allowed(db: Db, e: Event) {
    match e
    case Begin(_, _, _, _, _, _, _) => true
    case Stage(h, _) => Open(db, h)
    case Publish(h, _, _) => Open(db, h)
    case Cleanup(gone, unused) => Batch(gone, Obsolete(db), 16) && Batch(unused, Unused(Deleted(db, gone)), 5000)
  }

  ghost function After(db: Db, e: Event): (r: Db) {
    match e
    case Begin(name, provider, scope, from, to, reservation, granted) =>
      var r := Begun(db, name, provider, scope, from, to, reservation, granted);
      if r.Ok? then r.value.0 else db
    case Stage(h, charges) => var r := Staged(db, h, charges); if r.Ok? then r.value else db
    case Publish(h, expected, cutoff) => var r := Published(db, h, expected, cutoff); if r.Ok? then r.value else db
    case Cleanup(gone, unused) => var d := Deleted(db, gone); d.(daily := d.daily - unused)
  }

  ghost function At(events: seq<Event>, n: nat): (r: Db)
    requires n <= |events|
  {
    if n == 0 then EMPTY else After(At(events, n - 1), events[n - 1])
  }

  ghost predicate Run(events: seq<Event>, n: nat)
    requires n <= |events|
  {
    forall i :: 0 <= i < n ==> Allowed(At(events, i), events[i])
  }

  predicate IsPublish(db: Db, e: Event) { e.Publish? && Published(db, e.h, e.expected, e.cutoff).Ok? }

  /** One step keeps the tables valid, and only a successful publish changes what readers see. */
  lemma StepKeeps(db: Db, e: Event)
    requires Valid(db) && Allowed(db, e)
    ensures Valid(After(db, e)) && (IsPublish(db, e) || Visible(After(db, e)) == Visible(db))
  {
    hide Valid, Visible, Begun, Staged, Published, Open, Obsolete, Unused, Deleted;
    match e
    case Begin(name, provider, scope, from, to, reservation, granted) =>
      BeginKeeps(db, name, provider, scope, from, to, reservation, granted);
    case Stage(h, charges) =>
      if Staged(db, h, charges).Ok? {
        StageKeepsValid(db, h, charges);
        StageKeepsVisible(db, h, charges);
      }
    case Publish(h, expected, cutoff) =>
      if Published(db, h, expected, cutoff).Ok? {
        PublishKeepsValid(db, h, expected, cutoff);
      }
    case Cleanup(gone, unused) =>
      DeleteKeeps(db, gone);
      DropUnused(Deleted(db, gone), unused);
  }

  lemma StartValid()
    ensures Valid(EMPTY)
  {
  }

  lemma {:induction false} RunValid(events: seq<Event>, n: nat)
    requires n <= |events| && Run(events, n)
    ensures Valid(At(events, n))
  {
    hide Valid, Allowed, After;
    if n == 0 {
      StartValid();
    } else {
      RunValid(events, n - 1);
      assert Allowed(At(events, n - 1), events[n - 1]);
      StepKeeps(At(events, n - 1), events[n - 1]);
    }
  }

  /** Along any run, what readers see changes only in a successful publish. */
  lemma VisibleOnlyByPublish(events: seq<Event>, n: nat)
    requires n < |events| && Run(events, n + 1) && !IsPublish(At(events, n), events[n])
    ensures Visible(At(events, n + 1)) == Visible(At(events, n))
  {
    hide Valid, Allowed, After, Visible;
    RunValid(events, n);
    assert Allowed(At(events, n), events[n]);
    StepKeeps(At(events, n), events[n]);
  }

  // ---------------------------------------------------------------- who serves a day

  /** Event `m` published import `id` after counting its rows. */
  ghost predicate Counted(events: seq<Event>, m: nat, id: Id)
    requires m < |events|
  {
    IsPublish(At(events, m), events[m]) && events[m].h.id == id && |RowsOf(At(events, m).daily, id)| == events[m].expected
  }

  function DayRows(db: Db, id: Id, day: Day): (r: map<Id, DailyRow>) {
    map k | k in db.daily && db.daily[k].importId == id && db.daily[k].day == day :: db.daily[k]
  }

  /** Steps that keep a served day: its partition and its rows stay as they are. */
  lemma StepKeepsDay(db: Db, e: Event, p: (string, Day))
    requires Valid(db) && Allowed(db, e)
    requires p in After(db, e).partitions && !(e.Publish? && IsPublish(db, e) && After(db, e).partitions[p] == e.h.id)
    ensures p in db.partitions && db.partitions[p] == After(db, e).partitions[p]
    ensures DayRows(After(db, e), db.partitions[p], p.1) == DayRows(db, db.partitions[p], p.1)
  {
    hide Shown, Begun, Repeats;
    match e
    case Begin(name, provider, scope, from, to, reservation, granted) =>
      BeginPartitions(db, name, provider, scope, from, to, reservation, granted);
      BeginDay(db, name, provider, scope, from, to, reservation, granted, p);
    case Stage(h, charges) => StageDay(db, h, charges, p);
    case Publish(h, expected, cutoff) => PublishDay(db, h, expected, cutoff, p);
    case Cleanup(gone, unused) => CleanupDay(db, gone, unused, p);
  }

  lemma BeginPartitions(db: Db, name: string, provider: Provider, scope: string, from: Day, to: Day, reservation: nat, granted: bool)
    ensures var r := Begun(db, name, provider, scope, from, to, reservation, granted); r.Ok? ==> r.value.0.partitions == db.partitions
  {
    hide Sourced, PeriodValid, WithoutRows, HasPending;
  }

  lemma BeginDay(db: Db, name: string, provider: Provider, scope: string, from: Day, to: Day, reservation: nat, granted: bool, p: (string, Day))
    requires Valid(db) && p in db.partitions
    ensures var r := Begun(db, name, provider, scope, from, to, reservation, granted);
      r.Ok? ==> DayRows(r.value.0, db.partitions[p], p.1) == DayRows(db, db.partitions[p], p.1)
  {
    hide Sourced, PeriodValid;
    assert Held(db, p, db.partitions[p]);
  }

  lemma StageDay(db: Db, h: Import, charges: seq<Charge>, p: (string, Day))
    requires Valid(db) && p in db.partitions && Open(db, h)
    ensures var r := Staged(db, h, charges);
      r.Ok? ==> DayRows(r.value, db.partitions[p], p.1) == DayRows(db, db.partitions[p], p.1)
  {
    hide Repeats, Acceptable;
    assert Held(db, p, db.partitions[p]);
    if charges != [] && Staged(db, h, charges).Ok? {
      AddRowsFacts(db.daily, db.next, h.id, charges);
      var after := Staged(db, h, charges).value;
      forall k | k in after.daily && k !in db.daily
        ensures after.daily[k].importId == h.id
      {
        var i := k - db.next;
        assert after.daily[db.next + i] == DailyRow(h.id, charges[i].key, charges[i].day, charges[i].amount);
      }
    }
  }

  lemma PublishDay(db: Db, h: Import, expected: nat, cutoff: Day, p: (string, Day))
    requires Valid(db) && Published(db, h, expected, cutoff).Ok? ==>
      p in Published(db, h, expected, cutoff).value.partitions && Published(db, h, expected, cutoff).value.partitions[p] != h.id
    ensures Published(db, h, expected, cutoff).Ok? && Valid(db) ==>
      p in db.partitions && Published(db, h, expected, cutoff).value.partitions[p] == db.partitions[p]
  {
  }

  lemma CleanupDay(db: Db, gone: set<Id>, unused: set<Id>, p: (string, Day))
    requires Valid(db) && gone <= Obsolete(db) && unused <= Unused(Deleted(db, gone)) && p in Deleted(db, gone).partitions
    ensures p in db.partitions && Deleted(db, gone).partitions[p] == db.partitions[p]
    ensures var d := Deleted(db, gone);
      DayRows(d.(daily := d.daily - unused), db.partitions[p], p.1) == DayRows(db, db.partitions[p], p.1)
  {
    hide IsRevision, Serves;
    DeleteKeeps(db, gone);
    var d := Deleted(db, gone);
    forall k | k in d.daily && d.daily[k].importId == db.partitions[p] && d.daily[k].day == p.1
      ensures k !in unused
    {
      assert ServedBy(d, p, d.daily[k]);
      assert Shown(d, d.daily[k]);
    }
  }

  /**
    Every (source, day) that is served is served by one import, published in this run with its
    rows counted, and readers see for it exactly the rows counted then.
   */
  lemma {:induction false} ServedAsCounted(events: seq<Event>, n: nat, p: (string, Day)) returns (m: nat)
    requires n <= |events| && Run(events, n) && p in At(events, n).partitions
    ensures m < n && Counted(events, m, At(events, n).partitions[p])
    ensures Held(At(events, n), p, At(events, n).partitions[p])
    ensures DayRows(At(events, n), At(events, n).partitions[p], p.1) == DayRows(At(events, m), At(events, n).partitions[p], p.1)
  {
    hide Valid, Allowed, After, DayRows, IsPublish, Held;
    var db, e := At(events, n - 1), events[n - 1];
    assert Allowed(db, e);
    RunValid(events, n - 1);
    RunValid(events, n);
    ValidHeld(At(events, n), p);
    if e.Publish? && IsPublish(db, e) && At(events, n).partitions[p] == e.h.id {
      m := n - 1;
      PublishCounts(db, e, p);
    } else {
      StepKeepsDay(db, e, p);
      m := ServedAsCounted(events, n - 1, p);
    }
  }

  lemma ValidHeld(db: Db, p: (string, Day))
    requires Valid(db) && p in db.partitions
    ensures Held(db, p, db.partitions[p])
  {
  }

  lemma PublishCounts(db: Db, e: Event, p: (string, Day))
    requires IsPublish(db, e)
    ensures |RowsOf(db.daily, e.h.id)| == e.expected
    ensures DayRows(After(db, e), e.h.id, p.1) == DayRows(db, e.h.id, p.1)
  {
  }

  // ---------------------------------------------------------------- staging too late

  /** An import of one day that is begun and published at once. */
  function LateRun(): (events: seq<Event>) { [Begin("s", Gcp, "p", 0, 1, 1, true), Publish(Import(0, "s", 0, 1), 0, 0)] }

  lemma LateBegun()
    ensures At(LateRun(), 1) == Db(map["s" := Source(Gcp, "p", None, false)], map[0 := ImportRow("s", 0, 1, false, 1)], map[], map[], 1)
  {
    var events := LateRun();
    assert At(events, 0) == EMPTY;
    assert !HasPending(EMPTY, "s");
    assert At(events, 1) == After(EMPTY, events[0]);
  }

  lemma LatePublished()
    ensures Run(LateRun(), 2)
    ensures At(LateRun(), 2).imports == map[0 := ImportRow("s", 0, 1, true, 1)]
    ensures At(LateRun(), 2).partitions == map[("s", 0) := 0] && At(LateRun(), 2).daily == map[]
  {
    var events := LateRun();
    var h := Import(0, "s", 0, 1);
    LateBegun();
    var db := At(events, 1);
    assert RowsOf(db.daily, 0) == {};
    assert Open(db, h);
    assert Days(h) == {("s", 0)} by {
      assert ("s", 0) in Days(h);
    }
    assert At(events, 2) == After(db, events[1]);
    assert Allowed(At(events, 0), events[0]) && Allowed(At(events, 1), events[1]);
  }

  /** In such a run, staging into the import that is already published does reach readers. */
  lemma StageAfterPublish()
    ensures Run(LateRun(), 2)
    ensures var r := Staged(At(LateRun(), 2), Import(0, "s", 0, 1), [Charge("k", 0, 5, true)]);
      r.Ok? && Visible(r.value) != Visible(At(LateRun(), 2))
  {
    hide Visible, After;
    LatePublished();
    RunValid(LateRun(), 2);
    var db := At(LateRun(), 2);
    var h := Import(0, "s", 0, 1);
    var charges := [Charge("k", 0, 5, true)];
    assert Acceptable(h, charges) && !Repeats(db.daily, h.id, charges);
    assert ServedBy(db, ("s", 0), DailyRow(h.id, charges[0].key, charges[0].day, charges[0].amount));
    assert Touches(db, h, charges);
    StageVisible(db, h, charges);
  }
}
