/**
  Billing imports (crates/history/src/cost_write.rs): begin, stage, publish and clean up, over
  tables held as maps. Every method body is one transaction of the single-connection pool.
 */
module CostWrite {
  import opened Order
  import opened Fallible

  type Id = nat
  type Day = int

  datatype Provider = Gcp | Aws | Azure | External

  /** A source row; its unique name stands for its identifier. */
  datatype Source = Source(provider: Provider, scope: string, revision: Option<Id>, fault: bool)

  datatype ImportRow = ImportRow(source: string, from: Day, to: Day, published: bool, reserved: nat)

  datatype DailyRow = DailyRow(importId: Id, key: string, day: Day, amount: int)

  datatype Db = Db(
    sources: map<string, Source>,
    imports: map<Id, ImportRow>,
    partitions: map<(string, Day), Id>,
    daily: map<Id, DailyRow>,
    next: Id)                             // no identifier at or above is in use

  /** What `cost_begin` hands to the importer. */
  datatype Import = Import(id: Id, source: string, from: Day, to: Day)

  datatype Charge = Charge(key: string, day: Day, amount: int, sound: bool)

  const EMPTY: Db := Db(map[], map[], map[], map[], 0)

  // ---------------------------------------------------------------- begin

  predicate ScopeTaken(db: Db, provider: Provider, scope: string) {
    exists n | n in db.sources :: db.sources[n].provider == provider && db.sources[n].scope == scope
  }

  /** The stored identity of the source after the insert that ignores a known name. */
  function Sourced(db: Db, name: string, provider: Provider, scope: string): (r: Result<map<string, Source>>) {
    if name in db.sources then
      if db.sources[name].provider == provider && db.sources[name].scope == scope then Ok(db.sources) else Err
    else if ScopeTaken(db, provider, scope) then Err
    else Ok(db.sources[name := Source(provider, scope, None, false)])
  }

  predicate IsPending(db: Db, name: string, id: Id) {
    id in db.imports && db.imports[id].source == name && !db.imports[id].published
  }

  /** A source has at most one import that is not published yet. */
  ghost predicate OnePending(db: Db) {
    forall name, a, b :: IsPending(db, name, a) && IsPending(db, name, b) ==> a == b
  }

  predicate HasPending(db: Db, name: string) {
    exists id | id in db.imports :: IsPending(db, name, id)
  }

  ghost function Pending(db: Db, name: string): (id: Id)
    requires HasPending(db, name)
    ensures IsPending(db, name, id)
  {
    var id :| id in db.imports && IsPending(db, name, id);
    id
  }

  function WithoutRows(daily: map<Id, DailyRow>, id: Id): (r: map<Id, DailyRow>) {
    map k | k in daily && daily[k].importId != id :: daily[k]
  }

  predicate PeriodValid(from: Day, to: Day) { from < to <= from + 400 }

  /** `granted` is the answer of the daily allowance, asked only when bytes must be reserved. */
  ghost function Begun(db: Db, name: string, provider: Provider, scope: string, from: Day, to: Day, reservation: nat, granted: bool)
    : (r: Result<(Db, Import)>)
  {
    var sourced := Sourced(db, name, provider, scope);
    if sourced.Err? then Err
    else if HasPending(db, name) then
      var id := Pending(db, name);
      var row := db.imports[id];
      if reservation > row.reserved && !granted then Err
      else
        var reserved := if reservation > row.reserved then reservation else row.reserved;
        Ok((db.(sources := sourced.value, imports := db.imports[id := row.(reserved := reserved)], daily := WithoutRows(db.daily, id)),
            Import(id, name, row.from, row.to)))
    else if !granted || reservation == 0 || !PeriodValid(from, to) then Err
    else
      Ok((db.(sources := sourced.value, imports := db.imports[db.next := ImportRow(name, from, to, false, reservation)], next := db.next + 1),
          Import(db.next, name, from, to)))
  }

  // ---------------------------------------------------------------- stage

  predicate InPeriod(h: Import, c: Charge) { h.from <= c.day < h.to }

  predicate Acceptable(h: Import, charges: seq<Charge>) {
    |charges| <= 500 && forall i :: 0 <= i < |charges| ==> InPeriod(h, charges[i]) && charges[i].sound
  }

  /** A repeated aggregate identity, among the rows or against those already staged. */
  predicate Repeats(daily: map<Id, DailyRow>, id: Id, charges: seq<Charge>) {
    || (exists i, j | 0 <= i < j < |charges| :: charges[i].key == charges[j].key)
    || (exists i | 0 <= i < |charges| :: exists k | k in daily :: daily[k].importId == id && daily[k].key == charges[i].key)
  }

  function AddRows(daily: map<Id, DailyRow>, next: Id, id: Id, charges: seq<Charge>): (r: map<Id, DailyRow>)
    decreases |charges|
  {
    if charges == [] then daily
    else AddRows(daily[next := DailyRow(id, charges[0].key, charges[0].day, charges[0].amount)], next + 1, id, charges[1..])
  }

  function Staged(db: Db, h: Import, charges: seq<Charge>): (r: Result<Db>) {
    if charges == [] then Ok(db)
    else if !Acceptable(h, charges) || h.id !in db.imports || Repeats(db.daily, h.id, charges) then Err
    else Ok(db.(daily := AddRows(db.daily, db.next, h.id, charges), next := db.next + |charges|))
  }

  // ---------------------------------------------------------------- publish

  function RowsOf(daily: map<Id, DailyRow>, id: Id): (r: set<Id>) {
    set k | k in daily && daily[k].importId == id
  }

  function Days(h: Import): (r: set<(string, Day)>) {
    set d | h.from <= d < h.to :: (h.source, d)
  }

  /** The partitions after the days before `day` have been written. */
  function Written(partitions: map<(string, Day), Id>, h: Import, day: Day): (r: map<(string, Day), Id>) {
    map p | p in partitions.Keys + Days(h.(to := day)) :: if p in Days(h.(to := day)) then h.id else partitions[p]
  }

  lemma WrittenNone(partitions: map<(string, Day), Id>, h: Import)
    ensures Written(partitions, h, h.from) == partitions
  {
  }

  lemma WrittenOne(partitions: map<(string, Day), Id>, h: Import, day: Day)
    requires h.from <= day
    ensures Written(partitions, h, day + 1) == Written(partitions, h, day)[(h.source, day) := h.id]
  {
    assert Days(h.(to := day + 1)) == Days(h.(to := day)) + {(h.source, day)};
  }

  lemma WrittenAll(partitions: map<(string, Day), Id>, h: Import, day: Day, cutoff: Day)
    requires day == if h.to <= h.from then h.from else h.to
    ensures var w := Written(partitions, h, day);
      Served(partitions, h, cutoff) == map p | p in w && p.1 >= cutoff :: w[p]
  {
    assert Days(h.(to := day)) == Days(h);
  }

  /** Every day of the import is served by it, and days before the cutoff by nobody. */
  function Served(partitions: map<(string, Day), Id>, h: Import, cutoff: Day): (r: map<(string, Day), Id>) {
    map p | p in partitions.Keys + Days(h) && p.1 >= cutoff :: if p in Days(h) then h.id else partitions[p]
  }

  function Published(db: Db, h: Import, expected: nat, cutoff: Day): (r: Result<Db>) {
    if h.id !in db.imports || h.source !in db.sources || |RowsOf(db.daily, h.id)| != expected then Err
    else Ok(db.(partitions := Served(db.partitions, h, cutoff),
                imports := db.imports[h.id := db.imports[h.id].(published := true)],
                sources := db.sources[h.source := db.sources[h.source].(revision := Some(h.id), fault := false)]))
  }

  // ---------------------------------------------------------------- clean up

  predicate Serves(db: Db, id: Id) { exists p | p in db.partitions :: db.partitions[p] == id }

  predicate IsRevision(db: Db, id: Id) { exists n | n in db.sources :: db.sources[n].revision == Some(id) }

  function Obsolete(db: Db): (r: set<Id>) {
    set id | id in db.imports && db.imports[id].published && !Serves(db, id) && !IsRevision(db, id)
  }

  /** Deleting imports takes their rows and partitions with them. */
  function Deleted(db: Db, gone: set<Id>): (r: Db) {
    db.(imports := db.imports - gone,
        partitions := map p | p in db.partitions && db.partitions[p] !in gone :: db.partitions[p],
        daily := map k | k in db.daily && db.daily[k].importId !in gone :: db.daily[k])
  }

  /** The reader's join: a row is visible where a partition of its day names its import. */
  predicate ServedBy(db: Db, p: (string, Day), row: DailyRow) {
    p in db.partitions && p.1 == row.day && db.partitions[p] == row.importId
  }

  predicate Shown(db: Db, row: DailyRow) {
    exists p | p in db.partitions :: ServedBy(db, p, row)
  }

  function Unused(db: Db): (r: set<Id>) {
    set k | k in db.daily && db.daily[k].importId in db.imports && db.imports[db.daily[k].importId].published && !Shown(db, db.daily[k])
  }

  /** At most `limit` members, chosen by the database; all of them when there are no more. */
  predicate Batch(chosen: set<Id>, from: set<Id>, limit: nat) {
    chosen <= from && |chosen| <= limit && (|chosen| == limit || chosen == from)
  }

  method Choose(from: set<Id>, limit: nat) returns (chosen: set<Id>)
    ensures Batch(chosen, from, limit)
  {
    chosen := {};
    var rest := from;
    while rest != {} && |chosen| < limit
      invariant chosen <= from && rest == from - chosen && |chosen| <= limit
      decreases |rest|
    {
      var id :| id in rest;
      chosen := chosen + {id};
      rest := rest - {id};
    }
  }

  // ---------------------------------------------------------------- the writer

  class Billing {
    var sources: map<string, Source>
    var imports: map<Id, ImportRow>
    var partitions: map<(string, Day), Id>
    var daily: map<Id, DailyRow>
    var next: Id

    constructor ()
      ensures Tables() == EMPTY
    {
      sources, imports, partitions, daily, next := map[], map[], map[], map[], 0;
    }

    function Tables(): (db: Db)
      reads this
    {
      Db(sources, imports, partitions, daily, next)
    }

    method Begin(name: string, provider: Provider, scope: string, from: Day, to: Day, reservation: nat, granted: bool)
      returns (r: Result<Import>)
      requires OnePending(Tables())
      modifies this
      ensures match Begun(old(Tables()), name, provider, scope, from, to, reservation, granted)
        case Err => r == Err && Tables() == old(Tables())
        case Ok(next) => r == Ok(next.1) && Tables() == next.0
    {
      hide ScopeTaken, WithoutRows, HasPending;
      var db := Tables();
      var sourced := Sourced(db, name, provider, scope);
      if sourced.Err? {
        return Err;
      }
      if HasPending(db, name) {
        AnyPending(db, name);
        var id :| id in imports && IsPending(db, name, id);
        var row := imports[id];
        if reservation > row.reserved {
          if !granted {
            return Err;
          }
          imports := imports[id := row.(reserved := reservation)];
        } else {
          assert imports[id := row] == imports;
        }
        sources := sourced.value;
        daily := WithoutRows(daily, id);
        return Ok(Import(id, name, row.from, row.to));
      }
      if !granted || reservation == 0 || !PeriodValid(from, to) {
        return Err;
      }
      sources := sourced.value;
      imports := imports[next := ImportRow(name, from, to, false, reservation)];
      r := Ok(Import(next, name, from, to));
      next := next + 1;
    }

    method Stage(h: Import, charges: seq<Charge>) returns (r: Result<nat>)
      modifies this
      ensures match Staged(old(Tables()), h, charges)
        case Err => r == Err && Tables() == old(Tables())
        case Ok(db) => r == Ok(|charges|) && Tables() == db
    {
      hide Repeats;
      if charges == [] {
        return Ok(0);
      }
      if |charges| > 500 {
        return Err;
      }
      for i := 0 to |charges|
        invariant forall k :: 0 <= k < i ==> InPeriod(h, charges[k]) && charges[k].sound
      {
        if charges[i].day < h.from || charges[i].day >= h.to || !charges[i].sound {
          return Err;
        }
      }
      if h.id !in imports || Repeats(daily, h.id, charges) {
        return Err;
      }
      ghost var target := AddRows(daily, next, h.id, charges);
      for i := 0 to |charges|
        invariant sources == old(sources) && imports == old(imports) && partitions == old(partitions)
        invariant next == old(next) + i && AddRows(daily, next, h.id, charges[i..]) == target
      {
        assert charges[i..][1..] == charges[i + 1..];
        daily := daily[next := DailyRow(h.id, charges[i].key, charges[i].day, charges[i].amount)];
        next := next + 1;
      }
      return Ok(|charges|);
    }

    method Publish(h: Import, expected: nat, cutoff: Day) returns (r: Result<()>)
      modifies this
      ensures match Published(old(Tables()), h, expected, cutoff)
        case Err => r == Err && Tables() == old(Tables())
        case Ok(db) => r == Ok(()) && Tables() == db
    {
      hide Written, Days, Served, RowsOf;
      if h.id !in imports || h.source !in sources || |RowsOf(daily, h.id)| != expected {
        return Err;
      }
      var day := h.from;
      ghost var was := partitions;
      WrittenNone(was, h);
      while day < h.to
        invariant h.from <= day && (day <= h.to || day == h.from)
        invariant partitions == Written(was, h, day)
        invariant sources == old(sources) && imports == old(imports) && daily == old(daily) && next == old(next)
      {
        WrittenOne(was, h, day);
        partitions := partitions[(h.source, day) := h.id];
        day := day + 1;
      }
      WrittenAll(was, h, day, cutoff);
      imports := imports[h.id := imports[h.id].(published := true)];
      sources := sources[h.source := sources[h.source].(revision := Some(h.id), fault := false)];
      partitions := map p | p in partitions && p.1 >= cutoff :: partitions[p];
      return Ok(());
    }

    /** Obsolete imports first, then superseded days of the others, in bounded batches. */
    method Cleanup() returns (ghost gone: set<Id>, ghost unused: set<Id>)
      modifies this
      ensures var db := Deleted(old(Tables()), gone);
        Batch(gone, Obsolete(old(Tables())), 16) && Batch(unused, Unused(db), 5000)
        && Tables() == db.(daily := db.daily - unused)
    {
      hide Obsolete, Unused;
      var obsolete := Choose(Obsolete(Tables()), 16);
      var db := Deleted(Tables(), obsolete);
      imports, partitions, daily := db.imports, db.partitions, db.daily;
      var rows := Choose(Unused(Tables()), 5000);
      daily := daily - rows;
      gone, unused := obsolete, rows;
    }
  }

  lemma AnyPending(db: Db, name: string)
    requires HasPending(db, name) && OnePending(db)
    ensures exists id :: id in db.imports && IsPending(db, name, id)
    ensures forall id :: IsPending(db, name, id) ==> id == Pending(db, name)
  {
  }
}
