/**
  Keyset pages of billing contributors (crates/history/src/cost_read.rs, cost_response.rs,
  cost_cursor.rs): following the cursor lists every contributor once, in order.
 */
module CostPages {
  import opened Order
  import opened Fallible
  import opened Decimal
  import opened Amount
  import opened BoundedDecimal

  datatype Contributor = Contributor(key: string, amount: Dec, credits: Dec, previous: Option<Dec>)

  /** The serialized cursor: the amount travels as its plain text. */
  datatype Cursor = Cursor(amount: string, key: string, revision: string, fingerprint: string)

  datatype Boundary = Boundary(amount: Dec, key: string)

  const KEY_LENGTH: nat := 4096

  /** The database collation of the dimension. */
  type Collation = (string, string) -> bool

  predicate Bounded(a: Dec) { a.scale <= PLACES }

  function Size(a: Dec): (v: int) { if Bounded(a) then UnitsOf(a) else 0 }

  /** Amount descending, then key ascending. */
  predicate Before(less: Collation, a: Contributor, b: Contributor) {
    Size(a.amount) > Size(b.amount) || (Size(a.amount) == Size(b.amount) && less(a.key, b.key))
  }

  /** The `HAVING` clause of a page that continues after a boundary. */
  predicate Beyond(less: Collation, b: Boundary, row: Contributor) {
    Size(row.amount) < Size(b.amount) || (Size(row.amount) == Size(b.amount) && less(b.key, row.key))
  }

  function Encode(row: Contributor, revision: string, fingerprint: string): (c: Cursor) {
    Cursor(Print(row.amount), row.key, revision, fingerprint)
  }

  function Decode(c: Option<Cursor>, revision: string, fingerprint: string): (b: Result<Option<Boundary>>) {
    if c.None? then Ok(None)
    else
      var amount := Parse(c.value.amount);
      if amount.None? then Err
      else if |c.value.key| > KEY_LENGTH || c.value.revision != revision || c.value.fingerprint != fingerprint then Err
      else Ok(Some(Boundary(amount.value, c.value.key)))
  }

  /**
    A cursor decodes exactly for the publication and filter it was made for and a key within the
    bound, and then to the boundary it was made from, its amount unchanged.
   */
  lemma CursorRoundTrip(row: Contributor, revision: string, fingerprint: string, revision': string, fingerprint': string)
    requires IsAmount(row.amount)
    ensures Decode(Some(Encode(row, revision, fingerprint)), revision', fingerprint')
         == if revision == revision' && fingerprint == fingerprint' && |row.key| <= KEY_LENGTH
            then Ok(Some(Boundary(row.amount, row.key))) else Err
  {
    hide Parse, Print;
    ParsePrint(row.amount);
  }

  // ---------------------------------------------------------------- one page

  /** The grouped rows of the publication, in the order of the query. */
  ghost predicate Listing(less: Collation, all: seq<Contributor>) {
    && (forall i :: 0 <= i < |all| ==> IsAmount(all[i].amount) && |all[i].key| <= KEY_LENGTH)
    && forall i, j :: 0 <= i < j < |all| ==> Before(less, all[i], all[j])
  }

  /** The rows the boundary leaves, in order. */
  function Remaining(less: Collation, all: seq<Contributor>, b: Option<Boundary>): (r: seq<Contributor>) {
    if all == [] then []
    else if b.None? || Beyond(less, b.value, all[0]) then [all[0]] + Remaining(less, all[1..], b)
    else Remaining(less, all[1..], b)
  }

  function Fetch(rows: seq<Contributor>, limit: nat): (r: seq<Contributor>) {
    if |rows| <= limit then rows else rows[..limit]
  }

  datatype Page = Page(rows: seq<Contributor>, next: Option<Cursor>)

  /** `cost_response`: one row beyond the limit decides whether there is a cursor. */
  method Respond(fetched: seq<Contributor>, limit: nat, previousComplete: bool, revision: string, fingerprint: string) returns (page: Page)
    requires limit >= 1
    ensures page.next == if |fetched| > limit then Some(Encode(fetched[limit - 1], revision, fingerprint)) else None
    ensures |page.rows| == if |fetched| > limit then limit else |fetched|
    ensures forall i :: 0 <= i < |page.rows| ==>
      page.rows[i] == if previousComplete then fetched[i] else fetched[i].(previous := None)
  {
    var next := if |fetched| > limit then Some(Encode(fetched[limit - 1], revision, fingerprint)) else None;
    var rows := if |fetched| > limit then fetched[..limit] else fetched;
    if !previousComplete {
      for i := 0 to |rows|
        invariant |rows| == if |fetched| > limit then limit else |fetched|
        invariant forall k :: 0 <= k < |rows| ==> rows[k] == if k < i then fetched[k].(previous := None) else fetched[k]
      {
        rows := rows[i := rows[i].(previous := None)];
      }
    }
    page := Page(rows, next);
  }

  /** The page served for a cursor, before prior totals are blanked. */
  function Serve(less: Collation, all: seq<Contributor>, c: Option<Cursor>, limit: nat, revision: string, fingerprint: string): (r: Result<Page>)
    requires limit >= 1
  {
    var b := Decode(c, revision, fingerprint);
    if b.Err? then Err
    else
      var fetched := Fetch(Remaining(less, all, b.value), limit + 1);
      Ok(Page(Fetch(fetched, limit), if |fetched| > limit then Some(Encode(fetched[limit - 1], revision, fingerprint)) else None))
  }

  lemma {:induction false} RemainingAll(less: Collation, all: seq<Contributor>)
    ensures Remaining(less, all, None) == all
  {
    if all != [] {
      RemainingAll(less, all[1..]);
    }
  }

  /** Rows that all lie beyond the boundary stay, in order. */
  lemma {:induction false} RemainingBeyond(less: Collation, all: seq<Contributor>, b: Boundary)
    requires forall i :: 0 <= i < |all| ==> Beyond(less, b, all[i])
    ensures Remaining(less, all, Some(b)) == all
  {
    if all != [] {
      RemainingBeyond(less, all[1..], b);
    }
  }

  /** Continuing after row `k` leaves exactly the rows behind it. */
  lemma {:induction false} RemainingAfter(less: Collation, all: seq<Contributor>, k: nat)
    requires StrictTotal(less) && k < |all| && forall i, j :: 0 <= i < j < |all| ==> Before(less, all[i], all[j])
    ensures Remaining(less, all, Some(Boundary(all[k].amount, all[k].key))) == all[k + 1..]
    decreases k
  {
    var b := Boundary(all[k].amount, all[k].key);
    assert !Beyond(less, b, all[0]) by {
      if k > 0 {
        assert Before(less, all[0], all[k]);
      }
    }
    if k == 0 {
      forall i | 0 <= i < |all[1..]|
        ensures Beyond(less, b, all[1..][i])
      {
        assert Before(less, all[0], all[i + 1]);
      }
      RemainingBeyond(less, all[1..], b);
    } else {
      RemainingAfter(less, all[1..], k - 1);
      assert all[1..][k - 1] == all[k] && all[1..][k..] == all[k + 1..];
    }
  }

  // ---------------------------------------------------------------- following the cursor

  /** The page reached after following the cursor `k` times; none once it has ended. */
  function Visit(less: Collation, all: seq<Contributor>, limit: nat, revision: string, fingerprint: string, k: nat): (r: Option<Result<Page>>)
    requires limit >= 1
  {
    if k == 0 then Some(Serve(less, all, None, limit, revision, fingerprint))
    else
      var before := Visit(less, all, limit, revision, fingerprint, k - 1);
      if before.Some? && before.value.Ok? && before.value.value.next.Some?
      then Some(Serve(less, all, before.value.value.next, limit, revision, fingerprint)) else None
  }

  function Smaller(a: nat, b: nat): (n: nat) { if a <= b then a else b }

  /** The page whose rows begin at `start`. */
  function PageFrom(all: seq<Contributor>, limit: nat, revision: string, fingerprint: string, start: nat): (page: Page)
    requires start <= |all| && limit >= 1
  {
    hide Encode;
    Page(all[start..Smaller(start + limit, |all|)],
         if start + limit < |all| then Some(Encode(all[start + limit - 1], revision, fingerprint)) else None)
  }

  lemma Fetched(all: seq<Contributor>, limit: nat, start: nat)
    requires start <= |all| && limit >= 1
    ensures var fetched := Fetch(all[start..], limit + 1);
      && (|fetched| > limit <==> start + limit < |all|)
      && (|fetched| > limit ==> fetched[limit - 1] == all[start + limit - 1])
      && Fetch(fetched, limit) == all[start..Smaller(start + limit, |all|)]
  {
  }

  /** A boundary that leaves the rows from `start` on serves the page that begins there. */
  lemma ServeFrom(less: Collation, all: seq<Contributor>, c: Option<Cursor>, limit: nat, revision: string, fingerprint: string, start: nat)
    requires limit >= 1 && start <= |all|
    requires Decode(c, revision, fingerprint).Ok? && Remaining(less, all, Decode(c, revision, fingerprint).value) == all[start..]
    ensures Serve(less, all, c, limit, revision, fingerprint) == Ok(PageFrom(all, limit, revision, fingerprint, start))
  {
    hide Decode, Remaining, Encode, Fetch;
    Fetched(all, limit, start);
  }

  lemma {:induction false} VisitIs(less: Collation, all: seq<Contributor>, limit: nat, revision: string, fingerprint: string, k: nat)
    requires StrictTotal(less) && Listing(less, all) && limit >= 1 && (k == 0 || k * limit < |all|)
    ensures var v := Visit(less, all, limit, revision, fingerprint, k);
      k * limit <= |all| && v == Some(Ok(PageFrom(all, limit, revision, fingerprint, k * limit)))
  {
    hide Encode, Decode, Remaining, StrictTotal, Serve, Fetch;
    if k == 0 {
      RemainingAll(less, all);
      DecodeNone(revision, fingerprint);
      assert all[0..] == all;
      ServeFrom(less, all, None, limit, revision, fingerprint, 0);
    } else {
      assert (k - 1) * limit + limit == k * limit;
      VisitIs(less, all, limit, revision, fingerprint, k - 1);
      var last := all[k * limit - 1];
      assert IsAmount(last.amount) && |last.key| <= KEY_LENGTH;
      CursorRoundTrip(last, revision, fingerprint, revision, fingerprint);
      RemainingAfter(less, all, k * limit - 1);
      ServeFrom(less, all, Some(Encode(last, revision, fingerprint)), limit, revision, fingerprint, k * limit);
      assert (k + 1) * limit == k * limit + limit;
    }
  }

  lemma DecodeNone(revision: string, fingerprint: string)
    ensures Decode(None, revision, fingerprint) == Ok(None)
  {
  }

  /** ceil(n / limit), and one empty page when there is nothing. */
  function PageCount(n: nat, limit: nat): (p: nat)
    requires limit >= 1
    ensures p >= 1
  {
    if n == 0 then 1 else (n - 1) / limit + 1
  }

  /** The rows of the first `k` pages. */
  function Listed(less: Collation, all: seq<Contributor>, limit: nat, revision: string, fingerprint: string, k: nat): (r: seq<Contributor>)
    requires limit >= 1
  {
    if k == 0 then []
    else
      var v := Visit(less, all, limit, revision, fingerprint, k - 1);
      Listed(less, all, limit, revision, fingerprint, k - 1) + if v.Some? && v.value.Ok? then v.value.value.rows else []
  }

  lemma Counts(n: nat, limit: nat, k: nat)
    requires limit >= 1 && k < PageCount(n, limit)
    ensures k == 0 || k * limit < n
    ensures (k + 1) * limit < n <==> k + 1 < PageCount(n, limit)
  {
    if n > 0 {
      var q, r := (n - 1) / limit, (n - 1) % limit;
      assert n - 1 == limit * q + r;
      Times(limit, k, q);
      if k < q {
        Times(limit, k + 1, q);
      }
      assert limit * (q + 1) == limit * q + limit;
    } else {
      assert k == 0;
    }
  }

  /** One more page. */
  lemma ListedNext(less: Collation, all: seq<Contributor>, limit: nat, revision: string, fingerprint: string, k: nat, start: nat)
    requires StrictTotal(less) && Listing(less, all) && limit >= 1
    requires start == k * limit && (k == 0 || start < |all|)
    requires Listed(less, all, limit, revision, fingerprint, k) == all[..Smaller(start, |all|)]
    ensures Listed(less, all, limit, revision, fingerprint, k + 1) == all[..Smaller(start + limit, |all|)]
  {
    hide Visit, StrictTotal, Listing;
    VisitIs(less, all, limit, revision, fingerprint, k);
    NextSlice(all, start, limit);
  }

  lemma {:induction false} ListedIs(less: Collation, all: seq<Contributor>, limit: nat, revision: string, fingerprint: string, k: nat)
    requires StrictTotal(less) && Listing(less, all) && limit >= 1 && k <= PageCount(|all|, limit)
    ensures Listed(less, all, limit, revision, fingerprint, k) == all[..Smaller(k * limit, |all|)]
  {
    hide Visit, StrictTotal, Listing, PageCount, Listed;
    if k == 0 {
      NothingListed(less, all, limit, revision, fingerprint);
    } else {
      ListedIs(less, all, limit, revision, fingerprint, k - 1);
      Counts(|all|, limit, k - 1);
      assert k * limit == (k - 1) * limit + limit;
      ListedNext(less, all, limit, revision, fingerprint, k - 1, (k - 1) * limit);
    }
  }

  lemma NothingListed(less: Collation, all: seq<Contributor>, limit: nat, revision: string, fingerprint: string)
    requires limit >= 1
    ensures Listed(less, all, limit, revision, fingerprint, 0) == all[..Smaller(0 * limit, |all|)]
  {
    assert Smaller(0 * limit, |all|) == 0;
  }

  lemma NextSlice(all: seq<Contributor>, start: nat, limit: nat)
    ensures var a, b := Smaller(start, |all|), Smaller(start + limit, |all|); a <= b && all[..a] + all[a..b] == all[..b]
  {
  }

  /**
    For a fixed publication and filter, following the cursor serves exactly ceil(n / limit) pages,
    and their rows are all contributors, each once, by descending amount and then key.
   */
  lemma PagesListAll(less: Collation, all: seq<Contributor>, limit: nat, revision: string, fingerprint: string)
    requires StrictTotal(less) && Listing(less, all) && limit >= 1
    ensures var pages := PageCount(|all|, limit);
      && Listed(less, all, limit, revision, fingerprint, pages) == all
      && (forall k :: 0 <= k < pages ==>
            var v := Visit(less, all, limit, revision, fingerprint, k);
            v.Some? && v.value.Ok? && (v.value.value.next.Some? <==> k + 1 < pages))
      && Visit(less, all, limit, revision, fingerprint, pages) == None
  {
    hide StrictTotal, Listing, Visit;
    var pages := PageCount(|all|, limit);
    forall k | 0 <= k < pages
      ensures var v := Visit(less, all, limit, revision, fingerprint, k);
        v.Some? && v.value.Ok? && (v.value.value.next.Some? <==> k + 1 < pages)
    {
      Counts(|all|, limit, k);
      VisitIs(less, all, limit, revision, fingerprint, k);
    }
    ListedIs(less, all, limit, revision, fingerprint, pages);
    Counts(|all|, limit, pages - 1);
    assert all[..|all|] == all;
    VisitEnds(less, all, limit, revision, fingerprint, pages);
  }

  lemma VisitEnds(less: Collation, all: seq<Contributor>, limit: nat, revision: string, fingerprint: string, k: nat)
    requires limit >= 1 && k >= 1
    requires var v := Visit(less, all, limit, revision, fingerprint, k - 1); v.Some? && v.value.Ok? && v.value.value.next.None?
    ensures Visit(less, all, limit, revision, fingerprint, k) == None
  {
    hide Serve;
  }
}
