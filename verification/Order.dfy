/** Total orders, and the listing of a finite set in increasing order, as ordered maps iterate. */
module Order {

  datatype Option<+T> = None | Some(value: T)

  ghost predicate StrictTotal<T(!new)>(less: (T, T) -> bool) {
    && (forall a :: !less(a, a))
    && (forall a, b :: less(a, b) || less(b, a) || a == b)
    && (forall a, b, c :: less(a, b) && less(b, c) ==> less(a, c))
  }

  ghost predicate IsLeast<T>(x: T, s: set<T>, less: (T, T) -> bool) {
    x in s && forall y :: y in s && y != x ==> less(x, y)
  }

  lemma {:induction false} LeastExists<T(!new)>(s: set<T>, less: (T, T) -> bool)
    requires StrictTotal(less) && s != {}
    ensures exists x :: IsLeast(x, s, less)
    decreases |s|
  {
    var y :| y in s;
    if s == {y} {
      assert IsLeast(y, s, less);
    } else {
      LeastExists(s - {y}, less);
      var x :| IsLeast(x, s - {y}, less);
      if less(x, y) {
        assert IsLeast(x, s, less);
      } else {
        assert IsLeast(y, s, less);
      }
    }
  }

  /** The least element; unique because the order is strict and total. */
  ghost function Least<T(!new)>(s: set<T>, less: (T, T) -> bool): (x: T)
    requires StrictTotal(less) && s != {}
    ensures IsLeast(x, s, less)
  {
    LeastExists(s, less);
    var x :| IsLeast(x, s, less);
    x
  }

  /** The elements of `s` in increasing order. */
  ghost function Sorted<T(!new)>(s: set<T>, less: (T, T) -> bool): (r: seq<T>)
    requires StrictTotal(less)
    ensures |r| == |s|
    ensures forall x :: x in r <==> x in s
    ensures forall i, j :: 0 <= i < j < |r| ==> less(r[i], r[j])
    decreases |s|
  {
    if s == {} then []
    else
      var x := Least(s, less);
      [x] + Sorted(s - {x}, less)
  }

  method PickLeast<T(==, !new)>(s: set<T>, less: (T, T) -> bool) returns (least: T)
    requires StrictTotal(less) && s != {}
    ensures IsLeast(least, s, less)
  {
    least :| least in s;
    var others := s - {least};
    while others != {}
      invariant others <= s && least in s
      invariant forall y :: y in s && y !in others && y != least ==> less(least, y)
      decreases |others|
    {
      var y :| y in others;
      others := others - {y};
      if less(y, least) {
        least := y;
      }
    }
  }

  /** `r` lists `s` up to the elements in `rest`. */
  ghost predicate Lists<T(!new)>(r: seq<T>, rest: set<T>, s: set<T>, less: (T, T) -> bool)
    requires StrictTotal(less)
  {
    Sorted(s, less) == r + Sorted(rest, less)
  }

  lemma SortedStep<T(!new)>(s: set<T>, less: (T, T) -> bool, least: T)
    requires StrictTotal(less) && IsLeast(least, s, less)
    ensures Sorted(s, less) == [least] + Sorted(s - {least}, less)
  {
    assert least == Least(s, less) by {
      hide Sorted;
      assert IsLeast(Least(s, less), s, less);
    }
  }

  lemma Assoc<T>(a: seq<T>, b: seq<T>, c: seq<T>)
    ensures a + (b + c) == (a + b) + c
  {
  }

  lemma ListedStep<T(!new)>(r: seq<T>, rest: set<T>, s: set<T>, less: (T, T) -> bool, least: T)
    requires StrictTotal(less) && IsLeast(least, rest, less) && Lists(r, rest, s, less)
    ensures Lists(r + [least], rest - {least}, s, less)
  {
    hide StrictTotal, IsLeast, Sorted;
    SortedStep(rest, less, least);
    Assoc(r, [least], Sorted(rest - {least}, less));
  }

  /** Selects the least remaining element until none is left. */
  method InOrder<T(==, !new)>(s: set<T>, less: (T, T) -> bool) returns (r: seq<T>)
    requires StrictTotal(less)
    ensures r == Sorted(s, less)
  {
    hide StrictTotal, Lists;
    r := [];
    var rest := s;
    assert Lists(r, rest, s, less) by { ListedStart(s, less); }
    while rest != {}
      invariant Lists(r, rest, s, less)
      decreases |rest|
    {
      var least := PickLeast(rest, less);
      ListedStep(r, rest, s, less, least);
      rest := rest - {least};
      r := r + [least];
    }
    ListedEnd(r, s, less);
  }

  lemma ListedStart<T(!new)>(s: set<T>, less: (T, T) -> bool)
    requires StrictTotal(less)
    ensures Lists([], s, s, less)
  {
  }

  lemma ListedEnd<T(!new)>(r: seq<T>, s: set<T>, less: (T, T) -> bool)
    requires StrictTotal(less) && Lists(r, {}, s, less)
    ensures r == Sorted(s, less)
  {
  }

  // ---------------------------------------------------------------- strings

  /** Strings compare by their first differing character, a prefix being smaller. */
  predicate Less(a: string, b: string) {
    if b == [] then false
    else if a == [] then true
    else if a[0] != b[0] then a[0] < b[0]
    else Less(a[1..], b[1..])
  }

  lemma {:induction false} LessIrreflexive(a: string)
    ensures !Less(a, a)
  {
    if a != [] {
      LessIrreflexive(a[1..]);
    }
  }

  lemma {:induction false} LessTotal(a: string, b: string)
    ensures Less(a, b) || Less(b, a) || a == b
  {
    if a != [] && b != [] && a[0] == b[0] {
      LessTotal(a[1..], b[1..]);
      assert a == [a[0]] + a[1..] && b == [b[0]] + b[1..];
    }
  }

  lemma {:induction false} LessTransitive(a: string, b: string, c: string)
    requires Less(a, b) && Less(b, c)
    ensures Less(a, c)
  {
    if a != [] && a[0] == b[0] == c[0] {
      LessTransitive(a[1..], b[1..], c[1..]);
    }
  }

  lemma LessStrictTotal()
    ensures StrictTotal(Less)
  {
    forall a: string
      ensures !Less(a, a)
    {
      LessIrreflexive(a);
    }
    forall a: string, b: string
      ensures Less(a, b) || Less(b, a) || a == b
    {
      LessTotal(a, b);
    }
    forall a: string, b: string, c: string | Less(a, b) && Less(b, c)
      ensures Less(a, c)
    {
      LessTransitive(a, b, c);
    }
  }

  /** The keys of a map keyed by strings, in iteration order. */
  ghost function Keys(s: set<string>): (r: seq<string>)
    ensures |r| == |s|
    ensures forall x :: x in r <==> x in s
    ensures forall i, j :: 0 <= i < j < |r| ==> Less(r[i], r[j]) && r[i] != r[j]
  {
    LessStrictTotal();
    Sorted(s, Less)
  }

  method KeysInOrder(s: set<string>) returns (r: seq<string>)
    ensures r == Keys(s)
  {
    LessStrictTotal();
    r := InOrder(s, Less);
  }
}
