/** `sort_values(column, ascending=False)` on the rows of a frame: an
    insertion sort by a total preorder, with missing times last. */
module Sorting {
  import opened Cells
  import opened BaseExcel
  import opened SeqUtil

  predicate SortedBy<T>(s: seq<T>, le: (T, T) -> bool) {
    forall i, j :: 0 <= i < j < |s| ==> le(s[i], s[j])
  }

  ghost predicate TotalPreorder<T(!new)>(le: (T, T) -> bool) {
    (forall a, b :: le(a, b) || le(b, a))
    && (forall a, b, c :: le(a, b) && le(b, c) ==> le(a, c))
  }

  /** `x` placed before the first element it does not come after. */
  function Insert<T>(x: T, s: seq<T>, le: (T, T) -> bool): (r: seq<T>)
    ensures multiset(r) == multiset(s) + multiset{x}
    ensures |r| == |s| + 1
  {
    if s == [] then [x]
    else if le(x, s[0]) then [x] + s
    else
      assert s == [s[0]] + s[1..];
      [s[0]] + Insert(x, s[1..], le)
  }

  /** A stable sort: elements that tie keep their input order. */
  function SortBy<T>(s: seq<T>, le: (T, T) -> bool): (r: seq<T>)
    ensures multiset(r) == multiset(s)
    ensures |r| == |s|
  {
    if s == [] then []
    else
      assert s == [s[0]] + s[1..];
      Insert(s[0], SortBy(s[1..], le), le)
  }

  lemma {:induction false} InsertSorted<T(!new)>(x: T, s: seq<T>, le: (T, T) -> bool)
    requires TotalPreorder(le) && SortedBy(s, le)
    ensures SortedBy(Insert(x, s, le), le)
  {
    if s != [] {
      HeadFirst(s, le);
      if le(x, s[0]) {
        forall y | y in s
          ensures le(x, y)
        {
          assert y == s[0] || le(s[0], y);
        }
        ConsSorted(x, s, le);
      } else {
        var rest := s[1..];
        InsertSorted(x, rest, le);
        InsertMembers(x, rest, le);
        forall y | y in Insert(x, rest, le)
          ensures le(s[0], y)
        {
          assert y == x || y in rest;
        }
        ConsSorted(s[0], Insert(x, rest, le), le);
      }
    }
  }

  /** The rest of a sorted sequence is sorted and comes after its head. */
  lemma HeadFirst<T(!new)>(s: seq<T>, le: (T, T) -> bool)
    requires TotalPreorder(le) && SortedBy(s, le) && s != []
    ensures SortedBy(s[1..], le)
    ensures forall y :: y in s ==> y == s[0] || le(s[0], y)
    ensures forall y :: y in s[1..] ==> le(s[0], y)
  {
    forall y | y in s
      ensures y == s[0] || le(s[0], y)
    {
      var k :| 0 <= k < |s| && s[k] == y;
    }
    forall i, j | 0 <= i < j < |s[1..]|
      ensures le(s[1..][i], s[1..][j])
    {
      assert s[1..][i] == s[i + 1] && s[1..][j] == s[j + 1];
    }
    forall y | y in s[1..]
      ensures le(s[0], y)
    {
      var k :| 0 <= k < |s[1..]| && s[1..][k] == y;
      assert s[k + 1] == y;
    }
  }

  /** An element inserted into a sequence is the element or one of the
      sequence's. */
  lemma InsertMembers<T>(x: T, s: seq<T>, le: (T, T) -> bool)
    ensures forall y :: y in Insert(x, s, le) ==> y == x || y in s
  {
    forall y | y in Insert(x, s, le)
      ensures y == x || y in s
    {
      assert y in multiset(Insert(x, s, le));
    }
  }

  /** A sorted sequence after an element that comes before all of it. */
  lemma ConsSorted<T>(a: T, t: seq<T>, le: (T, T) -> bool)
    requires SortedBy(t, le) && forall y :: y in t ==> le(a, y)
    ensures SortedBy([a] + t, le)
  {
    var r := [a] + t;
    forall i, j | 0 <= i < j < |r|
      ensures le(r[i], r[j])
    {
      if i == 0 {
        assert r[j] == t[j - 1] && t[j - 1] in t;
      } else {
        assert r[i] == t[i - 1] && r[j] == t[j - 1];
      }
    }
  }

  /** The sorted rows are in order and are a rearrangement of the input. */
  lemma {:induction false} SortBySorted<T(!new)>(s: seq<T>, le: (T, T) -> bool)
    requires TotalPreorder(le)
    ensures SortedBy(SortBy(s, le), le)
    ensures multiset(SortBy(s, le)) == multiset(s)
  {
    if s != [] {
      SortBySorted(s[1..], le);
      InsertSorted(s[0], SortBy(s[1..], le), le);
    }
  }

  /** Keeping some elements of a sorted sequence keeps it sorted. */
  lemma {:induction false} FilterSorted<T(!new)>(s: seq<T>, p: T -> bool, le: (T, T) -> bool)
    requires SortedBy(s, le)
    ensures SortedBy(Filter(s, p), le)
  {
    if s != [] {
      var rest := s[1..];
      assert SortedBy(rest, le) by {
        assert forall i :: 0 <= i < |rest| ==> rest[i] == s[i + 1];
      }
      FilterSorted(rest, p, le);
      forall y | y in Filter(rest, p)
        ensures le(s[0], y)
      {
        var k :| 0 <= k < |rest| && rest[k] == y;
        assert s[k + 1] == y;
      }
      if p(s[0]) {
        ConsSorted(s[0], Filter(rest, p), le);
      }
    }
  }

  /** Python's `<=` on strings: character by character by code point, a
      prefix before any longer string it starts. */
  predicate StringLe(a: string, b: string) {
    a == [] || (b != [] && (a[0] < b[0] || (a[0] == b[0] && StringLe(a[1..], b[1..]))))
  }

  lemma {:induction false} StringLeTotal(a: string, b: string)
    ensures StringLe(a, b) || StringLe(b, a)
  {
    if a != [] && b != [] && a[0] == b[0] {
      StringLeTotal(a[1..], b[1..]);
    }
  }

  lemma {:induction false} StringLeTransitive(a: string, b: string, c: string)
    requires StringLe(a, b) && StringLe(b, c)
    ensures StringLe(a, c)
  {
    if a != [] && a[0] == b[0] && b[0] == c[0] {
      StringLeTransitive(a[1..], b[1..], c[1..]);
    }
  }

  /** Two strings each `<=` the other are equal. */
  lemma {:induction false} StringLeAntisymmetric(a: string, b: string)
    requires StringLe(a, b) && StringLe(b, a)
    ensures a == b
  {
    if a != [] {
      StringLeAntisymmetric(a[1..], b[1..]);
      assert a == [a[0]] + a[1..] && b == [b[0]] + b[1..];
    }
  }

  lemma StringLeTotalPreorder()
    ensures TotalPreorder(StringLe)
  {
    forall a, b
      ensures StringLe(a, b) || StringLe(b, a)
    {
      StringLeTotal(a, b);
    }
    forall a, b, c | StringLe(a, b) && StringLe(b, c)
      ensures StringLe(a, c)
    {
      StringLeTransitive(a, b, c);
    }
  }

  /** Descending order of the time column, missing times last (pandas'
      `na_position='last'`). Only `Time` cells are times; anything else has
      been coerced to a missing time. */
  predicate LaterOrTie(col: string, a: Row, b: Row) {
    match (Get(a, col), Get(b, col))
    case (Time(x), Time(y)) => TimeLe(y, x)
    case (Time(_), _) => true
    case (_, Time(_)) => false
    case (_, _) => true
  }

  lemma LaterOrTieTotalPreorder(col: string)
    ensures TotalPreorder((a, b) => LaterOrTie(col, a, b))
  {
    forall a: Row, b: Row, c: Row
      ensures LaterOrTie(col, a, b) || LaterOrTie(col, b, a)
      ensures LaterOrTie(col, a, b) && LaterOrTie(col, b, c) ==> LaterOrTie(col, a, c)
    {
      match (Get(a, col), Get(b, col), Get(c, col))
      case (Time(x), Time(y), Time(z)) =>
        TimeLeTotalOrder(z, y, x);
        TimeLeTotalOrder(x, y, z);
      case _ =>
    }
  }

  /** Each row with a time comes after rows with times at least as late. */
  predicate TimeDescending(rows: seq<Row>, col: string) {
    forall i, j :: 0 <= i < j < |rows| && Get(rows[j], col).Time? ==>
      Get(rows[i], col).Time? && TimeLe(Get(rows[j], col).t, Get(rows[i], col).t)
  }

  lemma LaterOrTieDescending(rows: seq<Row>, col: string)
    requires SortedBy(rows, (a, b) => LaterOrTie(col, a, b))
    ensures TimeDescending(rows, col)
  {
    forall i, j | 0 <= i < j < |rows| && Get(rows[j], col).Time?
      ensures Get(rows[i], col).Time? && TimeLe(Get(rows[j], col).t, Get(rows[i], col).t)
    {
      assert LaterOrTie(col, rows[i], rows[j]);
    }
  }

  /** `sort_values(col, ascending=False)`: a rearrangement of the rows, latest
      time first, missing times last. */
  function SortByTimeDescending(rows: seq<Row>, col: string): (r: seq<Row>)
    ensures multiset(r) == multiset(rows) && |r| == |rows|
    ensures TimeDescending(r, col)
  {
    LaterOrTieTotalPreorder(col);
    SortBySorted(rows, (a, b) => LaterOrTie(col, a, b));
    LaterOrTieDescending(SortBy(rows, (a, b) => LaterOrTie(col, a, b)), col);
    SortBy(rows, (a, b) => LaterOrTie(col, a, b))
  }

  /** Descending order of a numeric column: `sort_values(col, ascending=False)`
      on a column that holds numbers only. */
  predicate LargerOrTie(col: string, a: Row, b: Row) {
    Amount(Get(b, col)) <= Amount(Get(a, col))
  }

  lemma LargerOrTieTotalPreorder(col: string)
    ensures TotalPreorder((a, b) => LargerOrTie(col, a, b))
  {
  }

  predicate ValueDescending(rows: seq<Row>, col: string) {
    forall i, j :: 0 <= i < j < |rows| ==> Amount(Get(rows[j], col)) <= Amount(Get(rows[i], col))
  }

  function SortByValueDescending(rows: seq<Row>, col: string): (r: seq<Row>)
    ensures multiset(r) == multiset(rows) && |r| == |rows|
    ensures ValueDescending(r, col)
  {
    LargerOrTieTotalPreorder(col);
    SortBySorted(rows, (a, b) => LargerOrTie(col, a, b));
    var s := SortBy(rows, (a, b) => LargerOrTie(col, a, b));
    assert forall i, j :: 0 <= i < j < |s| ==> LargerOrTie(col, s[i], s[j]);
    s
  }
}
