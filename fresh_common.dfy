/** What the two customer fresh-food ratio reports share: the 上月/本月 tag,
    the merge of the two months' orders, the first-match salesman lookup,
    per-customer tables joined onto a frame, and `fillna(0)`. */
module FreshCommon {
  import opened Cells
  import opened SeqUtil
  import opened Numbers
  import opened Text
  import opened BaseExcel
  import opened Sorting

  /** The column that tells the two months apart, and its two values. */
  const MONTH := "月份"
  const LAST := "上月"
  const THIS := "本月"

  /** The three fresh categories of 一级分类. */
  const VEGETABLES := "新鲜蔬菜"
  const MEAT := "鲜肉类"
  const BEAN := "豆制品"
  const FRESH_CATEGORIES: seq<string> := [VEGETABLES, MEAT, BEAN]

  /** The sales column of a category in a month, `f'{month}{category}销售额'`. */
  function SalesName(month: string, category: string): string {
    month + category + "销售额"
  }

  lemma SalesNames()
    ensures SalesName(THIS, VEGETABLES) == "本月新鲜蔬菜销售额" && SalesName(LAST, VEGETABLES) == "上月新鲜蔬菜销售额"
    ensures SalesName(THIS, MEAT) == "本月鲜肉类销售额" && SalesName(LAST, MEAT) == "上月鲜肉类销售额"
    ensures SalesName(THIS, BEAN) == "本月豆制品销售额" && SalesName(LAST, BEAN) == "上月豆制品销售额"
  {
  }

  /** The report columns both versions compute, and the ratio columns. */
  const ACTIVE_THIS := "本月总日活"
  const ACTIVE_LAST := "上月总日活"
  const FRESH_THIS := "本月生鲜销售额"
  const FRESH_LAST := "上月生鲜销售额"
  const ACTIVE_RATIO := "总日活环比"
  const VEGETABLES_RATIO := "蔬菜销售额环比"
  const MEAT_RATIO := "鲜肉销售额环比"
  const BEAN_RATIO := "豆制品销售额环比"
  const FRESH_RATIO := "生鲜销售额环比"

  const RATIOS: seq<string> := [ACTIVE_RATIO, VEGETABLES_RATIO, MEAT_RATIO, BEAN_RATIO, FRESH_RATIO]

  // ------------------------------------------------------------------ merge

  /** `df['月份'] = month`: every row is tagged with its month. */
  function Tagged(f: Frame, month: string): (r: Frame)
    ensures |r.rows| == |f.rows|
    ensures forall c :: c in r.columns <==> c in f.columns || c == MONTH
    ensures forall i :: 0 <= i < |f.rows| ==> Get(r.rows[i], MONTH) == Text(month)
    ensures forall i, c :: 0 <= i < |f.rows| && c != MONTH ==> Get(r.rows[i], c) == Get(f.rows[i], c)
  {
    AssignColumn(f, MONTH, seq(|f.rows|, i => Text(month)))
  }

  lemma TaggedMonth(f: Frame, month: string, x: Row)
    requires x in Tagged(f, month).rows
    ensures Get(x, MONTH) == Text(month)
  {
    var i :| 0 <= i < |Tagged(f, month).rows| && Tagged(f, month).rows[i] == x;
  }

  /** A row is kept when its 客户名称 is present and, if it is text, not
      blank once stripped (`dropna` and then `.str.strip() != ''`, which
      keeps non-text names). */
  predicate HasCustomer(r: Row) {
    var c := Get(r, CUSTOMER);
    c != Null && !(c.Text? && Strip(c.s) == "")
  }

  /** `pd.concat` lines the columns up: those of the first frame, then the
      new ones of the second. Assigning the columns `b` to a frame with
      columns `a` extends them the same way. */
  function ConcatColumns(a: seq<string>, b: seq<string>): (r: seq<string>)
    ensures forall c :: c in r <==> c in a || c in b
  {
    a + Filter(b, c => c !in a)
  }

  /** The tagged rows of both months that name a customer, in input order. */
  function Candidates(last: Frame, current: Frame): seq<Row> {
    Filter(Tagged(last, LAST).rows + Tagged(current, THIS).rows, HasCustomer)
  }

  /** `merge_order_data`: both months tagged and concatenated, rows without
      a customer dropped, the rest sorted latest shipment first. */
  function MergeOrder(last: Frame, current: Frame): (r: Frame)
    ensures MONTH in r.columns
    ensures |r.rows| <= |last.rows| + |current.rows|
    ensures forall x :: x in r.rows ==> HasCustomer(x) && (Get(x, MONTH) == Text(LAST) || Get(x, MONTH) == Text(THIS))
    ensures TimeDescending(r.rows, TIME)
    ensures multiset(r.rows) == multiset(Candidates(last, current))
  {
    var a := Tagged(last, LAST);
    var b := Tagged(current, THIS);
    var sorted := SortByTimeDescending(Candidates(last, current), TIME);
    CandidatesTagged(last, current, sorted);
    Frame(ConcatColumns(a.columns, b.columns), sorted)
  }

  lemma CandidatesTagged(last: Frame, current: Frame, rows: seq<Row>)
    requires multiset(rows) == multiset(Candidates(last, current))
    ensures forall x :: x in rows ==> HasCustomer(x) && (Get(x, MONTH) == Text(LAST) || Get(x, MONTH) == Text(THIS))
  {
    forall x | x in rows
      ensures HasCustomer(x) && (Get(x, MONTH) == Text(LAST) || Get(x, MONTH) == Text(THIS))
    {
      assert x in multiset(Candidates(last, current));
      if x in Tagged(last, LAST).rows {
        TaggedMonth(last, LAST, x);
      } else {
        TaggedMonth(current, THIS, x);
      }
    }
  }

  predicate InMonth(r: Row, month: string) {
    Get(r, MONTH) == Text(month)
  }

  /** `df[df['月份'] == month]`. */
  function PeriodRows(rows: seq<Row>, month: string): (r: seq<Row>)
    ensures forall x :: x in r <==> x in rows && InMonth(x, month)
  {
    Filter(rows, x => InMonth(x, month))
  }

  lemma PeriodRowsCount(rows: seq<Row>, month: string, x: Row)
    ensures multiset(PeriodRows(rows, month))[x] == if InMonth(x, month) then multiset(rows)[x] else 0
  {
    FilterMultiset(rows, x => InMonth(x, month), x);
  }

  lemma CandidatesCount(last: Frame, current: Frame, x: Row)
    ensures multiset(Candidates(last, current))[x]
            == if HasCustomer(x) then multiset(Tagged(last, LAST).rows)[x] + multiset(Tagged(current, THIS).rows)[x] else 0
  {
    FilterMultiset(Tagged(last, LAST).rows + Tagged(current, THIS).rows, HasCustomer, x);
  }

  lemma MonthRowsCount(f: Frame, month: string, other: string, x: Row)
    requires InMonth(x, other) && month != other
    ensures multiset(Tagged(f, month).rows)[x] == 0
  {
    if x in Tagged(f, month).rows {
      TaggedMonth(f, month, x);
    }
  }

  lemma MergedCount(last: Frame, current: Frame, x: Row)
    ensures multiset(PeriodRows(MergeOrder(last, current).rows, LAST))[x] == multiset(Filter(Tagged(last, LAST).rows, HasCustomer))[x]
    ensures multiset(PeriodRows(MergeOrder(last, current).rows, THIS))[x] == multiset(Filter(Tagged(current, THIS).rows, HasCustomer))[x]
  {
    var merged := MergeOrder(last, current).rows;
    var a := Tagged(last, LAST).rows;
    var b := Tagged(current, THIS).rows;
    assert multiset(merged) == multiset(Candidates(last, current));
    PeriodRowsCount(merged, LAST, x);
    PeriodRowsCount(merged, THIS, x);
    CandidatesCount(last, current, x);
    FilterMultiset(a, HasCustomer, x);
    FilterMultiset(b, HasCustomer, x);
    if !InMonth(x, LAST) && x in a {
      TaggedMonth(last, LAST, x);
    }
    if !InMonth(x, THIS) && x in b {
      TaggedMonth(current, THIS, x);
    }
  }

  /** No order is lost, invented or moved to the other month: the merged
      rows of each month are that month's rows with a customer, tagged. */
  lemma MergeOrderMonths(last: Frame, current: Frame)
    ensures multiset(PeriodRows(MergeOrder(last, current).rows, LAST)) == multiset(Filter(Tagged(last, LAST).rows, HasCustomer))
    ensures multiset(PeriodRows(MergeOrder(last, current).rows, THIS)) == multiset(Filter(Tagged(current, THIS).rows, HasCustomer))
  {
    forall x {
      MergedCount(last, current, x);
    }
  }

  // ------------------------------------------------------------- customers

  function CustomerOf(r: Row): Cell {
    Get(r, CUSTOMER)
  }

  /** `series.unique()` of the customer column. */
  function Customers(rows: seq<Row>): (ks: seq<Cell>)
    ensures NoDuplicates(ks)
    ensures forall k :: k in ks <==> exists r :: r in rows && CustomerOf(r) == k
  {
    MapMembers(rows);
    Distinct(Map(rows, CustomerOf))
  }

  lemma MapMembers(rows: seq<Row>)
    ensures forall k :: k in Map(rows, CustomerOf) <==> exists r :: r in rows && CustomerOf(r) == k
  {
    forall k
      ensures k in Map(rows, CustomerOf) <==> exists r :: r in rows && CustomerOf(r) == k
    {
      MapMember(rows, CustomerOf, k);
    }
  }

  /** The groups of `groupby('客户名称')`: the customers that are present. */
  function GroupCustomers(rows: seq<Row>): (ks: seq<Cell>)
    ensures NoDuplicates(ks)
    ensures forall k :: k in ks <==> k != Null && exists r :: r in rows && CustomerOf(r) == k
  {
    FilterNoDuplicates(Customers(rows), k => k != Null);
    Filter(Customers(rows), k => k != Null)
  }

  /** The rows of one customer, `df[df['客户名称'] == k]`, in order. */
  function CustomerRows(rows: seq<Row>, k: Cell): (r: seq<Row>)
    ensures forall x :: x in r <==> x in rows && CustomerOf(x) == k
  {
    Filter(rows, x => CustomerOf(x) == k)
  }

  /** The position of the first row of customer `k`, `|rows|` if none. */
  function FirstRow(rows: seq<Row>, k: Cell): (j: nat)
    ensures j <= |rows|
    ensures j < |rows| ==> CustomerOf(rows[j]) == k
    ensures forall i :: 0 <= i < j ==> CustomerOf(rows[i]) != k
  {
    if rows == [] then 0
    else if CustomerOf(rows[0]) == k then 0
    else 1 + FirstRow(rows[1..], k)
  }

  /** `df[df['客户名称'] == k].iloc[0]['业务员']`: the 业务员 of the first row
      of customer `k`, if it has any row. */
  function FirstSalesman(rows: seq<Row>, k: Cell): (s: Option<Cell>)
    ensures s.Some? <==> exists j :: 0 <= j < |rows| && CustomerOf(rows[j]) == k
    ensures s.Some? ==> s.value == Get(rows[FirstRow(rows, k)], SALESMAN)
  {
    var j := FirstRow(rows, k);
    if j < |rows| then Some(Get(rows[j], SALESMAN)) else None
  }

  /** In rows sorted latest first, the first row of a customer is a latest
      shipment of that customer: no row of the customer has a later time. */
  lemma FirstSalesmanIsLatest(rows: seq<Row>, k: Cell, j': int)
    requires TimeDescending(rows, TIME)
    requires 0 <= j' < |rows| && CustomerOf(rows[j']) == k && Get(rows[j'], TIME).Time?
    ensures FirstRow(rows, k) < |rows|
    ensures Get(rows[FirstRow(rows, k)], TIME).Time? && TimeLe(Get(rows[j'], TIME).t, Get(rows[FirstRow(rows, k)], TIME).t)
  {
    var j := FirstRow(rows, k);
    TimeLeTotalOrder(Get(rows[j'], TIME).t, Get(rows[j'], TIME).t, Get(rows[j'], TIME).t);
  }

  predicate InCategory(r: Row, category: string) {
    Get(r, CATEGORY) == Text(category)
  }

  /** `df[df['一级分类'] == category]`. */
  function CategoryRows(rows: seq<Row>, category: string): (r: seq<Row>)
    ensures forall x :: x in r <==> x in rows && InCategory(x, category)
  {
    Filter(rows, x => InCategory(x, category))
  }

  // ---------------------------------------------------------------- tables

  /** A per-customer table: `groupby('客户名称')` results after
      `reset_index`, keyed by customer. */
  type Table = map<Cell, real>

  /** The value a left merge on 客户名称 brings in: missing (NaN) for a
      customer the table lacks. */
  function Lookup(t: Table, k: Cell): Cell {
    if k in t then Num(t[k]) else Null
  }

  /** The 实际金额 of one row as `sum` sees it. */
  function AmountOf(r: Row): real {
    Amount(Get(r, AMOUNT))
  }

  /** The total 实际金额 of customer `k`'s rows. */
  function CustomerAmount(rows: seq<Row>, k: Cell): real {
    SumOf(CustomerRows(rows, k), AmountOf)
  }

  /** A customer without rows has a total of 0. */
  lemma CustomerAmountAbsent(rows: seq<Row>, k: Cell)
    requires forall r :: r in rows ==> CustomerOf(r) != k
    ensures CustomerAmount(rows, k) == 0.0
  {
    FilterNone(rows, x => CustomerOf(x) == k);
  }

  /** A one-column frame indexed by customer, as `rename` leaves it: the
      column's name and its value per customer. */
  datatype Named = Named(name: string, values: Table)

  /** `result.merge(table, on='客户名称', how='left')` for a table with one
      value column `name`: the rows stay in order and gain the customer's
      value, missing where the table lacks the customer. */
  function JoinTable(f: Frame, name: string, t: Table): (r: Frame)
    ensures r.columns == if name in f.columns then f.columns else f.columns + [name]
    ensures |r.rows| == |f.rows|
    ensures forall i :: 0 <= i < |f.rows| ==> Get(r.rows[i], name) == Lookup(t, CustomerOf(f.rows[i]))
    ensures forall i, c :: 0 <= i < |f.rows| && c != name ==> Get(r.rows[i], c) == Get(f.rows[i], c)
  {
    AssignColumn(f, name, seq(|f.rows|, i requires 0 <= i < |f.rows| => Lookup(t, CustomerOf(f.rows[i]))))
  }

  // ----------------------------------------------------------------- fillna

  function FillCell(c: Cell): Cell {
    if c == Null then Num(0.0) else c
  }

  function FillRow(r: Row, columns: seq<string>): Row {
    map c | c in columns :: FillCell(Get(r, c))
  }

  /** `fillna(0)`: every missing cell of a column becomes 0, nothing else
      changes, and no column has a missing cell afterwards. */
  function FillNa(f: Frame): (r: Frame)
    ensures r.columns == f.columns && |r.rows| == |f.rows|
    ensures forall i, c :: 0 <= i < |f.rows| && c in f.columns ==>
              Get(r.rows[i], c) != Null
              && (Get(f.rows[i], c) != Null ==> Get(r.rows[i], c) == Get(f.rows[i], c))
              && (Get(f.rows[i], c) == Null ==> Get(r.rows[i], c) == Num(0.0))
  {
    Frame(f.columns, Map(f.rows, r => FillRow(r, f.columns)))
  }

  // ------------------------------------------------------------ latest time

  function TimesIn(rows: seq<Row>): (ts: seq<Timestamp>)
    ensures forall t :: t in ts <==> exists r :: r in rows && Get(r, TIME) == Time(t)
    ensures forall r :: r in rows && Get(r, TIME).Time? ==> Get(r, TIME).t in ts
  {
    if rows == [] then []
    else
      assert forall r :: r in rows <==> r == rows[0] || r in rows[1..];
      (if Get(rows[0], TIME).Time? then [Get(rows[0], TIME).t] else []) + TimesIn(rows[1..])
  }

  lemma {:induction false} TimesInLength(rows: seq<Row>)
    ensures |TimesIn(rows)| <= |rows|
  {
    if rows != [] {
      TimesInLength(rows[1..]);
    }
  }

  lemma LatestStep(a: Timestamp, t: Timestamp, rest: seq<Timestamp>)
    requires forall u :: u in rest ==> TimeLe(u, t)
    ensures TimeLe(a, a) && TimeLe(t, t)
    ensures TimeLe(t, a) ==> forall u :: u in rest ==> TimeLe(u, a)
    ensures !TimeLe(t, a) ==> TimeLe(a, t)
  {
    TimeLeTotalOrder(a, t, a);
    TimeLeTotalOrder(t, t, t);
    forall u | u in rest
      ensures TimeLe(t, a) ==> TimeLe(u, a)
    {
      TimeLeTotalOrder(u, t, a);
    }
  }

  /** The latest timestamp of a list, if there is one. */
  function Latest(ts: seq<Timestamp>): (m: Option<Timestamp>)
    ensures m.None? <==> ts == []
    ensures m.Some? ==> m.value in ts && forall t :: t in ts ==> TimeLe(t, m.value)
  {
    if ts == [] then None
    else
      assert forall t :: t in ts <==> t == ts[0] || t in ts[1..];
      match Latest(ts[1..])
      case None =>
        TimeLeTotalOrder(ts[0], ts[0], ts[0]);
        Some(ts[0])
      case Some(t) =>
        LatestStep(ts[0], t, ts[1..]);
        if TimeLe(t, ts[0]) then Some(ts[0]) else Some(t)
  }

  /** `df['发货时间'].max()`: the latest shipment time, `NaT` (None) when no
      row has one. */
  function LatestShipment(rows: seq<Row>): (m: Option<Timestamp>)
    ensures m.None? <==> forall r :: r in rows ==> !Get(r, TIME).Time?
    ensures m.Some? ==> (exists r :: r in rows && Get(r, TIME) == Time(m.value))
                        && forall r :: r in rows && Get(r, TIME).Time? ==> TimeLe(Get(r, TIME).t, m.value)
  {
    Latest(TimesIn(rows))
  }
}
