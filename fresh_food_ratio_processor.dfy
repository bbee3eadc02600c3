/** The newer customer fresh-food ratio report (`FreshFoodRatioProcessor`):
    per customer, this month's and last month's active days and sales of the
    three fresh categories, their roll-up, and the percentage change of each. */
module FreshFoodRatio {
  import opened Cells
  import opened SeqUtil
  import opened Numbers
  import opened BaseExcel
  import opened ColumnOrder
  import opened FreshCommon
  import opened Sorting

  // ------------------------------------------------------------------ ratio

  /** `calculate_ratio`: the percentage change from `last` to `current`,
      rounded to two places; 0 when there is no baseline. */
  function CalculateRatio(current: real, last: real): real {
    if last == 0.0 then 0.0 else Round((current - last) / last * 100.0, 2)
  }

  /** The ratio is within half a hundredth of the exact percentage change. */
  lemma CalculateRatioBound(current: real, last: real)
    ensures last == 0.0 ==> CalculateRatio(current, last) == 0.0
    ensures last != 0.0 ==> -0.005 <= CalculateRatio(current, last) - (current - last) / last * 100.0 <= 0.005
  {
    if last != 0.0 {
      RoundError((current - last) / last * 100.0, 2);
      assert Pow10(2) == 100;
    }
  }

  lemma CalculateRatioExamples()
    ensures CalculateRatio(120.0, 100.0) == 20.0
    ensures CalculateRatio(100.0, 0.0) == 0.0
    ensures CalculateRatio(80.0, 100.0) == -20.0
  {
    RoundInteger(20, 2);
    RoundInteger(-20, 2);
  }

  /** No change, no ratio: equal values give 0. */
  lemma CalculateRatioUnchanged(v: real)
    ensures CalculateRatio(v, v) == 0.0
  {
    RoundInteger(0, 2);
  }

  // ------------------------------------------------------------- order days

  /** The calendar date of a row's shipment, `None` for `NaT`. */
  function DateKey(r: Row): Option<Date> {
    if Get(r, TIME).Time? then Some(Get(r, TIME).t.date) else None
  }

  /** `len(period['发货时间'].dt.date.unique())`: the number of distinct
      shipment dates of one month, a missing time counting as one value. */
  function OrderDays(rows: seq<Row>, month: string): (n: nat)
    ensures n == |set r | r in PeriodRows(rows, month) :: DateKey(r)|
    ensures n == 0 <==> PeriodRows(rows, month) == []
  {
    DateKeysCount(PeriodRows(rows, month));
    |Distinct(Map(PeriodRows(rows, month), DateKey))|
  }

  lemma DateKeysCount(period: seq<Row>)
    ensures |Distinct(Map(period, DateKey))| == |set r | r in period :: DateKey(r)|
    ensures |Distinct(Map(period, DateKey))| == 0 <==> period == []
  {
    var keys := Map(period, DateKey);
    DistinctCount(keys);
    forall d
      ensures d in keys <==> exists r :: r in period && DateKey(r) == d
    {
      MapMember(period, DateKey, d);
    }
    assert (set d | d in keys) == set r | r in period :: DateKey(r);
    if period != [] {
      assert keys[0] in Distinct(keys);
    }
  }

  /** `calculate_order_days`: (last month's days, this month's days). */
  function CalculateOrderDays(merged: seq<Row>): (days: (nat, nat))
    ensures days.0 == OrderDays(merged, LAST) && days.1 == OrderDays(merged, THIS)
  {
    (OrderDays(merged, LAST), OrderDays(merged, THIS))
  }

  // ----------------------------------------------------------- daily active

  /** The rows of customer `k` in `month`. */
  function CustomerMonthRows(rows: seq<Row>, k: Cell, month: string): (r: seq<Row>)
    ensures forall x :: x in r <==> x in rows && CustomerOf(x) == k && InMonth(x, month)
  {
    Filter(rows, x => CustomerOf(x) == k && InMonth(x, month))
  }

  /** `nunique()` of 发货时间 over one customer's rows in one month: distinct
      timestamps, not dates, and a missing time is not counted. */
  function ActiveCount(rows: seq<Row>, k: Cell, month: string): (n: nat)
    ensures n == |set x | x in CustomerMonthRows(rows, k, month) && Get(x, TIME).Time? :: Get(x, TIME).t|
    ensures n <= |CustomerMonthRows(rows, k, month)|
  {
    TimesCount(CustomerMonthRows(rows, k, month));
    |Distinct(TimesIn(CustomerMonthRows(rows, k, month)))|
  }

  lemma TimesCount(own: seq<Row>)
    ensures |Distinct(TimesIn(own))| == |set x | x in own && Get(x, TIME).Time? :: Get(x, TIME).t|
    ensures |Distinct(TimesIn(own))| <= |own|
  {
    var ts := TimesIn(own);
    DistinctCount(ts);
    assert (set t | t in ts) == set x | x in own && Get(x, TIME).Time? :: Get(x, TIME).t;
    TimesInLength(own);
  }

  /** One month's column of the daily-active table: one entry per customer
      of the merged data. */
  function ActiveTable(rows: seq<Row>, month: string): (t: Table)
    ensures forall k :: k in t <==> k != Null && exists x :: x in rows && CustomerOf(x) == k
    ensures forall k :: k in t ==> t[k] == ActiveCount(rows, k, month) as real
  {
    map k | k in GroupCustomers(rows) :: ActiveCount(rows, k, month) as real
  }

  /** `calculate_daily_active`: (上月总日活, 本月总日活); both columns exist
      for every customer and hold 0 for a month in which it has no row. */
  function CalculateDailyActive(merged: seq<Row>): (tables: (Named, Named))
    ensures tables.0.name == ACTIVE_LAST && tables.1.name == ACTIVE_THIS
    ensures tables.0.values.Keys == tables.1.values.Keys
    ensures forall k :: k in tables.0.values ==> tables.0.values[k] == ActiveCount(merged, k, LAST) as real
    ensures forall k :: k in tables.1.values ==> tables.1.values[k] == ActiveCount(merged, k, THIS) as real
    ensures forall k :: k in tables.0.values && CustomerMonthRows(merged, k, LAST) == [] ==> tables.0.values[k] == 0.0
    ensures forall k :: k in tables.1.values && CustomerMonthRows(merged, k, THIS) == [] ==> tables.1.values[k] == 0.0
  {
    ActiveKeys(merged, LAST, THIS);
    ActiveZero(merged, LAST);
    ActiveZero(merged, THIS);
    (Named(ACTIVE_LAST, ActiveTable(merged, LAST)), Named(ACTIVE_THIS, ActiveTable(merged, THIS)))
  }

  lemma ActiveKeys(rows: seq<Row>, m0: string, m1: string)
    ensures ActiveTable(rows, m0).Keys == ActiveTable(rows, m1).Keys
  {
  }

  lemma ActiveZero(rows: seq<Row>, month: string)
    ensures forall k :: k in ActiveTable(rows, month) && CustomerMonthRows(rows, k, month) == [] ==> ActiveTable(rows, month)[k] == 0.0
  {
    forall k | k in ActiveTable(rows, month) && CustomerMonthRows(rows, k, month) == []
      ensures ActiveTable(rows, month)[k] == 0.0
    {
      assert ActiveCount(rows, k, month) <= 0;
    }
  }

  // ------------------------------------------------------------------ sales

  /** The rows of customer `k` in `category`, both months. */
  function CustomerCategoryRows(rows: seq<Row>, k: Cell, category: string): (r: seq<Row>)
    ensures forall x :: x in r <==> x in rows && CustomerOf(x) == k && InCategory(x, category)
  {
    Filter(rows, x => CustomerOf(x) == k && InCategory(x, category))
  }

  /** The 实际金额 total of customer `k` in `category` over both months. */
  function CategoryTotal(rows: seq<Row>, k: Cell, category: string): real {
    SumOf(CustomerCategoryRows(rows, k, category), AmountOf)
  }

  /** The 实际金额 total of customer `k` in `category` in `month`. */
  function CategoryAmount(rows: seq<Row>, k: Cell, category: string, month: string): real {
    SumOf(PeriodRows(CustomerCategoryRows(rows, k, category), month), AmountOf)
  }

  /** A customer without rows in a category has nothing to add up. */
  lemma CategoryAmountAbsent(rows: seq<Row>, k: Cell, category: string, month: string)
    requires forall x :: x in rows && CustomerOf(x) == k ==> !InCategory(x, category)
    ensures CategoryAmount(rows, k, category, month) == 0.0
    ensures CategoryTotal(rows, k, category) == 0.0
  {
    FilterNone(rows, x => CustomerOf(x) == k && InCategory(x, category));
  }

  function LastShare(x: Row): real {
    if InMonth(x, LAST) then AmountOf(x) else 0.0
  }

  function ThisShare(x: Row): real {
    if InMonth(x, THIS) then AmountOf(x) else 0.0
  }

  /** A customer's two monthly amounts of a category add up to its pivot
      cell, since every merged row belongs to one of the two months. */
  lemma CategoryAmountSplit(rows: seq<Row>, k: Cell, category: string)
    requires forall x :: x in rows ==> InMonth(x, LAST) || InMonth(x, THIS)
    ensures CategoryAmount(rows, k, category, LAST) + CategoryAmount(rows, k, category, THIS) == CategoryTotal(rows, k, category)
  {
    var own := CustomerCategoryRows(rows, k, category);
    SumOfFilter(own, x => InMonth(x, LAST), AmountOf, LastShare);
    SumOfFilter(own, x => InMonth(x, THIS), AmountOf, ThisShare);
    SumOfAdd(own, LastShare, ThisShare, AmountOf);
  }

  /** One month's sales table of a category: the customers with a row in the
      category, each with its amount in that month (0 if none). */
  function SalesTable(rows: seq<Row>, category: string, month: string): (t: Table)
    ensures forall k :: k in t <==> k != Null && exists x :: x in rows && CustomerOf(x) == k && InCategory(x, category)
    ensures forall k :: k in t ==> t[k] == CategoryAmount(rows, k, category, month)
  {
    var ks := GroupCustomers(CategoryRows(rows, category));
    map k | k in ks :: CategoryAmount(rows, k, category, month)
  }

  /** `calculate_sales_data`: (上月…销售额, 本月…销售额) of one category; both
      tables cover the same customers. */
  function CalculateSalesData(merged: seq<Row>, category: string): (tables: (Named, Named))
    ensures tables.0.name == SalesName(LAST, category) && tables.1.name == SalesName(THIS, category)
    ensures tables.0.values.Keys == tables.1.values.Keys
    ensures forall k :: k in tables.0.values ==> tables.0.values[k] == CategoryAmount(merged, k, category, LAST)
    ensures forall k :: k in tables.1.values ==> tables.1.values[k] == CategoryAmount(merged, k, category, THIS)
  {
    (Named(SalesName(LAST, category), SalesTable(merged, category, LAST)),
     Named(SalesName(THIS, category), SalesTable(merged, category, THIS)))
  }

  // ------------------------------------------------------------------ pivot

  predicate HasCategory(r: Row) {
    Get(r, CATEGORY).Text?
  }

  function CategoryName(r: Row): string {
    if Get(r, CATEGORY).Text? then Get(r, CATEGORY).s else ""
  }

  /** The 一级分类 values, each once, in ascending order: `pivot_table`
      sorts the labels of the columns it creates. */
  function Categories(rows: seq<Row>): (cs: seq<string>)
    ensures NoDuplicates(cs)
    ensures SortedBy(cs, StringLe)
    ensures forall c :: c in cs <==> exists x :: x in rows && Get(x, CATEGORY) == Text(c)
  {
    CategoryNamesMember(rows);
    var names := Distinct(Map(Filter(rows, HasCategory), CategoryName));
    StringLeTotalPreorder();
    SortBySorted(names, StringLe);
    var sorted := SortBy(names, StringLe);
    MultisetNoDuplicates(names, sorted);
    assert forall c :: c in sorted <==> c in names by {
      forall c
        ensures c in sorted <==> c in names
      {
        assert c in sorted <==> c in multiset(sorted);
        assert c in names <==> c in multiset(names);
      }
    }
    sorted
  }

  lemma CategoryNamesMember(rows: seq<Row>)
    ensures forall c :: c in Map(Filter(rows, HasCategory), CategoryName) <==> exists x :: x in rows && Get(x, CATEGORY) == Text(c)
  {
    var labelled := Filter(rows, HasCategory);
    forall c
      ensures c in Map(labelled, CategoryName) <==> exists x :: x in rows && Get(x, CATEGORY) == Text(c)
    {
      MapMember(labelled, CategoryName, c);
    }
  }

  lemma CategoriesCover(rows: seq<Row>)
    ensures forall x :: x in rows && HasCategory(x) ==> CategoryName(x) in Categories(rows)
  {
    forall x | x in rows && HasCategory(x)
      ensures CategoryName(x) in Categories(rows)
    {
      assert Get(x, CATEGORY) == Text(CategoryName(x));
    }
  }

  /** The index of the pivot table: the customers with a categorised row. */
  function PivotCustomers(rows: seq<Row>): (ks: seq<Cell>)
    ensures NoDuplicates(ks)
    ensures forall k :: k in ks <==> k != Null && exists x :: x in rows && CustomerOf(x) == k && HasCategory(x)
  {
    GroupCustomers(Filter(rows, HasCategory))
  }

  function PivotRow(rows: seq<Row>, k: Cell, categories: seq<string>): Row {
    (map c | c in categories :: Num(CategoryTotal(rows, k, c)))[CUSTOMER := k]
  }

  /** `pd.pivot_table(values='实际金额', index='客户名称', columns='一级分类',
      aggfunc='sum', fill_value=0).reset_index()`. */
  function PivotBase(rows: seq<Row>): Frame {
    var ks := PivotCustomers(rows);
    var cs := Categories(rows);
    Frame([CUSTOMER] + cs, seq(|ks|, i requires 0 <= i < |ks| => PivotRow(rows, ks[i], cs)))
  }

  /** A frame whose rows are the customers `ks` and whose every non-key
      column holds the customer's total of that category; `cs` are the
      categories of the rows, all of them columns. */
  ghost predicate Shaped(f: Frame, rows: seq<Row>, ks: seq<Cell>, cs: seq<string>) {
    CUSTOMER in f.columns
    && (forall c :: c in cs ==> c in f.columns)
    && |f.rows| == |ks|
    && (forall i :: 0 <= i < |ks| ==> Get(f.rows[i], CUSTOMER) == ks[i])
    && (forall i, c :: 0 <= i < |ks| && c in f.columns && c != CUSTOMER ==>
          Get(f.rows[i], c) == Num(CategoryTotal(rows, ks[i], c)))
  }

  ghost predicate PivotShaped(f: Frame, rows: seq<Row>) {
    Shaped(f, rows, PivotCustomers(rows), Categories(rows))
  }

  lemma PivotBaseShaped(rows: seq<Row>)
    ensures PivotShaped(PivotBase(rows), rows)
  {
  }

  /** `if category not in pivot.columns: pivot[category] = 0`. */
  function WithCategory(f: Frame, category: string): Frame {
    if category in f.columns then f else AssignColumn(f, category, seq(|f.rows|, _ => Num(0.0)))
  }

  function WithCategories(f: Frame, categories: seq<string>): Frame
    decreases |categories|
  {
    if categories == [] then f else WithCategories(WithCategory(f, categories[0]), categories[1..])
  }

  lemma WithCategoryShaped(f: Frame, rows: seq<Row>, ks: seq<Cell>, cs: seq<string>, category: string)
    requires Shaped(f, rows, ks, cs) && category != CUSTOMER
    requires forall x :: x in rows && HasCategory(x) ==> CategoryName(x) in cs
    ensures Shaped(WithCategory(f, category), rows, ks, cs)
    ensures forall c :: c in WithCategory(f, category).columns <==> c in f.columns || c == category
  {
    if category !in f.columns {
      forall i | 0 <= i < |ks|
        ensures CategoryTotal(rows, ks[i], category) == 0.0
      {
        CategoryAmountAbsent(rows, ks[i], category, LAST);
      }
    }
  }

  lemma {:induction false} WithCategoriesShaped(f: Frame, rows: seq<Row>, ks: seq<Cell>, cs: seq<string>, categories: seq<string>)
    requires Shaped(f, rows, ks, cs) && CUSTOMER !in categories
    requires forall x :: x in rows && HasCategory(x) ==> CategoryName(x) in cs
    ensures Shaped(WithCategories(f, categories), rows, ks, cs)
    ensures forall c :: c in WithCategories(f, categories).columns <==> c in f.columns || c in categories
    decreases |categories|
  {
    if categories != [] {
      var g := WithCategory(f, categories[0]);
      assert categories == [categories[0]] + categories[1..];
      WithCategoryShaped(f, rows, ks, cs, categories[0]);
      WithCategoriesShaped(g, rows, ks, cs, categories[1..]);
      assert WithCategories(f, categories) == WithCategories(g, categories[1..]);
    }
  }

  /** The result of `create_pivot_table_base`: one row per customer with a
      categorised row, each category column and each fresh category column
      holding that customer's total (0 for a fresh category nobody bought). */
  function PivotTable(rows: seq<Row>): (p: Frame)
    ensures PivotShaped(p, rows)
    ensures forall c :: c in p.columns <==> c == CUSTOMER || c in Categories(rows) || c in FRESH_CATEGORIES
  {
    PivotBaseShaped(rows);
    CategoriesCover(rows);
    WithCategoriesShaped(PivotBase(rows), rows, PivotCustomers(rows), Categories(rows), FRESH_CATEGORIES);
    WithCategories(PivotBase(rows), FRESH_CATEGORIES)
  }

  /** `create_pivot_table_base`, adding the missing fresh columns one by one. */
  method CreatePivotTableBase(merged: seq<Row>) returns (pivot: Frame)
    ensures pivot == PivotTable(merged)
  {
    pivot := PivotBase(merged);
    var i := 0;
    while i < |FRESH_CATEGORIES|
      invariant 0 <= i <= |FRESH_CATEGORIES|
      invariant WithCategories(pivot, FRESH_CATEGORIES[i..]) == PivotTable(merged)
    {
      var category := FRESH_CATEGORIES[i];
      assert FRESH_CATEGORIES[i..][1..] == FRESH_CATEGORIES[i + 1..];
      if category !in pivot.columns {
        pivot := AssignColumn(pivot, category, seq(|pivot.rows|, _ => Num(0.0)));
      }
      i := i + 1;
    }
  }

  // --------------------------------------------------------------- salesman

  /** `get_latest_salesman`: the 业务员 of the customer's first row of the
      merged data, '' when it has none. */
  function LatestSalesman(merged: seq<Row>, k: Cell): (s: Cell)
    ensures FirstRow(merged, k) < |merged| ==> s == Get(merged[FirstRow(merged, k)], SALESMAN)
    ensures FirstRow(merged, k) == |merged| ==> s == Text("")
  {
    match FirstSalesman(merged, k)
    case Some(s) => s
    case None => Text("")
  }

  // ------------------------------------------------------------- the report

  /** The canonical column order of `_reorder_columns`, this month first. */
  const ORDER: seq<string> := [
    CUSTOMER, SALESMAN,
    ACTIVE_THIS, ACTIVE_LAST, ACTIVE_RATIO,
    "本月新鲜蔬菜销售额", "上月新鲜蔬菜销售额", VEGETABLES_RATIO,
    "本月鲜肉类销售额", "上月鲜肉类销售额", MEAT_RATIO,
    "本月豆制品销售额", "上月豆制品销售额", BEAN_RATIO,
    FRESH_THIS, FRESH_LAST, FRESH_RATIO
  ]

  /** A category's sales tables, as `sales_data[category]` holds them. */
  datatype SalesPair = SalesPair(previous: Named, current: Named)

  /** The `sales_data` dictionary that the first loop fills. */
  function SalesData(merged: seq<Row>, categories: seq<string>): map<string, SalesPair> {
    map c | c in categories :: SalesPair(CalculateSalesData(merged, c).0, CalculateSalesData(merged, c).1)
  }

  lemma SalesDataStep(merged: seq<Row>, categories: seq<string>, i: int)
    requires 0 <= i < |categories|
    ensures SalesData(merged, categories[..i + 1])
            == SalesData(merged, categories[..i])[categories[i] := SalesPair(CalculateSalesData(merged, categories[i]).0, CalculateSalesData(merged, categories[i]).1)]
  {
    assert categories[..i + 1] == categories[..i] + [categories[i]];
  }

  /** `result.merge(table, left_on='客户名称', right_index=True, how='left')`. */
  function Merge(f: Frame, t: Named): Frame {
    JoinTable(f, t.name, t.values)
  }

  /** The two left merges of the daily-active tables, this month first. */
  function JoinActive(f: Frame, merged: seq<Row>): Frame {
    var active := CalculateDailyActive(merged);
    Merge(Merge(f, active.1), active.0)
  }

  /** The two left merges of one category's sales tables, this month first. */
  function JoinCategory(f: Frame, category: string, sales: map<string, SalesPair>): Frame
    requires category in sales
  {
    Merge(Merge(f, sales[category].current), sales[category].previous)
  }

  function JoinSales(f: Frame, categories: seq<string>, sales: map<string, SalesPair>): Frame
    requires forall c :: c in categories ==> c in sales
    decreases |categories|
  {
    if categories == [] then f else JoinSales(JoinCategory(f, categories[0], sales), categories[1..], sales)
  }

  lemma JoinSalesStep(f: Frame, categories: seq<string>, j: int, sales: map<string, SalesPair>)
    requires 0 <= j < |categories| && forall c :: c in categories ==> c in sales
    ensures JoinSales(f, categories[j..], sales)
            == JoinSales(Merge(Merge(f, sales[categories[j]].current), sales[categories[j]].previous),
                         categories[j + 1..], sales)
  {
    assert categories[j..][1..] == categories[j + 1..];
  }

  /** The pivot with every table merged in. */
  function Joined(merged: seq<Row>): Frame {
    JoinSales(JoinActive(PivotTable(merged), merged), FRESH_CATEGORIES, SalesData(merged, FRESH_CATEGORIES))
  }

  /** `a + b + c` on cells: missing if any operand is. */
  function Add3(a: Cell, b: Cell, c: Cell): (r: Cell)
    ensures r.Num? <==> a.Num? && b.Num? && c.Num?
    ensures r.Num? ==> r.x == a.x + b.x + c.x
  {
    if a.Num? && b.Num? && c.Num? then Num(a.x + b.x + c.x) else Null
  }

  function TotalsColumn(f: Frame, vegetables: string, meat: string, bean: string): seq<Cell> {
    seq(|f.rows|, i requires 0 <= i < |f.rows| =>
      Add3(Get(f.rows[i], vegetables), Get(f.rows[i], meat), Get(f.rows[i], bean)))
  }

  /** The 本月/上月生鲜销售额 columns: the sum of the three category columns. */
  function WithTotals(f: Frame): Frame {
    var t := AssignColumn(f, FRESH_THIS, TotalsColumn(f, "本月新鲜蔬菜销售额", "本月鲜肉类销售额", "本月豆制品销售额"));
    AssignColumn(t, FRESH_LAST, TotalsColumn(t, "上月新鲜蔬菜销售额", "上月鲜肉类销售额", "上月豆制品销售额"))
  }

  /** `result['业务员'] = result['客户名称'].apply(get_latest_salesman)`. */
  function WithSalesman(f: Frame, merged: seq<Row>): Frame {
    AssignColumn(f, SALESMAN, seq(|f.rows|, i requires 0 <= i < |f.rows| => LatestSalesman(merged, CustomerOf(f.rows[i]))))
  }

  /** `calculate_ratio` applied to two cells of a row: `last == 0` is decided
      first, and a missing operand otherwise makes the ratio missing. */
  function RatioCell(current: Cell, last: Cell): Cell {
    if last == Num(0.0) then Num(0.0)
    else if current.Num? && last.Num? then Num(CalculateRatio(current.x, last.x))
    else Null
  }

  /** One row after the five ratio assignments; each reads only data
      columns, so their order does not matter. */
  function RatiosOf(r: Row): Row {
    r[ACTIVE_RATIO := RatioCell(Get(r, ACTIVE_THIS), Get(r, ACTIVE_LAST))]
     [VEGETABLES_RATIO := RatioCell(Get(r, "本月新鲜蔬菜销售额"), Get(r, "上月新鲜蔬菜销售额"))]
     [MEAT_RATIO := RatioCell(Get(r, "本月鲜肉类销售额"), Get(r, "上月鲜肉类销售额"))]
     [BEAN_RATIO := RatioCell(Get(r, "本月豆制品销售额"), Get(r, "上月豆制品销售额"))]
     [FRESH_RATIO := RatioCell(Get(r, FRESH_THIS), Get(r, FRESH_LAST))]
  }

  /** The five `result.apply(... calculate_ratio ...)` columns. */
  function WithRatios(f: Frame): Frame {
    Frame(ConcatColumns(f.columns, RATIOS), Map(f.rows, RatiosOf))
  }

  /** `df[final_columns]` after `_reorder_columns`. */
  function Reordered(f: Frame): Frame {
    Frame(Reorder(ORDER, f.columns), f.rows)
  }

  /** The table before `fillna(0)`. */
  function Assembled(merged: seq<Row>): Frame {
    WithRatios(WithSalesman(WithTotals(Joined(merged)), merged))
  }

  /** The table `get_customer_diff` returns, computed from the merged rows. */
  function CustomerDiffTable(merged: seq<Row>): Frame {
    Reordered(FillNa(Assembled(merged)))
  }

  /** `strftime('%m月%d日')` of the latest shipment. */
  function DateLabel(t: Timestamp): string {
    ZeroPad(t.date.month, 2) + "月" + ZeroPad(t.date.day, 2) + "日"
  }

  datatype CustomerDiff = CustomerDiff(data: Frame, latestDate: string)

  /** `NaT.strftime` fails: no merged row has a shipment time. */
  datatype DiffError = NoShipmentTime

  /** `get_customer_diff` after the two files are read. */
  function CustomerDiffOf(last: Frame, current: Frame): Result<CustomerDiff, DiffError> {
    var merged := MergeOrder(last, current).rows;
    match LatestShipment(merged)
    case None => Err(NoShipmentTime)
    case Some(t) => Ok(CustomerDiff(CustomerDiffTable(merged), DateLabel(t)))
  }

  /** The first loop of `get_customer_diff`: `sales_data[category]` for
      each fresh category. */
  method CollectSalesData(merged: seq<Row>) returns (sales: map<string, SalesPair>)
    ensures sales == SalesData(merged, FRESH_CATEGORIES)
  {
    sales := map[];
    var i := 0;
    while i < |FRESH_CATEGORIES|
      invariant 0 <= i <= |FRESH_CATEGORIES|
      invariant sales == SalesData(merged, FRESH_CATEGORIES[..i])
    {
      var category := FRESH_CATEGORIES[i];
      var tables := CalculateSalesData(merged, category);
      SalesDataStep(merged, FRESH_CATEGORIES, i);
      sales := sales[category := SalesPair(tables.0, tables.1)];
      i := i + 1;
    }
    assert FRESH_CATEGORIES[..i] == FRESH_CATEGORIES;
  }

  /** The second loop of `get_customer_diff`: this month's and then last
      month's table of each category merged into `result`. */
  method MergeSalesData(start: Frame, sales: map<string, SalesPair>) returns (result: Frame)
    requires forall c :: c in FRESH_CATEGORIES ==> c in sales
    ensures result == JoinSales(start, FRESH_CATEGORIES, sales)
  {
    result := start;
    var j := 0;
    while j < |FRESH_CATEGORIES|
      invariant 0 <= j <= |FRESH_CATEGORIES|
      invariant JoinSales(result, FRESH_CATEGORIES[j..], sales) == JoinSales(start, FRESH_CATEGORIES, sales)
    {
      var category := FRESH_CATEGORIES[j];
      JoinSalesStep(result, FRESH_CATEGORIES, j, sales);
      result := Merge(result, sales[category].current);
      result := Merge(result, sales[category].previous);
      j := j + 1;
    }
  }

  /** `get_customer_diff` once both files are read. */
  method GetCustomerDiff(last: Frame, current: Frame) returns (r: Result<CustomerDiff, DiffError>)
    ensures r == CustomerDiffOf(last, current)
  {
    var merged := MergeOrder(last, current).rows;
    var latest := LatestShipment(merged);
    if latest.None? {
      return Err(NoShipmentTime);
    }
    var active := CalculateDailyActive(merged);
    var pivot := CreatePivotTableBase(merged);
    var sales := CollectSalesData(merged);
    var result := Merge(pivot, active.1);
    result := Merge(result, active.0);
    result := MergeSalesData(result, sales);
    result := WithTotals(result);
    result := WithSalesman(result, merged);
    result := WithRatios(result);
    result := FillNa(result);
    result := Reordered(result);
    r := Ok(CustomerDiff(result, DateLabel(latest.value)));
  }
}
