/** The earlier customer fresh-food ratio report: both months' orders
    merged, per-customer active days and category sales for each month,
    ratios of per-order-day values, `fillna(0)`, the 上月-first column
    order, and the rows sorted by this month's fresh sales. */
module LegacyFreshFood {
  import opened Cells
  import opened SeqUtil
  import opened Numbers
  import opened Text
  import opened BaseExcel
  import opened Sorting
  import opened ColumnOrder
  import opened FreshCommon

  /** `required_columns` of the processor. */
  const REQUIRED: seq<string> := [CUSTOMER, SALESMAN, TIME, AMOUNT, CATEGORY]

  // ---------------------------------------------------------------- reading

  /** `validate_columns`: validation fails exactly when some required column
      is missing. */
  function ValidateColumns(columns: seq<string>): (ok: bool)
    ensures ok <==> forall c :: c in REQUIRED ==> c in columns
  {
    var missing := MissingColumns(REQUIRED, columns);
    assert missing != [] ==> missing[0] in missing;
    missing == []
  }

  /** The column and amount steps of `read_excel_file`: a missing file
      fails, header names are stripped, a header without every required
      column fails, and 实际金额 is coerced to numbers with 0 for anything
      unparsable. The cells arrive keyed by the stripped names. */
  function ReadExcelFile(path: string, fileExists: bool, header: seq<string>, rows: seq<Row>): (r: Result<Frame, ReadError>)
    ensures !fileExists ==> r == Err(FileNotFound(path))
    ensures r.Ok? <==> fileExists && forall c :: c in REQUIRED ==> c in Map(header, Strip)
    ensures r.Err? && fileExists ==> r == Err(MissingRequiredColumns(path))
    ensures r.Ok? ==> r.value.columns == Map(header, Strip) && |r.value.rows| == |rows|
    ensures r.Ok? ==> forall i :: 0 <= i < |rows| ==>
              Get(r.value.rows[i], AMOUNT) == Num(ToNumber(Get(rows[i], AMOUNT)))
              && forall c :: c != AMOUNT ==> Get(r.value.rows[i], c) == Get(rows[i], c)
  {
    if !fileExists then Err(FileNotFound(path))
    else
      var columns := Map(header, Strip);
      if !ValidateColumns(columns) then Err(MissingRequiredColumns(path))
      else
        assert AMOUNT in REQUIRED;
        Ok(CleanedNumeric(Frame(columns, rows), AMOUNT))
  }

  // ------------------------------------------------------------------ merge

  /** Two frames that already carry 月份, concatenated, rows without a
      customer dropped, the rest sorted latest shipment first. */
  function Combined(a: Frame, b: Frame): Frame {
    Frame(ConcatColumns(a.columns, b.columns), SortByTimeDescending(Filter(a.rows + b.rows, HasCustomer), TIME))
  }

  /** `merge_order_data`: 月份 is written into the two frames the caller
      passed, which keep it; the result combines the tagged frames. The same
      frame passed twice ends up tagged 本月 only. With two frames the result
      is the merge of the two months. */
  method MergeOrderData(last: DataFrame, current: DataFrame) returns (all: Frame)
    modifies last, current
    ensures last != current ==> last.View() == Tagged(old(last.View()), LAST) && current.View() == Tagged(old(current.View()), THIS)
    ensures last == current ==> last.View() == Tagged(Tagged(old(last.View()), LAST), THIS)
    ensures all == Combined(last.View(), current.View())
    ensures last != current ==> all == MergeOrder(old(last.View()), old(current.View()))
  {
    var a := Tagged(last.View(), LAST);
    last.columns, last.rows := a.columns, a.rows;
    var b := Tagged(current.View(), THIS);
    current.columns, current.rows := b.columns, b.rows;
    all := Combined(last.View(), current.View());
  }

  // --------------------------------------------------------------- salesman

  /** One entry of the list `get_latest_salesman` builds. */
  datatype SalesmanEntry = SalesmanEntry(customer: Cell, salesman: Cell)

  /** The entries for `customers` that have records: the 业务员 of the
      first record of each, in the order of `customers`. */
  function LatestSalesmen(rows: seq<Row>, customers: seq<Cell>): seq<SalesmanEntry>
    decreases |customers|
  {
    if customers == [] then []
    else
      var k := customers[|customers| - 1];
      var records := CustomerRows(rows, k);
      LatestSalesmen(rows, customers[..|customers| - 1])
        + (if records != [] then [SalesmanEntry(k, Get(records[0], SALESMAN))] else [])
  }

  /** `get_latest_salesman`. */
  method GetLatestSalesman(rows: seq<Row>, customers: seq<Cell>) returns (entries: seq<SalesmanEntry>)
    ensures entries == LatestSalesmen(rows, customers)
  {
    entries := [];
    var i := 0;
    while i < |customers|
      invariant 0 <= i <= |customers|
      invariant entries == LatestSalesmen(rows, customers[..i])
    {
      var customer := customers[i];
      assert customers[..i + 1][..i] == customers[..i];
      var records := CustomerRows(rows, customer);
      if records != [] {
        entries := entries + [SalesmanEntry(customer, Get(records[0], SALESMAN))];
      }
      i := i + 1;
    }
    assert customers[..i] == customers;
  }

  /** The first record of a customer is the customer's first row. */
  lemma {:induction false} CustomerRowsHead(rows: seq<Row>, k: Cell)
    ensures CustomerRows(rows, k) != [] <==> FirstRow(rows, k) < |rows|
    ensures CustomerRows(rows, k) != [] ==> CustomerRows(rows, k)[0] == rows[FirstRow(rows, k)]
  {
    if rows != [] {
      var rest := CustomerRows(rows[1..], k);
      assert CustomerRows(rows, k) == (if CustomerOf(rows[0]) == k then [rows[0]] else []) + rest;
      if CustomerOf(rows[0]) != k {
        CustomerRowsHead(rows[1..], k);
      }
    }
  }

  /** An entry is listed exactly for a given customer that has a record,
      and names the 业务员 of that customer's first record. */
  lemma {:induction false} LatestSalesmenMembers(rows: seq<Row>, customers: seq<Cell>, e: SalesmanEntry)
    ensures e in LatestSalesmen(rows, customers) <==>
              e.customer in customers && CustomerRows(rows, e.customer) != []
              && e.salesman == Get(CustomerRows(rows, e.customer)[0], SALESMAN)
    decreases |customers|
  {
    if customers != [] {
      var init := customers[..|customers| - 1];
      LatestSalesmenMembers(rows, init, e);
      assert customers == init + [customers[|customers| - 1]];
    }
  }

  /** The entry of a customer names the 业务员 of its first row of the
      merged data, which is that of a latest shipment. */
  lemma LatestSalesmenFirstRow(rows: seq<Row>, customers: seq<Cell>, e: SalesmanEntry)
    requires e in LatestSalesmen(rows, customers)
    ensures FirstSalesman(rows, e.customer) == Some(e.salesman)
  {
    LatestSalesmenMembers(rows, customers, e);
    CustomerRowsHead(rows, e.customer);
  }

  /** When every customer has a record there is one entry per customer, in
      order. */
  lemma {:induction false} LatestSalesmenAll(rows: seq<Row>, customers: seq<Cell>)
    requires forall i :: 0 <= i < |customers| ==> CustomerRows(rows, customers[i]) != []
    ensures |LatestSalesmen(rows, customers)| == |customers|
    ensures forall i :: 0 <= i < |customers| ==>
              LatestSalesmen(rows, customers)[i] == SalesmanEntry(customers[i], Get(CustomerRows(rows, customers[i])[0], SALESMAN))
    decreases |customers|
  {
    if customers != [] {
      var init := customers[..|customers| - 1];
      var k := customers[|customers| - 1];
      assert forall i :: 0 <= i < |init| ==> init[i] == customers[i];
      LatestSalesmenAll(rows, init);
      var entries := LatestSalesmen(rows, init);
      assert LatestSalesmen(rows, customers) == entries + [SalesmanEntry(k, Get(CustomerRows(rows, k)[0], SALESMAN))];
    }
  }

  // ------------------------------------------------------------- pivot base

  /** The 业务员 a left merge on 客户名称 brings in: that of the first entry
      for `k`, missing when there is none. */
  function SalesmanOf(entries: seq<SalesmanEntry>, k: Cell): Cell
    decreases |entries|
  {
    if entries == [] then Null
    else if entries[0].customer == k then entries[0].salesman
    else SalesmanOf(entries[1..], k)
  }

  lemma {:induction false} SalesmanOfIndex(entries: seq<SalesmanEntry>, ks: seq<Cell>, i: int)
    requires |entries| == |ks| && NoDuplicates(ks) && 0 <= i < |ks|
    requires forall j :: 0 <= j < |ks| ==> entries[j].customer == ks[j]
    ensures SalesmanOf(entries, ks[i]) == entries[i].salesman
    decreases |ks|
  {
    if i > 0 {
      assert ks[0] != ks[i];
      SalesmanOfIndex(entries[1..], ks[1..], i - 1);
    }
  }

  datatype LegacyError =
    | NoCustomers         // `pd.DataFrame([])` has no 客户名称 to merge on
    | NoFreshSalesColumn  // `sort_values('本月生鲜销售额')` on a frame without it

  function BaseRow(k: Cell, salesman: Cell): Row {
    map[CUSTOMER := k, SALESMAN := salesman]
  }

  /** `create_pivot_table_base`: one row per customer of the merged rows in
      order of first appearance, with a 业务员 column; without rows the
      salesman list is empty and the merge fails. */
  function PivotBase(rows: seq<Row>): (r: Result<Frame, LegacyError>)
    ensures r.Err? <==> rows == []
    ensures r.Err? ==> r.error == NoCustomers
    ensures r.Ok? ==> r.value.columns == [CUSTOMER, SALESMAN] && |r.value.rows| == |Customers(rows)|
  {
    var ks := Customers(rows);
    var entries := LatestSalesmen(rows, ks);
    PivotEntries(rows);
    if entries == [] then Err(NoCustomers)
    else Ok(Frame([CUSTOMER, SALESMAN], seq(|ks|, i requires 0 <= i < |ks| => BaseRow(ks[i], SalesmanOf(entries, ks[i])))))
  }

  /** Row `i` of the pivot base is the `i`-th customer with the 业务员 of its
      first row, the latest one in rows sorted latest first. */
  lemma PivotBaseRow(rows: seq<Row>, i: int)
    requires PivotBase(rows).Ok? && 0 <= i < |Customers(rows)|
    ensures FirstRow(rows, Customers(rows)[i]) < |rows|
    ensures PivotBase(rows).value.rows[i] == BaseRow(Customers(rows)[i], Get(rows[FirstRow(rows, Customers(rows)[i])], SALESMAN))
  {
    PivotEntries(rows);
  }

  lemma PivotEntries(rows: seq<Row>)
    ensures LatestSalesmen(rows, Customers(rows)) == [] <==> rows == []
    ensures forall i :: 0 <= i < |Customers(rows)| ==>
              FirstRow(rows, Customers(rows)[i]) < |rows|
              && SalesmanOf(LatestSalesmen(rows, Customers(rows)), Customers(rows)[i]) == Get(rows[FirstRow(rows, Customers(rows)[i])], SALESMAN)
  {
    var ks := Customers(rows);
    forall i | 0 <= i < |ks|
      ensures CustomerRows(rows, ks[i]) != []
    {
      assert ks[i] in ks;
      var x :| x in rows && CustomerOf(x) == ks[i];
    }
    LatestSalesmenAll(rows, ks);
    var entries := LatestSalesmen(rows, ks);
    forall i | 0 <= i < |ks|
      ensures FirstRow(rows, ks[i]) < |rows|
      ensures SalesmanOf(entries, ks[i]) == Get(rows[FirstRow(rows, ks[i])], SALESMAN)
    {
      SalesmanOfIndex(entries, ks, i);
      CustomerRowsHead(rows, ks[i]);
    }
    if rows != [] {
      assert CustomerOf(rows[0]) in ks;
    }
  }

  /** `create_pivot_table_base`, calling `get_latest_salesman`. */
  method CreatePivotTableBase(all: seq<Row>) returns (r: Result<Frame, LegacyError>)
    ensures r == PivotBase(all)
  {
    var unique := Customers(all);
    var entries := GetLatestSalesman(all, unique);
    if entries == [] {
      return Err(NoCustomers);
    }
    r := Ok(Frame([CUSTOMER, SALESMAN], seq(|unique|, i requires 0 <= i < |unique| => BaseRow(unique[i], SalesmanOf(entries, unique[i])))));
  }

  // --------------------------------------------------------------- day counts

  function DateOf(t: Timestamp): Date {
    t.date
  }

  /** The number of distinct calendar dates among the rows' shipment times;
      rows without a time (`NaT`) are not counted. */
  function DaysOf(rows: seq<Row>): (n: nat)
    ensures n == |set x | x in rows && Get(x, TIME).Time? :: Get(x, TIME).t.date|
    ensures n <= |rows|
    ensures n == 0 <==> forall x :: x in rows ==> !Get(x, TIME).Time?
  {
    DaysCount(rows);
    |Distinct(Map(TimesIn(rows), DateOf))|
  }

  lemma DaysCount(rows: seq<Row>)
    ensures |Distinct(Map(TimesIn(rows), DateOf))| == |set x | x in rows && Get(x, TIME).Time? :: Get(x, TIME).t.date|
    ensures |Distinct(Map(TimesIn(rows), DateOf))| <= |rows|
    ensures |Distinct(Map(TimesIn(rows), DateOf))| == 0 <==> forall x :: x in rows ==> !Get(x, TIME).Time?
  {
    var ts := TimesIn(rows);
    var ds := Map(ts, DateOf);
    DistinctCount(ds);
    forall d
      ensures d in ds <==> exists t :: t in ts && DateOf(t) == d
    {
      MapMember(ts, DateOf, d);
    }
    assert (set d | d in ds) == set x | x in rows && Get(x, TIME).Time? :: Get(x, TIME).t.date;
    TimesInLength(rows);
    if x :| x in rows && Get(x, TIME).Time? {
      assert DateOf(Get(x, TIME).t) in ds;
      assert DateOf(Get(x, TIME).t) in Distinct(ds);
    }
  }

  /** `calculate_order_days`: (last month's, this month's) number of
      distinct shipment dates. `groupby` leaves out rows without a time. */
  function CalculateOrderDays(all: seq<Row>): (days: (nat, nat))
    ensures days.0 == |set x | x in PeriodRows(all, LAST) && Get(x, TIME).Time? :: Get(x, TIME).t.date|
    ensures days.1 == |set x | x in PeriodRows(all, THIS) && Get(x, TIME).Time? :: Get(x, TIME).t.date|
    ensures days.0 == 0 <==> forall x :: x in all && InMonth(x, LAST) ==> !Get(x, TIME).Time?
    ensures days.1 == 0 <==> forall x :: x in all && InMonth(x, THIS) ==> !Get(x, TIME).Time?
  {
    (DaysOf(PeriodRows(all, LAST)), DaysOf(PeriodRows(all, THIS)))
  }

  // ----------------------------------------------------------------- tables

  /** `pivot_table(index='客户名称', values='发货时间', aggfunc=lambda x:
      x.dt.date.nunique(), fill_value=0).reset_index()` over `scoped`: one
      entry per customer of those rows, its number of distinct dates. */
  function DaysTable(scoped: seq<Row>): (t: Table)
    ensures forall k :: k in t <==> k != Null && exists x :: x in scoped && CustomerOf(x) == k
    ensures forall k :: k in t ==> t[k] == DaysOf(CustomerRows(scoped, k)) as real
  {
    map k | k in GroupCustomers(scoped) :: DaysOf(CustomerRows(scoped, k)) as real
  }

  /** `pivot_table(index='客户名称', values='实际金额', aggfunc='sum',
      fill_value=0).reset_index()` over `scoped`: one entry per customer of
      those rows, the total of its 实际金额. */
  function AmountTable(scoped: seq<Row>): (t: Table)
    ensures forall k :: k in t <==> k != Null && exists x :: x in scoped && CustomerOf(x) == k
    ensures forall k :: k in t ==> t[k] == CustomerAmount(scoped, k)
  {
    map k | k in GroupCustomers(scoped) :: CustomerAmount(scoped, k)
  }

  /** `calculate_daily_active_data`: (上月总日活, 本月总日活), each over the
      rows of its month only. The day counts it is given are not used. */
  function CalculateDailyActiveData(all: seq<Row>, lastDays: nat, thisDays: nat): (tables: (Named, Named))
    ensures tables.0.name == ACTIVE_LAST && tables.1.name == ACTIVE_THIS
    ensures forall k :: k in tables.0.values ==> tables.0.values[k] <= |CustomerRows(PeriodRows(all, LAST), k)| as real
    ensures forall k :: k in tables.1.values ==> tables.1.values[k] <= |CustomerRows(PeriodRows(all, THIS), k)| as real
  {
    (Named(ACTIVE_LAST, DaysTable(PeriodRows(all, LAST))), Named(ACTIVE_THIS, DaysTable(PeriodRows(all, THIS))))
  }

  /** `calculate_sales_data`: (上月…销售额, 本月…销售额) of one category,
      each over the category's rows of its month. */
  function CalculateSalesData(all: seq<Row>, category: string): (tables: (Named, Named))
    ensures tables.0.name == SalesName(LAST, category) && tables.1.name == SalesName(THIS, category)
  {
    var scoped := CategoryRows(all, category);
    (Named(SalesName(LAST, category), AmountTable(PeriodRows(scoped, LAST))),
     Named(SalesName(THIS, category), AmountTable(PeriodRows(scoped, THIS))))
  }

  /** `一级分类.isin(fresh_categories)`. */
  predicate IsFresh(x: Row) {
    InCategory(x, VEGETABLES) || InCategory(x, MEAT) || InCategory(x, BEAN)
  }

  function FreshRows(all: seq<Row>): (r: seq<Row>)
    ensures forall x :: x in r <==> x in all && IsFresh(x)
  {
    Filter(all, IsFresh)
  }

  /** The 上月/本月生鲜销售额 tables, summed straight from the rows of the
      three fresh categories. */
  function FreshSalesData(all: seq<Row>): (tables: (Named, Named))
    ensures tables.0.name == FRESH_LAST && tables.1.name == FRESH_THIS
  {
    var scoped := FreshRows(all);
    (Named(FRESH_LAST, AmountTable(PeriodRows(scoped, LAST))), Named(FRESH_THIS, AmountTable(PeriodRows(scoped, THIS))))
  }

  // ----------------------------------------------------------- the report

  /** The value columns of `data_dict`, in its order. */
  const METRICS: seq<string> := [
    ACTIVE_LAST, ACTIVE_THIS,
    "上月新鲜蔬菜销售额", "本月新鲜蔬菜销售额",
    "上月鲜肉类销售额", "本月鲜肉类销售额",
    "上月豆制品销售额", "本月豆制品销售额",
    FRESH_LAST, FRESH_THIS
  ]

  /** `numeric_columns`. */
  const NUMERIC: seq<string> := [
    ACTIVE_THIS, ACTIVE_LAST,
    "本月新鲜蔬菜销售额", "上月新鲜蔬菜销售额",
    "本月鲜肉类销售额", "上月鲜肉类销售额",
    "本月豆制品销售额", "上月豆制品销售额",
    FRESH_THIS, FRESH_LAST
  ]

  /** The canonical column order of `_reorder_columns`, last month first. */
  const LEGACY_ORDER: seq<string> := [
    CUSTOMER, SALESMAN,
    ACTIVE_LAST, ACTIVE_THIS, ACTIVE_RATIO,
    "上月新鲜蔬菜销售额", "本月新鲜蔬菜销售额", VEGETABLES_RATIO,
    "上月鲜肉类销售额", "本月鲜肉类销售额", MEAT_RATIO,
    "上月豆制品销售额", "本月豆制品销售额", BEAN_RATIO,
    FRESH_LAST, FRESH_THIS, FRESH_RATIO
  ]

  /** `data_dict`, from the calculations of `get_customer_diff`. */
  function DataDict(all: seq<Row>): seq<Named> {
    var days := CalculateOrderDays(all);
    DataDictOf(CalculateDailyActiveData(all, days.0, days.1), CalculateSalesData(all, VEGETABLES),
      CalculateSalesData(all, MEAT), CalculateSalesData(all, BEAN), FreshSalesData(all))
  }

  /** The dictionary literal itself, one entry per table of each pair. */
  function DataDictOf(daily: (Named, Named), vegetables: (Named, Named), meat: (Named, Named),
                      bean: (Named, Named), freshSales: (Named, Named)): seq<Named> {
    [daily.0, daily.1, vegetables.0, vegetables.1, meat.0, meat.1, bean.0, bean.1, freshSales.0, freshSales.1]
  }

  predicate DistinctNames(tables: seq<Named>) {
    forall a, b :: 0 <= a < b < |tables| ==> tables[a].name != tables[b].name
  }

  function NameOf(t: Named): string {
    t.name
  }

  /** `data_dict` holds one table per metric column, in the order of
      `METRICS`, and no two share a column. */
  lemma DataDictNames(all: seq<Row>)
    ensures |DataDict(all)| == |METRICS|
    ensures forall j :: 0 <= j < |METRICS| ==> DataDict(all)[j].name == METRICS[j]
    ensures DistinctNames(DataDict(all))
  {
    var days := CalculateOrderDays(all);
    DataDictOfNames(CalculateDailyActiveData(all, days.0, days.1), CalculateSalesData(all, VEGETABLES),
      CalculateSalesData(all, MEAT), CalculateSalesData(all, BEAN), FreshSalesData(all));
  }

  lemma DataDictOfNames(daily: (Named, Named), vegetables: (Named, Named), meat: (Named, Named),
                        bean: (Named, Named), freshSales: (Named, Named))
    requires daily.0.name == ACTIVE_LAST && daily.1.name == ACTIVE_THIS
    requires vegetables.0.name == SalesName(LAST, VEGETABLES) && vegetables.1.name == SalesName(THIS, VEGETABLES)
    requires meat.0.name == SalesName(LAST, MEAT) && meat.1.name == SalesName(THIS, MEAT)
    requires bean.0.name == SalesName(LAST, BEAN) && bean.1.name == SalesName(THIS, BEAN)
    requires freshSales.0.name == FRESH_LAST && freshSales.1.name == FRESH_THIS
    ensures |DataDictOf(daily, vegetables, meat, bean, freshSales)| == |METRICS|
    ensures forall j :: 0 <= j < |METRICS| ==> DataDictOf(daily, vegetables, meat, bean, freshSales)[j].name == METRICS[j]
    ensures DistinctNames(DataDictOf(daily, vegetables, meat, bean, freshSales))
  {
    SalesNames();
    var d := DataDictOf(daily, vegetables, meat, bean, freshSales);
    assert forall j :: 0 <= j < |METRICS| ==> d[j].name == METRICS[j];
    NamedAsMetrics(d);
  }

  lemma NamedAsMetrics(tables: seq<Named>)
    requires |tables| == |METRICS| && forall j :: 0 <= j < |METRICS| ==> tables[j].name == METRICS[j]
    ensures DistinctNames(tables)
  {
    MetricsDistinct();
  }

  lemma MetricsDistinct()
    ensures NoDuplicates(METRICS)
  {
  }

  // ---------------------------------------------------------- merge_data_to_pivot

  /** One step of `merge_data_to_pivot`: an empty table is skipped, any
      other is merged in on 客户名称. */
  function MergeTable(f: Frame, t: Named): Frame {
    if t.values != map[] then JoinTable(f, t.name, t.values) else f
  }

  function MergedTables(f: Frame, tables: seq<Named>): Frame
    decreases |tables|
  {
    if tables == [] then f else MergedTables(MergeTable(f, tables[0]), tables[1..])
  }

  /** `merge_data_to_pivot`. */
  method MergeDataToPivot(pivot: Frame, dataDict: seq<Named>) returns (result: Frame)
    ensures result == MergedTables(pivot, dataDict)
  {
    result := pivot;
    var i := 0;
    while i < |dataDict|
      invariant 0 <= i <= |dataDict|
      invariant MergedTables(result, dataDict[i..]) == MergedTables(pivot, dataDict)
    {
      var t := dataDict[i];
      assert dataDict[i..][1..] == dataDict[i + 1..];
      if t.values != map[] {
        result := JoinTable(result, t.name, t.values);
      }
      i := i + 1;
    }
  }

  /** The cell a row ends up with in column `c`: that of the last non-empty
      table named `c`, what it held before when there is none. */
  function CellAfter(tables: seq<Named>, c: string, k: Cell, v: Cell): Cell
    decreases |tables|
  {
    if tables == [] then v
    else CellAfter(tables[1..], c, k, if tables[0].name == c && tables[0].values != map[] then Lookup(tables[0].values, k) else v)
  }

  /** The columns after the merges: each non-empty table's column is
      appended unless present. */
  function ColumnsAfter(columns: seq<string>, tables: seq<Named>): seq<string>
    decreases |tables|
  {
    if tables == [] then columns
    else ColumnsAfter(if tables[0].values != map[] && tables[0].name !in columns then columns + [tables[0].name] else columns, tables[1..])
  }

  /** The merges keep the rows and their customers and set each column as
      `CellAfter` says. */
  lemma {:induction false} MergedTablesRow(f: Frame, tables: seq<Named>, i: int, c: string)
    requires 0 <= i < |f.rows|
    requires forall t :: t in tables ==> t.name != CUSTOMER
    ensures MergedTables(f, tables).columns == ColumnsAfter(f.columns, tables)
    ensures |MergedTables(f, tables).rows| == |f.rows|
    ensures CustomerOf(MergedTables(f, tables).rows[i]) == CustomerOf(f.rows[i])
    ensures Get(MergedTables(f, tables).rows[i], c) == CellAfter(tables, c, CustomerOf(f.rows[i]), Get(f.rows[i], c))
    decreases |tables|
  {
    if tables != [] {
      var g := MergeTable(f, tables[0]);
      assert tables[0] in tables;
      assert forall t :: t in tables[1..] ==> t in tables;
      MergedTablesRow(g, tables[1..], i, c);
    }
  }

  /** With distinct names, the column of table `j` holds the customer's
      value when that table is not empty, and otherwise keeps its cell. */
  lemma {:induction false} CellAfterNamed(tables: seq<Named>, j: int, k: Cell, v: Cell)
    requires DistinctNames(tables) && 0 <= j < |tables|
    ensures CellAfter(tables, tables[j].name, k, v)
            == if tables[j].values != map[] then Lookup(tables[j].values, k) else v
    decreases |tables|
  {
    var c := tables[j].name;
    if j == 0 {
      var v' := if tables[0].values != map[] then Lookup(tables[0].values, k) else v;
      CellAfterUnnamed(tables[1..], c, k, v');
    } else {
      CellAfterNamed(tables[1..], j - 1, k, v);
    }
  }

  /** A column no table is named after keeps its cell. */
  lemma {:induction false} CellAfterUnnamed(tables: seq<Named>, c: string, k: Cell, v: Cell)
    requires forall t :: t in tables ==> t.name != c
    ensures CellAfter(tables, c, k, v) == v
    decreases |tables|
  {
    if tables != [] {
      assert tables[0] in tables;
      assert forall t :: t in tables[1..] ==> t in tables;
      CellAfterUnnamed(tables[1..], c, k, v);
    }
  }

  /** With distinct names, table `j`'s column ends up among the columns
      exactly when it was there or the table is not empty. */
  lemma {:induction false} ColumnsAfterNamed(columns: seq<string>, tables: seq<Named>, j: int)
    requires DistinctNames(tables) && 0 <= j < |tables|
    ensures tables[j].name in ColumnsAfter(columns, tables) <==> tables[j].name in columns || tables[j].values != map[]
    decreases |tables|
  {
    var t := tables[0];
    var next := if t.values != map[] && t.name !in columns then columns + [t.name] else columns;
    if j == 0 {
      ColumnsAfterUnnamed(next, tables[1..], t.name);
    } else {
      ColumnsAfterNamed(next, tables[1..], j - 1);
    }
  }

  /** A column no table is named after is among the columns after the merges
      exactly when it was before; no column is added twice. */
  lemma {:induction false} ColumnsAfterUnnamed(columns: seq<string>, tables: seq<Named>, c: string)
    requires forall t :: t in tables ==> t.name != c
    ensures c in ColumnsAfter(columns, tables) <==> c in columns
    decreases |tables|
  {
    if tables != [] {
      var t := tables[0];
      assert t in tables;
      assert forall u :: u in tables[1..] ==> u in tables;
      var next := if t.values != map[] && t.name !in columns then columns + [t.name] else columns;
      ColumnsAfterUnnamed(next, tables[1..], c);
    }
  }

  lemma {:induction false} ColumnsAfterDistinct(columns: seq<string>, tables: seq<Named>)
    requires NoDuplicates(columns)
    ensures NoDuplicates(ColumnsAfter(columns, tables))
    decreases |tables|
  {
    if tables != [] {
      var t := tables[0];
      var next := if t.values != map[] && t.name !in columns then columns + [t.name] else columns;
      ColumnsAfterDistinct(next, tables[1..]);
    }
  }

  // -------------------------------------------------------- numeric columns

  /** The frame after `pd.to_numeric(errors='coerce').fillna(0)` of each of
      `columns` that the frame has, in order. */
  function Coerced(f: Frame, columns: seq<string>): Frame
    decreases |columns|
  {
    if columns == [] then f else Coerced(CleanedNumeric(f, columns[0]), columns[1..])
  }

  /** The `numeric_columns` loop of `get_customer_diff`. */
  method CoerceNumericColumns(f: Frame) returns (result: Frame)
    ensures result == Coerced(f, NUMERIC)
  {
    result := f;
    var i := 0;
    while i < |NUMERIC|
      invariant 0 <= i <= |NUMERIC|
      invariant Coerced(result, NUMERIC[i..]) == Coerced(f, NUMERIC)
    {
      var col := NUMERIC[i];
      assert NUMERIC[i..][1..] == NUMERIC[i + 1..];
      if col in result.columns {
        result := CleanedNumeric(result, col);
      }
      i := i + 1;
    }
  }

  /** The coercion keeps columns and rows, turns each listed column the
      frame has into numbers and leaves every other cell alone. */
  lemma {:induction false} CoercedRow(f: Frame, columns: seq<string>, i: int, c: string)
    requires 0 <= i < |f.rows|
    ensures Coerced(f, columns).columns == f.columns
    ensures |Coerced(f, columns).rows| == |f.rows|
    ensures Get(Coerced(f, columns).rows[i], c)
            == if c in columns && c in f.columns then Num(ToNumber(Get(f.rows[i], c))) else Get(f.rows[i], c)
    decreases |columns|
  {
    if columns != [] {
      var g := CleanedNumeric(f, columns[0]);
      CoercedRow(g, columns[1..], i, c);
      assert c in columns <==> c == columns[0] || c in columns[1..];
    }
  }

  // ----------------------------------------------------------------- ratios

  /** `calculate_ratio`: the percentage change from `last` to `current`,
      0 when there is no baseline; not rounded. */
  function CalculateRatio(current: real, last: real): real {
    if last == 0.0 then 0.0 else (current - last) / last * 100.0
  }

  /** A nonzero baseline grown by the ratio gives the current value back. */
  lemma CalculateRatioInverse(current: real, last: real)
    requires last != 0.0
    ensures last + last * CalculateRatio(current, last) / 100.0 == current
  {
  }

  /** The ratio is positive exactly when a positive baseline grew. */
  lemma CalculateRatioSign(current: real, last: real)
    requires last > 0.0
    ensures CalculateRatio(current, last) > 0.0 <==> current > last
    ensures CalculateRatio(current, last) == 0.0 <==> current == last
  {
  }

  lemma CalculateRatioExamples()
    ensures CalculateRatio(120.0, 100.0) == 20.0
    ensures CalculateRatio(100.0, 0.0) == 0.0
    ensures CalculateRatio(80.0, 100.0) == -20.0
    ensures CalculateRatio(150.0, 200.0) == -25.0
  {
  }

  /** `row.get(col, 0)`. */
  function RowGet(r: Row, columns: seq<string>, col: string): Cell {
    if col in columns then Get(r, col) else Num(0.0)
  }

  /** `value / days if days > 0 else 0`; a missing value stays missing. */
  function PerDay(c: Cell, days: nat): Cell {
    if days == 0 then Num(0.0) else if c.Num? then Num(c.x / days as real) else Null
  }

  /** `calculate_ratio` on two cells: `last == 0` is decided first, and a
      missing operand otherwise makes the ratio missing. */
  function RatioCell(current: Cell, last: Cell): Cell {
    if last == Num(0.0) then Num(0.0)
    else if current.Num? && last.Num? then Num(CalculateRatio(current.x, last.x))
    else Null
  }

  /** One `result.apply(lambda row: calculate_ratio(...))` cell: the ratio of
      this month's per-day value of `now` to last month's of `before`. */
  function RatioFor(r: Row, columns: seq<string>, now: string, before: string, thisDays: nat, lastDays: nat): Cell {
    RatioCell(PerDay(RowGet(r, columns, now), thisDays), PerDay(RowGet(r, columns, before), lastDays))
  }

  /** The five ratio assignments, in order: each ratio column and the two
      columns it compares, this month's first. */
  const RATIO_SOURCES: seq<(string, string, string)> := [
    (ACTIVE_RATIO, ACTIVE_THIS, ACTIVE_LAST),
    (VEGETABLES_RATIO, "本月新鲜蔬菜销售额", "上月新鲜蔬菜销售额"),
    (MEAT_RATIO, "本月鲜肉类销售额", "上月鲜肉类销售额"),
    (BEAN_RATIO, "本月豆制品销售额", "上月豆制品销售额"),
    (FRESH_RATIO, FRESH_THIS, FRESH_LAST)
  ]

  /** One row after the ratio assignments of `sources`, one after the other;
      `columns` are the columns the row had before the first. */
  function ApplyRatios(r: Row, columns: seq<string>, sources: seq<(string, string, string)>, thisDays: nat, lastDays: nat): Row
    decreases |sources|
  {
    if sources == [] then r
    else
      var (name, now, before) := sources[0];
      ApplyRatios(r[name := RatioFor(r, columns, now, before, thisDays, lastDays)], columns, sources[1..], thisDays, lastDays)
  }

  /** The five ratio columns of `get_customer_diff`. */
  function WithRatios(f: Frame, thisDays: nat, lastDays: nat): Frame {
    Frame(ConcatColumns(f.columns, RATIOS), Map(f.rows, r => ApplyRatios(r, f.columns, RATIO_SOURCES, thisDays, lastDays)))
  }

  // ------------------------------------------------------------- the report

  /** `_reorder_columns`. */
  function Reordered(f: Frame): Frame {
    Frame(Reorder(LEGACY_ORDER, f.columns), f.rows)
  }

  /** The pivot base after the merges of `dataDict`, the coercion, the
      ratios, `fillna(0)` and the column order. */
  function Completed(pivot: Frame, dataDict: seq<Named>, thisDays: nat, lastDays: nat): Frame {
    Reordered(FillNa(WithRatios(Coerced(MergedTables(pivot, dataDict), NUMERIC), thisDays, lastDays)))
  }

  /** The table of `get_customer_diff` before the sort, from the merged
      rows and the pivot base. */
  function Finished(all: seq<Row>, pivot: Frame): Frame {
    var days := CalculateOrderDays(all);
    Completed(pivot, DataDict(all), days.1, days.0)
  }

  /** `all_area['发货时间'].max().day`: `None` for `NaT`. */
  function LatestDay(all: seq<Row>): Option<int> {
    match LatestShipment(all)
    case None => None
    case Some(t) => Some(t.date.day)
  }

  /** The result of `get_customer_diff` and its `latest_date` attribute. */
  datatype LegacyDiff = LegacyDiff(data: Frame, latestDay: Option<int>)

  /** `get_customer_diff` once the two files are read. */
  function CustomerDiffOf(last: Frame, current: Frame): Result<LegacyDiff, LegacyError> {
    var all := MergeOrder(last, current).rows;
    match PivotBase(all)
    case Err(e) => Err(e)
    case Ok(pivot) =>
      var result := Finished(all, pivot);
      if FRESH_THIS !in result.columns then Err(NoFreshSalesColumn)
      else Ok(LegacyDiff(Frame(result.columns, SortByValueDescending(result.rows, FRESH_THIS)), LatestDay(all)))
  }

  /** Steps 4 to 13 of `get_customer_diff`: the tables of `data_dict`
      merged into the pivot base, coerced, the ratios, `fillna(0)` and the
      column order. */
  method FinishPivot(all: seq<Row>, pivot: Frame) returns (result: Frame)
    ensures result == Finished(all, pivot)
  {
    var days := CalculateOrderDays(all);
    var daily := CalculateDailyActiveData(all, days.0, days.1);
    var vegetables := CalculateSalesData(all, VEGETABLES);
    var meat := CalculateSalesData(all, MEAT);
    var bean := CalculateSalesData(all, BEAN);
    var freshSales := FreshSalesData(all);
    var dataDict := DataDictOf(daily, vegetables, meat, bean, freshSales);
    result := MergeDataToPivot(pivot, dataDict);
    result := CoerceNumericColumns(result);
    result := WithRatios(result, days.1, days.0);
    result := FillNa(result);
    result := Reordered(result);
  }

  /** `get_customer_diff` once both files are read: the merge writes 月份 into
      two frames of its own, then the steps run in the order of the source. */
  method GetCustomerDiff(last: Frame, current: Frame) returns (r: Result<LegacyDiff, LegacyError>)
    ensures r == CustomerDiffOf(last, current)
  {
    var lastDf := new DataFrame(last);
    var thisDf := new DataFrame(current);
    var all := MergeOrderData(lastDf, thisDf);
    var created := CreatePivotTableBase(all.rows);
    if created.Err? {
      return Err(created.error);
    }
    var result := FinishPivot(all.rows, created.value);
    if FRESH_THIS !in result.columns {
      return Err(NoFreshSalesColumn);
    }
    r := Ok(LegacyDiff(Frame(result.columns, SortByValueDescending(result.rows, FRESH_THIS)), LatestDay(all.rows)));
  }
}
