/** Properties of the earlier customer fresh-food ratio report: what each
    cell of a customer's row holds, the columns and their order, the sort
    and the two ways the report fails. */
module LegacyFreshFoodFacts {
  import opened Cells
  import opened SeqUtil
  import opened BaseExcel
  import opened Sorting
  import opened ColumnOrder
  import opened FreshCommon
  import opened LegacyFreshFood

  // ------------------------------------------------------------ names

  lemma MetricNames()
    ensures forall j :: 0 <= j < |METRICS| ==> METRICS[j] in NUMERIC && METRICS[j] !in RATIOS
    ensures forall j :: 0 <= j < |METRICS| ==> METRICS[j] != CUSTOMER && METRICS[j] != SALESMAN
    ensures CUSTOMER !in NUMERIC && SALESMAN !in NUMERIC && CUSTOMER != SALESMAN
    ensures CUSTOMER !in RATIOS && SALESMAN !in RATIOS
  {
  }

  /** The ratio assignments write the five ratio columns, in order, and
      the `q`-th compares metric `2q + 1` (this month) with metric `2q`. */
  lemma RatioSourcesShape()
    ensures |RATIO_SOURCES| == |RATIOS| == 5
    ensures forall q :: 0 <= q < 5 ==>
              RATIO_SOURCES[q].0 == RATIOS[q] && RATIO_SOURCES[q].1 == METRICS[2 * q + 1] && RATIO_SOURCES[q].2 == METRICS[2 * q]
  {
  }

  lemma RatiosDistinct()
    ensures NoDuplicates(RATIOS)
  {
  }

  // ------------------------------------------------------------ ratios

  /** A table's value for a customer once the merge is coerced: 0 for a
      customer the table lacks. */
  function Filled(t: Table, k: Cell): real {
    if k in t then t[k] else 0.0
  }

  /** `value / days if days > 0 else 0` on a number. */
  function PerDayValue(v: real, days: nat): real {
    if days == 0 then 0.0 else v / days as real
  }

  /** With both operands numbers the ratio is never missing. */
  lemma RatioForNumbers(r: Row, columns: seq<string>, now: string, before: string, thisDays: nat, lastDays: nat, a: real, b: real)
    requires RowGet(r, columns, now) == Num(a) && RowGet(r, columns, before) == Num(b)
    ensures RatioFor(r, columns, now, before, thisDays, lastDays)
            == Num(CalculateRatio(PerDayValue(a, thisDays), PerDayValue(b, lastDays)))
  {
  }

  predicate RatioNamesDistinct(sources: seq<(string, string, string)>) {
    forall p, q :: 0 <= p < q < |sources| ==> sources[p].0 != sources[q].0
  }

  /** No ratio column is one a ratio reads. */
  predicate RatioNamesApart(sources: seq<(string, string, string)>) {
    forall p, q :: 0 <= p < |sources| && 0 <= q < |sources| ==> sources[p].0 != sources[q].1 && sources[p].0 != sources[q].2
  }

  /** A column no assignment writes keeps its cell. */
  lemma {:induction false} ApplyRatiosOther(r: Row, columns: seq<string>, sources: seq<(string, string, string)>,
                                            thisDays: nat, lastDays: nat, c: string)
    requires forall p :: 0 <= p < |sources| ==> sources[p].0 != c
    ensures Get(ApplyRatios(r, columns, sources, thisDays, lastDays), c) == Get(r, c)
    decreases |sources|
  {
    if sources != [] {
      var (name, now, before) := sources[0];
      assert sources[0].0 != c;
      ApplyRatiosOther(r[name := RatioFor(r, columns, now, before, thisDays, lastDays)], columns, sources[1..], thisDays, lastDays, c);
    }
  }

  /** Each ratio column holds the ratio of the row it started from: the
      columns written before it are not among those it reads. */
  lemma {:induction false} ApplyRatiosNamed(r: Row, columns: seq<string>, sources: seq<(string, string, string)>,
                                            thisDays: nat, lastDays: nat, q: int)
    requires 0 <= q < |sources| && RatioNamesDistinct(sources) && RatioNamesApart(sources)
    ensures Get(ApplyRatios(r, columns, sources, thisDays, lastDays), sources[q].0)
            == RatioFor(r, columns, sources[q].1, sources[q].2, thisDays, lastDays)
    decreases |sources|
  {
    var (name, now, before) := sources[0];
    var r' := r[name := RatioFor(r, columns, now, before, thisDays, lastDays)];
    if q == 0 {
      ApplyRatiosOther(r', columns, sources[1..], thisDays, lastDays, name);
    } else {
      ApplyRatiosNamed(r', columns, sources[1..], thisDays, lastDays, q - 1);
      assert sources[1..][q - 1] == sources[q];
      assert name != sources[q].1 && name != sources[q].2;
      assert RowGet(r', columns, sources[q].1) == RowGet(r, columns, sources[q].1);
      assert RowGet(r', columns, sources[q].2) == RowGet(r, columns, sources[q].2);
    }
  }

  lemma RatioSourcesApart()
    ensures RatioNamesDistinct(RATIO_SOURCES) && RatioNamesApart(RATIO_SOURCES)
    ensures forall p, j :: 0 <= p < |RATIO_SOURCES| && 0 <= j < |METRICS| ==> RATIO_SOURCES[p].0 != METRICS[j]
    ensures forall p :: 0 <= p < |RATIO_SOURCES| ==> RATIO_SOURCES[p].0 != CUSTOMER && RATIO_SOURCES[p].0 != SALESMAN
  {
    RatioSourcesShape();
    RatiosDistinct();
    MetricNames();
  }

  // ------------------------------------------------- merge and coercion

  /** After the merges and the coercion, a metric column the pivot base
      lacks is present exactly when its table is not empty; its cell is the
      customer's value, 0 when the table lacks the customer, and
      `row.get(name, 0)` reads that value in every case. */
  lemma {:induction false} CoercedMetric(pivot: Frame, tables: seq<Named>, i: int, j: int)
    requires 0 <= i < |pivot.rows| && 0 <= j < |tables|
    requires DistinctNames(tables) && forall t :: t in tables ==> t.name != CUSTOMER
    requires tables[j].name !in pivot.columns && Get(pivot.rows[i], tables[j].name) == Null
    requires tables[j].name in NUMERIC
    ensures var c := Coerced(MergedTables(pivot, tables), NUMERIC);
      && c.columns == ColumnsAfter(pivot.columns, tables)
      && |c.rows| == |pivot.rows|
      && (tables[j].name in c.columns <==> tables[j].values != map[])
      && Get(c.rows[i], tables[j].name)
         == (if tables[j].values != map[] then Num(Filled(tables[j].values, CustomerOf(pivot.rows[i]))) else Null)
      && RowGet(c.rows[i], c.columns, tables[j].name) == Num(Filled(tables[j].values, CustomerOf(pivot.rows[i])))
  {
    var name := tables[j].name;
    var m := MergedTables(pivot, tables);
    MergedTablesRow(pivot, tables, i, name);
    CellAfterNamed(tables, j, CustomerOf(pivot.rows[i]), Null);
    ColumnsAfterNamed(pivot.columns, tables, j);
    CoercedRow(m, NUMERIC, i, name);
  }

  /** A column no table is named after and that is not coerced keeps the
      pivot base's cell. */
  lemma {:induction false} CoercedOther(pivot: Frame, tables: seq<Named>, i: int, c: string)
    requires 0 <= i < |pivot.rows|
    requires forall t :: t in tables ==> t.name != CUSTOMER && t.name != c
    requires c !in NUMERIC
    ensures var f := Coerced(MergedTables(pivot, tables), NUMERIC);
      && |f.rows| == |pivot.rows|
      && Get(f.rows[i], c) == Get(pivot.rows[i], c)
  {
    var m := MergedTables(pivot, tables);
    MergedTablesRow(pivot, tables, i, c);
    CellAfterUnnamed(tables, c, CustomerOf(pivot.rows[i]), Get(pivot.rows[i], c));
    CoercedRow(m, NUMERIC, i, c);
  }

  // ------------------------------------------------------ the final frame

  /** Tables named after the metrics, in order. */
  predicate MetricTables(tables: seq<Named>) {
    |tables| == |METRICS| && forall j :: 0 <= j < |METRICS| ==> tables[j].name == METRICS[j]
  }

  /** A pivot base: the key and 业务员 columns, and no other cell. */
  ghost predicate BaseShaped(pivot: Frame) {
    && pivot.columns == [CUSTOMER, SALESMAN]
    && forall i, c :: 0 <= i < |pivot.rows| && c != CUSTOMER && c != SALESMAN ==> Get(pivot.rows[i], c) == Null
  }

  lemma MetricTablesApart(tables: seq<Named>)
    requires MetricTables(tables)
    ensures DistinctNames(tables)
    ensures forall t :: t in tables ==> t.name != CUSTOMER && t.name != SALESMAN && t.name in METRICS
  {
    NamedAsMetrics(tables);
    MetricNames();
    forall t | t in tables
      ensures t.name != CUSTOMER && t.name != SALESMAN && t.name in METRICS
    {
      var j :| 0 <= j < |tables| && tables[j] == t;
    }
  }

  /** The ratios, `fillna(0)` and the column order: a column is there when
      it was before or is a ratio, and its cell is the filled cell after the
      ratio assignments. */
  lemma CompletedCell(pivot: Frame, tables: seq<Named>, thisDays: nat, lastDays: nat, i: int, c: string)
    requires 0 <= i < |Coerced(MergedTables(pivot, tables), NUMERIC).rows|
    ensures var f := Completed(pivot, tables, thisDays, lastDays); var g := Coerced(MergedTables(pivot, tables), NUMERIC);
      && |f.rows| == |g.rows|
      && (c in f.columns <==> c in g.columns || c in RATIOS)
      && (c in f.columns ==> Get(f.rows[i], c) == FillCell(Get(ApplyRatios(g.rows[i], g.columns, RATIO_SOURCES, thisDays, lastDays), c)))
  {
  }

  /** Metric `j` of row `i`: the column is present exactly when its table
      is not empty, and its cell is the row customer's value, 0 when the
      table lacks the customer. */
  lemma CompletedMetric(pivot: Frame, tables: seq<Named>, thisDays: nat, lastDays: nat, i: int, j: int)
    requires BaseShaped(pivot) && MetricTables(tables) && 0 <= i < |pivot.rows| && 0 <= j < |METRICS|
    ensures |Completed(pivot, tables, thisDays, lastDays).rows| == |pivot.rows|
    ensures METRICS[j] in Completed(pivot, tables, thisDays, lastDays).columns <==> tables[j].values != map[]
    ensures METRICS[j] in Completed(pivot, tables, thisDays, lastDays).columns ==>
              Get(Completed(pivot, tables, thisDays, lastDays).rows[i], METRICS[j]) == Num(Filled(tables[j].values, CustomerOf(pivot.rows[i])))
  {
    MetricTablesApart(tables);
    MetricNames();
    CoercedMetric(pivot, tables, i, j);
    var g := Coerced(MergedTables(pivot, tables), NUMERIC);
    RatioSourcesApart();
    ApplyRatiosOther(g.rows[i], g.columns, RATIO_SOURCES, thisDays, lastDays, METRICS[j]);
    CompletedCell(pivot, tables, thisDays, lastDays, i, METRICS[j]);
  }

  /** Ratio `q` of row `i` is always present and never missing: the ratio
      of this month's per-day value of metric `2q + 1` to last month's of
      metric `2q`. */
  lemma CompletedRatio(pivot: Frame, tables: seq<Named>, thisDays: nat, lastDays: nat, i: int, q: int)
    requires BaseShaped(pivot) && MetricTables(tables) && 0 <= i < |pivot.rows| && 0 <= q < |RATIOS|
    ensures |Completed(pivot, tables, thisDays, lastDays).rows| == |pivot.rows|
    ensures RATIOS[q] in Completed(pivot, tables, thisDays, lastDays).columns
    ensures var k := CustomerOf(pivot.rows[i]);
      Get(Completed(pivot, tables, thisDays, lastDays).rows[i], RATIOS[q])
      == Num(CalculateRatio(PerDayValue(Filled(tables[2 * q + 1].values, k), thisDays),
                            PerDayValue(Filled(tables[2 * q].values, k), lastDays)))
  {
    var k := CustomerOf(pivot.rows[i]);
    MetricTablesApart(tables);
    MetricNames();
    RatioSourcesShape();
    CoercedMetric(pivot, tables, i, 2 * q + 1);
    CoercedMetric(pivot, tables, i, 2 * q);
    var g := Coerced(MergedTables(pivot, tables), NUMERIC);
    RatioSourcesApart();
    ApplyRatiosNamed(g.rows[i], g.columns, RATIO_SOURCES, thisDays, lastDays, q);
    RatioForNumbers(g.rows[i], g.columns, METRICS[2 * q + 1], METRICS[2 * q], thisDays, lastDays,
                    Filled(tables[2 * q + 1].values, k), Filled(tables[2 * q].values, k));
    CompletedCell(pivot, tables, thisDays, lastDays, i, RATIOS[q]);
  }

  /** The key and the 业务员 of row `i` keep the pivot base's cells, with 0
      for a missing one. */
  lemma CompletedKey(pivot: Frame, tables: seq<Named>, thisDays: nat, lastDays: nat, i: int)
    requires BaseShaped(pivot) && MetricTables(tables) && 0 <= i < |pivot.rows|
    ensures |Completed(pivot, tables, thisDays, lastDays).rows| == |pivot.rows|
    ensures CUSTOMER in Completed(pivot, tables, thisDays, lastDays).columns
    ensures SALESMAN in Completed(pivot, tables, thisDays, lastDays).columns
    ensures Get(Completed(pivot, tables, thisDays, lastDays).rows[i], CUSTOMER) == FillCell(Get(pivot.rows[i], CUSTOMER))
    ensures Get(Completed(pivot, tables, thisDays, lastDays).rows[i], SALESMAN) == FillCell(Get(pivot.rows[i], SALESMAN))
  {
    MetricTablesApart(tables);
    MetricNames();
    var g := Coerced(MergedTables(pivot, tables), NUMERIC);
    RatioSourcesApart();
    CoercedOther(pivot, tables, i, CUSTOMER);
    CoercedOther(pivot, tables, i, SALESMAN);
    MergedTablesRow(pivot, tables, i, CUSTOMER);
    ColumnsAfterUnnamed(pivot.columns, tables, CUSTOMER);
    ColumnsAfterUnnamed(pivot.columns, tables, SALESMAN);
    CoercedRow(MergedTables(pivot, tables), NUMERIC, i, CUSTOMER);
    ApplyRatiosOther(g.rows[i], g.columns, RATIO_SOURCES, thisDays, lastDays, CUSTOMER);
    ApplyRatiosOther(g.rows[i], g.columns, RATIO_SOURCES, thisDays, lastDays, SALESMAN);
    CompletedCell(pivot, tables, thisDays, lastDays, i, CUSTOMER);
    CompletedCell(pivot, tables, thisDays, lastDays, i, SALESMAN);
  }

  // ------------------------------------------------------------ columns

  lemma {:induction false} CoercedColumns(f: Frame, columns: seq<string>)
    ensures Coerced(f, columns).columns == f.columns && |Coerced(f, columns).rows| == |f.rows|
    decreases |columns|
  {
    if columns != [] {
      CoercedColumns(CleanedNumeric(f, columns[0]), columns[1..]);
    }
  }

  lemma {:induction false} MergedTablesColumns(f: Frame, tables: seq<Named>)
    ensures MergedTables(f, tables).columns == ColumnsAfter(f.columns, tables)
    ensures |MergedTables(f, tables).rows| == |f.rows|
    decreases |tables|
  {
    if tables != [] {
      MergedTablesColumns(MergeTable(f, tables[0]), tables[1..]);
    }
  }

  lemma OrderDistinct()
    ensures NoDuplicates(LEGACY_ORDER)
  {
  }

  lemma OrderNames()
    ensures CUSTOMER in LEGACY_ORDER && SALESMAN in LEGACY_ORDER
    ensures forall c :: c in RATIOS ==> c in LEGACY_ORDER
    ensures forall c :: c in METRICS ==> c in LEGACY_ORDER
  {
  }

  /** A metric column is present when its table is not empty. */
  ghost predicate PresentMetric(tables: seq<Named>, c: string) {
    exists j :: 0 <= j < |METRICS| && j < |tables| && METRICS[j] == c && tables[j].values != map[]
  }

  /** After the merges and the coercion a column is there when it is the
      key, 业务员 or a metric whose table is not empty. */
  lemma CoercedColumn(pivot: Frame, tables: seq<Named>, c: string)
    requires BaseShaped(pivot) && MetricTables(tables)
    ensures c in Coerced(MergedTables(pivot, tables), NUMERIC).columns <==> c == CUSTOMER || c == SALESMAN || PresentMetric(tables, c)
  {
    MetricTablesApart(tables);
    CoercedColumns(MergedTables(pivot, tables), NUMERIC);
    MergedTablesColumns(pivot, tables);
    if c in METRICS {
      var j :| 0 <= j < |METRICS| && METRICS[j] == c;
      MetricNames();
      ColumnsAfterNamed(pivot.columns, tables, j);
      assert c != CUSTOMER && c != SALESMAN;
      assert PresentMetric(tables, c) <==> tables[j].values != map[];
    } else {
      ColumnsAfterUnnamed(pivot.columns, tables, c);
    }
  }

  /** The columns: the key, 业务员, the five ratios and the metrics whose
      table is not empty, each once, in the canonical order. */
  lemma CompletedColumns(pivot: Frame, tables: seq<Named>, thisDays: nat, lastDays: nat)
    requires BaseShaped(pivot) && MetricTables(tables)
    ensures var cs := Completed(pivot, tables, thisDays, lastDays).columns;
      && (forall c :: c in cs <==> c == CUSTOMER || c == SALESMAN || c in RATIOS || PresentMetric(tables, c))
      && cs == Filter(LEGACY_ORDER, c => c in cs)
      && NoDuplicates(cs)
  {
    var g := Coerced(MergedTables(pivot, tables), NUMERIC).columns;
    var cs := Completed(pivot, tables, thisDays, lastDays).columns;
    CompletedColumnsAre(pivot, tables, thisDays, lastDays);
    forall c
      ensures c in g <==> c == CUSTOMER || c == SALESMAN || PresentMetric(tables, c)
      ensures c in g ==> c == CUSTOMER || c == SALESMAN || c in METRICS
    {
      CoercedColumn(pivot, tables, c);
      if PresentMetric(tables, c) {
        var j :| 0 <= j < |METRICS| && j < |tables| && METRICS[j] == c && tables[j].values != map[];
      }
    }
    CompletedOrder(g, cs);
  }

  lemma CompletedColumnsAre(pivot: Frame, tables: seq<Named>, thisDays: nat, lastDays: nat)
    ensures Completed(pivot, tables, thisDays, lastDays).columns
            == Reorder(LEGACY_ORDER, ConcatColumns(Coerced(MergedTables(pivot, tables), NUMERIC).columns, RATIOS))
  {
  }

  /** Columns that are all canonical come out in the canonical order. */
  lemma CompletedOrder(columns: seq<string>, cs: seq<string>)
    requires forall c :: c in columns ==> c == CUSTOMER || c == SALESMAN || c in METRICS
    requires cs == Reorder(LEGACY_ORDER, ConcatColumns(columns, RATIOS))
    ensures cs == Filter(LEGACY_ORDER, c => c in cs)
    ensures NoDuplicates(cs)
  {
    OrderNames();
    OrderDistinct();
    var w := ConcatColumns(columns, RATIOS);
    assert forall c :: c in cs <==> c in w;
    FilterNone(w, c => c !in LEGACY_ORDER);
    FilterExtensional(LEGACY_ORDER, c => c in w, c => c in cs);
    FilterNoDuplicates(LEGACY_ORDER, c => c in cs);
  }

  // ------------------------------------------------ what the tables hold

  lemma DataDictOfEntries(daily: (Named, Named), vegetables: (Named, Named), meat: (Named, Named),
                          bean: (Named, Named), freshSales: (Named, Named))
    ensures var d := DataDictOf(daily, vegetables, meat, bean, freshSales);
      && |d| == 10
      && d[0] == daily.0 && d[1] == daily.1 && d[2] == vegetables.0 && d[3] == vegetables.1
      && d[4] == meat.0 && d[5] == meat.1 && d[6] == bean.0 && d[7] == bean.1
      && d[8] == freshSales.0 && d[9] == freshSales.1
  {
  }

  /** The tables of `data_dict`: the day counts and the amounts of each
      month, over the merged rows, one category's or the fresh ones. */
  lemma DataDictValues(all: seq<Row>)
    ensures |DataDict(all)| == 10
    ensures DataDict(all)[0].values == DaysTable(PeriodRows(all, LAST))
    ensures DataDict(all)[1].values == DaysTable(PeriodRows(all, THIS))
    ensures DataDict(all)[2].values == AmountTable(PeriodRows(CategoryRows(all, VEGETABLES), LAST))
    ensures DataDict(all)[3].values == AmountTable(PeriodRows(CategoryRows(all, VEGETABLES), THIS))
    ensures DataDict(all)[4].values == AmountTable(PeriodRows(CategoryRows(all, MEAT), LAST))
    ensures DataDict(all)[5].values == AmountTable(PeriodRows(CategoryRows(all, MEAT), THIS))
    ensures DataDict(all)[6].values == AmountTable(PeriodRows(CategoryRows(all, BEAN), LAST))
    ensures DataDict(all)[7].values == AmountTable(PeriodRows(CategoryRows(all, BEAN), THIS))
    ensures DataDict(all)[8].values == AmountTable(PeriodRows(FreshRows(all), LAST))
    ensures DataDict(all)[9].values == AmountTable(PeriodRows(FreshRows(all), THIS))
  {
    var days := CalculateOrderDays(all);
    DataDictOfEntries(CalculateDailyActiveData(all, days.0, days.1), CalculateSalesData(all, VEGETABLES),
      CalculateSalesData(all, MEAT), CalculateSalesData(all, BEAN), FreshSalesData(all));
  }

  /** Customer `k`'s number of order days in `month`. */
  function ActiveDays(all: seq<Row>, k: Cell, month: string): nat {
    DaysOf(CustomerRows(PeriodRows(all, month), k))
  }

  /** Customer `k`'s amount of `category` in `month`. */
  function CategorySales(all: seq<Row>, k: Cell, category: string, month: string): real {
    CustomerAmount(PeriodRows(CategoryRows(all, category), month), k)
  }

  /** Customer `k`'s amount of the three fresh categories in `month`. */
  function FreshSales(all: seq<Row>, k: Cell, month: string): real {
    CustomerAmount(PeriodRows(FreshRows(all), month), k)
  }

  /** A customer the day table lacks has no rows, hence no days. */
  lemma DaysFilled(scoped: seq<Row>, k: Cell)
    requires k != Null
    ensures Filled(DaysTable(scoped), k) == DaysOf(CustomerRows(scoped, k)) as real
  {
    if k !in DaysTable(scoped) {
      FilterNone(scoped, x => CustomerOf(x) == k);
    }
  }

  /** A customer the amount table lacks has no rows, hence a total of 0. */
  lemma AmountFilled(scoped: seq<Row>, k: Cell)
    requires k != Null
    ensures Filled(AmountTable(scoped), k) == CustomerAmount(scoped, k)
  {
    if k !in AmountTable(scoped) {
      CustomerAmountAbsent(scoped, k);
    }
  }

  /** A table is empty exactly when no row of its scope names a customer. */
  lemma TablesEmpty(scoped: seq<Row>)
    ensures DaysTable(scoped) == map[] <==> forall x :: x in scoped ==> CustomerOf(x) == Null
    ensures AmountTable(scoped) == map[] <==> forall x :: x in scoped ==> CustomerOf(x) == Null
  {
    if exists x :: x in scoped && CustomerOf(x) != Null {
      var x :| x in scoped && CustomerOf(x) != Null;
      assert CustomerOf(x) in DaysTable(scoped) && CustomerOf(x) in AmountTable(scoped);
    }
  }

  /** The three fresh categories are disjoint, so the fresh amount is the
      sum of the three category amounts. */
  lemma FreshRollUp(all: seq<Row>, k: Cell, month: string)
    ensures FreshSales(all, k, month)
            == CategorySales(all, k, VEGETABLES, month) + CategorySales(all, k, MEAT, month) + CategorySales(all, k, BEAN, month)
  {
    var v := (x: Row) => Share(x, k, month, Text(VEGETABLES));
    var m := (x: Row) => Share(x, k, month, Text(MEAT));
    var b := (x: Row) => Share(x, k, month, Text(BEAN));
    var vm := (x: Row) => v(x) + m(x);
    var all3 := (x: Row) => FreshShare1(x, k, month);
    assert FreshSales(all, k, month) == SumOf(all, all3) by {
      FreshShare(all, k, month);
    }
    assert CategorySales(all, k, VEGETABLES, month) == SumOf(all, v) by {
      CategoryShare(all, k, VEGETABLES, month);
    }
    assert CategorySales(all, k, MEAT, month) == SumOf(all, m) by {
      CategoryShare(all, k, MEAT, month);
    }
    assert CategorySales(all, k, BEAN, month) == SumOf(all, b) by {
      CategoryShare(all, k, BEAN, month);
    }
    assert SumOf(all, vm) == SumOf(all, v) + SumOf(all, m) by {
      SumOfAdd(all, v, m, vm);
    }
    assert SumOf(all, all3) == SumOf(all, vm) + SumOf(all, b) by {
      forall x | x in all
        ensures all3(x) == vm(x) + b(x)
      {
        ShareSplit(x, k, month);
      }
      SumOfAdd(all, vm, b, all3);
    }
  }

  /** A fresh row belongs to exactly one of the three categories. */
  lemma ShareSplit(x: Row, k: Cell, month: string)
    ensures FreshShare1(x, k, month)
            == Share(x, k, month, Text(VEGETABLES)) + Share(x, k, month, Text(MEAT)) + Share(x, k, month, Text(BEAN))
  {
    CategoriesApart();
  }

  /** What one row adds to a customer's amount of a category in a month. */
  function Share(x: Row, k: Cell, month: string, category: Cell): real {
    if Get(x, CATEGORY) == category && InMonth(x, month) && CustomerOf(x) == k then AmountOf(x) else 0.0
  }

  /** What one row adds to a customer's fresh amount in a month. */
  function FreshShare1(x: Row, k: Cell, month: string): real {
    if IsFresh(x) && InMonth(x, month) && CustomerOf(x) == k then AmountOf(x) else 0.0
  }

  lemma CategoriesApart()
    ensures Text(VEGETABLES) != Text(MEAT) && Text(VEGETABLES) != Text(BEAN) && Text(MEAT) != Text(BEAN)
  {
  }

  lemma CategoryShare(all: seq<Row>, k: Cell, category: string, month: string)
    ensures CategorySales(all, k, category, month) == SumOf(all, x => Share(x, k, month, Text(category)))
  {
    var s1 := CategoryRows(all, category);
    var s2 := PeriodRows(s1, month);
    var g1 := (x: Row) => if CustomerOf(x) == k then AmountOf(x) else 0.0;
    var g2 := (x: Row) => if InMonth(x, month) then g1(x) else 0.0;
    var g3 := (x: Row) => if InCategory(x, category) then g2(x) else 0.0;
    assert CategorySales(all, k, category, month) == SumOf(s2, g1) by {
      SumOfFilter(s2, x => CustomerOf(x) == k, AmountOf, g1);
    }
    assert SumOf(s2, g1) == SumOf(s1, g2) by {
      SumOfFilter(s1, x => InMonth(x, month), g1, g2);
    }
    assert SumOf(s1, g2) == SumOf(all, g3) by {
      SumOfFilter(all, x => InCategory(x, category), g2, g3);
    }
    SumOfExtensional(all, g3, x => Share(x, k, month, Text(category)));
  }

  lemma FreshShare(all: seq<Row>, k: Cell, month: string)
    ensures FreshSales(all, k, month) == SumOf(all, x => FreshShare1(x, k, month))
  {
    var s1 := FreshRows(all);
    var s2 := PeriodRows(s1, month);
    var g1 := (x: Row) => if CustomerOf(x) == k then AmountOf(x) else 0.0;
    var g2 := (x: Row) => if InMonth(x, month) then g1(x) else 0.0;
    var g3 := (x: Row) => if IsFresh(x) then g2(x) else 0.0;
    assert FreshSales(all, k, month) == SumOf(s2, g1) by {
      SumOfFilter(s2, x => CustomerOf(x) == k, AmountOf, g1);
    }
    assert SumOf(s2, g1) == SumOf(s1, g2) by {
      SumOfFilter(s1, x => InMonth(x, month), g1, g2);
    }
    assert SumOf(s1, g2) == SumOf(all, g3) by {
      SumOfFilter(all, IsFresh, g2, g3);
    }
    SumOfExtensional(all, g3, x => FreshShare1(x, k, month));
  }

  // ------------------------------------------------------------ the report

  /** The pivot base is the shape the lemmas above take, one row per
      customer. */
  lemma PivotBaseShaped(all: seq<Row>, pivot: Frame)
    requires PivotBase(all) == Ok(pivot)
    ensures BaseShaped(pivot) && |pivot.rows| == |Customers(all)|
    ensures forall i :: 0 <= i < |pivot.rows| ==> CustomerOf(pivot.rows[i]) == Customers(all)[i]
  {
    forall i | 0 <= i < |pivot.rows|
      ensures CustomerOf(pivot.rows[i]) == Customers(all)[i]
      ensures forall c :: c != CUSTOMER && c != SALESMAN ==> Get(pivot.rows[i], c) == Null
    {
      PivotBaseRow(all, i);
    }
  }

  /** Merged rows all name a customer, so every report key is present. */
  lemma KeyPresent(all: seq<Row>, i: int)
    requires forall x :: x in all ==> HasCustomer(x)
    requires 0 <= i < |Customers(all)|
    ensures Customers(all)[i] != Null
  {
    assert Customers(all)[i] in Customers(all);
  }

  /** The facts every report lemma starts from. */
  lemma ReportSetup(all: seq<Row>, pivot: Frame, i: int)
    requires PivotBase(all) == Ok(pivot) && 0 <= i < |Customers(all)|
    requires forall x :: x in all ==> HasCustomer(x)
    ensures BaseShaped(pivot) && MetricTables(DataDict(all)) && |pivot.rows| == |Customers(all)|
    ensures CustomerOf(pivot.rows[i]) == Customers(all)[i] && Customers(all)[i] != Null
    ensures forall x :: x in all ==> CustomerOf(x) != Null
  {
    PivotBaseShaped(all, pivot);
    DataDictNames(all);
    KeyPresent(all, i);
  }

  /** Metric `j` of customer `i`: the column is there exactly when its
      table is not empty, and holds the customer's value, 0 when the table
      lacks the customer. */
  lemma ReportMetric(all: seq<Row>, pivot: Frame, i: int, j: int)
    requires PivotBase(all) == Ok(pivot) && 0 <= i < |Customers(all)| && 0 <= j < |METRICS|
    requires forall x :: x in all ==> HasCustomer(x)
    ensures |Finished(all, pivot).rows| == |Customers(all)| && |DataDict(all)| == |METRICS|
    ensures METRICS[j] in Finished(all, pivot).columns <==> DataDict(all)[j].values != map[]
    ensures METRICS[j] in Finished(all, pivot).columns ==>
              Get(Finished(all, pivot).rows[i], METRICS[j]) == Num(Filled(DataDict(all)[j].values, Customers(all)[i]))
  {
    var days := CalculateOrderDays(all);
    ReportSetup(all, pivot, i);
    CompletedMetric(pivot, DataDict(all), days.1, days.0, i, j);
  }

  /** Ratio `q` of customer `i` is there and never missing: the ratio of
      this month's per-day value of metric `2q + 1` to last month's of metric
      `2q`, each divided by its month's number of order days. */
  lemma ReportRatio(all: seq<Row>, pivot: Frame, i: int, q: int)
    requires PivotBase(all) == Ok(pivot) && 0 <= i < |Customers(all)| && 0 <= q < |RATIOS|
    requires forall x :: x in all ==> HasCustomer(x)
    ensures |Finished(all, pivot).rows| == |Customers(all)| && |DataDict(all)| == |METRICS|
    ensures RATIOS[q] in Finished(all, pivot).columns
    ensures var days := CalculateOrderDays(all); var k := Customers(all)[i];
      Get(Finished(all, pivot).rows[i], RATIOS[q])
      == Num(CalculateRatio(PerDayValue(Filled(DataDict(all)[2 * q + 1].values, k), days.1),
                            PerDayValue(Filled(DataDict(all)[2 * q].values, k), days.0)))
  {
    var days := CalculateOrderDays(all);
    ReportSetup(all, pivot, i);
    CompletedRatio(pivot, DataDict(all), days.1, days.0, i, q);
  }

  /** The key and the 业务员 of customer `i`: the customer and the 业务员 of
      its first merged row, the latest in rows sorted latest first; 0 when
      that row has none. */
  lemma ReportKey(all: seq<Row>, pivot: Frame, i: int)
    requires PivotBase(all) == Ok(pivot) && 0 <= i < |Customers(all)|
    requires forall x :: x in all ==> HasCustomer(x)
    ensures |Finished(all, pivot).rows| == |Customers(all)|
    ensures FirstRow(all, Customers(all)[i]) < |all|
    ensures CUSTOMER in Finished(all, pivot).columns && SALESMAN in Finished(all, pivot).columns
    ensures Get(Finished(all, pivot).rows[i], CUSTOMER) == Customers(all)[i]
    ensures Get(Finished(all, pivot).rows[i], SALESMAN) == FillCell(Get(all[FirstRow(all, Customers(all)[i])], SALESMAN))
  {
    var days := CalculateOrderDays(all);
    ReportSetup(all, pivot, i);
    PivotBaseRow(all, i);
    CompletedKey(pivot, DataDict(all), days.1, days.0, i);
  }

  /** The report's columns: the key, 业务员, the five ratios and each metric
      whose table is not empty, once each, in the canonical order. */
  lemma ReportColumns(all: seq<Row>, pivot: Frame)
    requires PivotBase(all) == Ok(pivot)
    ensures var cs := Finished(all, pivot).columns;
      && (forall c :: c in cs <==> c == CUSTOMER || c == SALESMAN || c in RATIOS || PresentMetric(DataDict(all), c))
      && cs == Filter(LEGACY_ORDER, c => c in cs)
      && NoDuplicates(cs)
  {
    var days := CalculateOrderDays(all);
    PivotBaseShaped(all, pivot);
    DataDictNames(all);
    CompletedColumns(pivot, DataDict(all), days.1, days.0);
  }

  /** What the tables of `data_dict` hold for a customer: its order days
      and its amounts of each category and of the fresh ones, per month;
      each table is empty exactly when its month (and category) has no row. */
  lemma DataDictMeaning(all: seq<Row>, k: Cell)
    requires k != Null && forall x :: x in all ==> CustomerOf(x) != Null
    ensures |DataDict(all)| == 10
    ensures Filled(DataDict(all)[0].values, k) == ActiveDays(all, k, LAST) as real
    ensures Filled(DataDict(all)[1].values, k) == ActiveDays(all, k, THIS) as real
    ensures Filled(DataDict(all)[2].values, k) == CategorySales(all, k, VEGETABLES, LAST)
    ensures Filled(DataDict(all)[3].values, k) == CategorySales(all, k, VEGETABLES, THIS)
    ensures Filled(DataDict(all)[4].values, k) == CategorySales(all, k, MEAT, LAST)
    ensures Filled(DataDict(all)[5].values, k) == CategorySales(all, k, MEAT, THIS)
    ensures Filled(DataDict(all)[6].values, k) == CategorySales(all, k, BEAN, LAST)
    ensures Filled(DataDict(all)[7].values, k) == CategorySales(all, k, BEAN, THIS)
    ensures Filled(DataDict(all)[8].values, k) == FreshSales(all, k, LAST)
    ensures Filled(DataDict(all)[9].values, k) == FreshSales(all, k, THIS)
  {
    DataDictValues(all);
    DaysFilled(PeriodRows(all, LAST), k);
    DaysFilled(PeriodRows(all, THIS), k);
    AmountFilled(PeriodRows(CategoryRows(all, VEGETABLES), LAST), k);
    AmountFilled(PeriodRows(CategoryRows(all, VEGETABLES), THIS), k);
    AmountFilled(PeriodRows(CategoryRows(all, MEAT), LAST), k);
    AmountFilled(PeriodRows(CategoryRows(all, MEAT), THIS), k);
    AmountFilled(PeriodRows(CategoryRows(all, BEAN), LAST), k);
    AmountFilled(PeriodRows(CategoryRows(all, BEAN), THIS), k);
    AmountFilled(PeriodRows(FreshRows(all), LAST), k);
    AmountFilled(PeriodRows(FreshRows(all), THIS), k);
  }

  /** When every merged row names a customer, a table of `data_dict` is
      empty exactly when its scope, the merged rows of its month (and
      category), is. */
  lemma DataDictPresence(all: seq<Row>)
    requires forall x :: x in all ==> CustomerOf(x) != Null
    ensures |DataDict(all)| == 10
    ensures DataDict(all)[0].values != map[] <==> PeriodRows(all, LAST) != []
    ensures DataDict(all)[1].values != map[] <==> PeriodRows(all, THIS) != []
    ensures DataDict(all)[2].values != map[] <==> PeriodRows(CategoryRows(all, VEGETABLES), LAST) != []
    ensures DataDict(all)[3].values != map[] <==> PeriodRows(CategoryRows(all, VEGETABLES), THIS) != []
    ensures DataDict(all)[4].values != map[] <==> PeriodRows(CategoryRows(all, MEAT), LAST) != []
    ensures DataDict(all)[5].values != map[] <==> PeriodRows(CategoryRows(all, MEAT), THIS) != []
    ensures DataDict(all)[6].values != map[] <==> PeriodRows(CategoryRows(all, BEAN), LAST) != []
    ensures DataDict(all)[7].values != map[] <==> PeriodRows(CategoryRows(all, BEAN), THIS) != []
    ensures DataDict(all)[8].values != map[] <==> PeriodRows(FreshRows(all), LAST) != []
    ensures DataDict(all)[9].values != map[] <==> PeriodRows(FreshRows(all), THIS) != []
  {
    DataDictValues(all);
    ScopePresence(PeriodRows(all, LAST));
    ScopePresence(PeriodRows(all, THIS));
    ScopePresence(PeriodRows(CategoryRows(all, VEGETABLES), LAST));
    ScopePresence(PeriodRows(CategoryRows(all, VEGETABLES), THIS));
    ScopePresence(PeriodRows(CategoryRows(all, MEAT), LAST));
    ScopePresence(PeriodRows(CategoryRows(all, MEAT), THIS));
    ScopePresence(PeriodRows(CategoryRows(all, BEAN), LAST));
    ScopePresence(PeriodRows(CategoryRows(all, BEAN), THIS));
    ScopePresence(PeriodRows(FreshRows(all), LAST));
    ScopePresence(PeriodRows(FreshRows(all), THIS));
  }

  /** A scope whose rows all name a customer has an empty table exactly
      when it has no row. */
  lemma ScopePresence(scoped: seq<Row>)
    requires forall x :: x in scoped ==> CustomerOf(x) != Null
    ensures DaysTable(scoped) != map[] <==> scoped != []
    ensures AmountTable(scoped) != map[] <==> scoped != []
  {
    TablesEmpty(scoped);
    if scoped != [] {
      assert scoped[0] in scoped;
    }
  }


  // ------------------------------------------------------ get_customer_diff

  /** The 本月生鲜销售额 column is there exactly when this month has a
      fresh-category row. */
  lemma FreshThisColumn(all: seq<Row>, pivot: Frame)
    requires PivotBase(all) == Ok(pivot)
    requires forall x :: x in all ==> HasCustomer(x)
    ensures FRESH_THIS in Finished(all, pivot).columns <==> PeriodRows(FreshRows(all), THIS) != []
  {
    assert all[0] in all;
    assert CustomerOf(all[0]) in Customers(all);
    assert FRESH_THIS == METRICS[9];
    ReportMetric(all, pivot, 0, 9);
    DataDictPresence(all);
  }

  /** The two errors: no merged row at all, or no fresh-category row this
      month, so no 本月生鲜销售额 column to sort by. */
  lemma CustomerDiffErrors(last: Frame, current: Frame)
    ensures var all := MergeOrder(last, current).rows;
      && (CustomerDiffOf(last, current) == Err(NoCustomers) <==> all == [])
      && (CustomerDiffOf(last, current) == Err(NoFreshSalesColumn) <==> all != [] && PeriodRows(FreshRows(all), THIS) == [])
      && (CustomerDiffOf(last, current).Ok? <==> PeriodRows(FreshRows(all), THIS) != [])
  {
    var all := MergeOrder(last, current).rows;
    if all != [] {
      FreshThisColumn(all, PivotBase(all).value);
    }
  }

  /** A report: the finished frame's columns and rows, the rows reordered
      by 本月生鲜销售额 from largest to smallest, one per customer, and the
      day of the latest shipment. */
  lemma CustomerDiffReport(last: Frame, current: Frame)
    requires CustomerDiffOf(last, current).Ok?
    ensures var all := MergeOrder(last, current).rows; var d := CustomerDiffOf(last, current).value;
      && PivotBase(all).Ok?
      && d.data.columns == Finished(all, PivotBase(all).value).columns
      && multiset(d.data.rows) == multiset(Finished(all, PivotBase(all).value).rows)
      && |d.data.rows| == |Customers(all)|
      && ValueDescending(d.data.rows, FRESH_THIS)
      && d.latestDay == LatestDay(all)
  {
    var all := MergeOrder(last, current).rows;
    var days := CalculateOrderDays(all);
    var pivot := PivotBase(all).value;
    PivotBaseShaped(all, pivot);
    DataDictNames(all);
    CompletedMetric(pivot, DataDict(all), days.1, days.0, 0, 0);
  }
}
