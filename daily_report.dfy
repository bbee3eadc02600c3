/** The comparison sheet of the daily report: one 日活 and one 金额 column
    per period over the universe of group keys, the difference and ratio
    columns against the current period, the sheet title, and the five
    configured sheets. */
module DailyReport {
  import opened Cells
  import opened SeqUtil
  import opened Numbers
  import opened Text
  import opened BaseExcel
  import opened DailyPivot

  // ------------------------------------------------------ column assignment

  /** The columns assigned one after the other, in list order. */
  function AssignAll(f: Frame, names: seq<string>, values: seq<seq<Cell>>): (r: Frame)
    requires |names| == |values|
    requires forall v :: v in values ==> |v| == |f.rows|
    ensures |r.rows| == |f.rows|
    ensures forall c :: c in r.columns <==> c in f.columns || c in names
    ensures forall i, c :: 0 <= i < |f.rows| && c !in names ==> Get(r.rows[i], c) == Get(f.rows[i], c)
  {
    if names == [] then f
    else
      var n := |names| - 1;
      assert forall v :: v in values[..n] ==> v in values;
      AssignColumn(AssignAll(f, names[..n], values[..n]), names[n], values[n])
  }

  // ---------------------------------------------------------- period columns

  /** The 平均值 of key `k` in a table, 0 for a key the table lacks. */
  function AverageOrZero(t: PivotTable, k: Key): real
    requires WellFormedTable(t)
  {
    if k in t.index then t.average[k] else 0.0
  }

  /** One period column: for every row of the key frame, the 平均值 of the
      row's key. */
  function MetricValues(t: PivotTable, rows: seq<Row>, fields: seq<string>): (v: seq<Cell>)
    requires WellFormedTable(t)
    ensures |v| == |rows|
    ensures forall i :: 0 <= i < |rows| ==> v[i] == Num(AverageOrZero(t, KeyOf(rows[i], fields)))
  {
    Map(rows, r => Num(AverageOrZero(t, KeyOf(r, fields))))
  }

  /** The row loop of `get_compare_data` for one table. */
  method CollectMetricValues(t: PivotTable, rows: seq<Row>, fields: seq<string>) returns (col: seq<Cell>)
    requires WellFormedTable(t)
    ensures col == MetricValues(t, rows, fields)
  {
    col := [];
    var i := 0;
    while i < |rows|
      invariant 0 <= i <= |rows|
      invariant col == MetricValues(t, rows[..i], fields)
    {
      var keyValues := KeyOf(rows[i], fields);
      if keyValues in t.index {
        col := col + [Num(t.average[keyValues])];
      } else {
        col := col + [Num(0.0)];
      }
      i := i + 1;
      assert rows[..i] == rows[..i - 1] + [rows[i - 1]];
    }
    assert rows[..i] == rows;
  }

  /** What the first loop of `get_compare_data` collects: the column names,
      the column values and the date label of every present period. */
  datatype Gathered = Gathered(names: seq<string>, values: seq<seq<Cell>>, descriptions: seq<string>)

  const ACTIVE := "日活"
  const MONEY := "金额"

  /** `'日活' in col` and `'金额' in col`: how the source tells the period
      columns of the two metrics apart. */
  predicate IsActiveColumn(name: string) {
    Contains(name, ACTIVE)
  }

  predicate IsMoneyColumn(name: string) {
    Contains(name, MONEY)
  }

  /** `g` extended by one period: an absent period adds nothing, a present
      one its label and the columns of its non-empty tables. */
  function Extend(g: Gathered, pp: PeriodPivot, d: string, rows: seq<Row>, fields: seq<string>): Gathered
    requires WellFormedPeriod(pp)
  {
    match pp
    case Absent => g
    case Present(p) =>
      Gathered(g.names + PeriodNames(p, d),
               g.values + (if p.dailyActive.index != [] then [MetricValues(p.dailyActive, rows, fields)] else [])
                        + (if p.realMoney.index != [] then [MetricValues(p.realMoney, rows, fields)] else []),
               g.descriptions + [d])
  }

  function Gather(rows: seq<Row>, fields: seq<string>, pivots: seq<PeriodPivot>, descs: seq<string>): (g: Gathered)
    requires |descs| == |pivots|
    requires forall i :: 0 <= i < |pivots| ==> WellFormedPeriod(pivots[i])
    ensures |g.names| == |g.values|
    ensures forall v :: v in g.values ==> |v| == |rows|
  {
    if pivots == [] then Gathered([], [], [])
    else
      var n := |pivots| - 1;
      Extend(Gather(rows, fields, pivots[..n], descs[..n]), pivots[n], descs[n], rows, fields)
  }

  /** One more period of the first loop of `get_compare_data`. */
  lemma GatherStep(rows: seq<Row>, fields: seq<string>, pivots: seq<PeriodPivot>, descs: seq<string>, i: int)
    requires |descs| == |pivots| && 0 <= i < |pivots|
    requires forall i :: 0 <= i < |pivots| ==> WellFormedPeriod(pivots[i])
    ensures Gather(rows, fields, pivots[..i + 1], descs[..i + 1])
            == Extend(Gather(rows, fields, pivots[..i], descs[..i]), pivots[i], descs[i], rows, fields)
  {
    assert pivots[..i + 1][..i] == pivots[..i] && descs[..i + 1][..i] == descs[..i];
  }

  /** Every character of a date label is a digit, '.', '-' or '日'. */
  predicate Labels(descs: seq<string>) {
    forall i :: 0 <= i < |descs| ==> LabelChars(descs[i])
  }

  /** Over a date label, the substring tests of the source tell the two
      metric columns apart. */
  lemma MetricNames(d: string)
    requires LabelChars(d)
    ensures Contains(d + ACTIVE, ACTIVE) && !Contains(d + ACTIVE, MONEY)
    ensures Contains(d + MONEY, MONEY) && !Contains(d + MONEY, ACTIVE)
  {
    ContainsSuffix(d, ACTIVE);
    ContainsSuffix(d, MONEY);
    assert forall i :: 0 <= i < |d + ACTIVE| ==> (d + ACTIVE)[i] != '金' by {
      forall i | 0 <= i < |d + ACTIVE|
        ensures (d + ACTIVE)[i] != '金'
      {
        if i < |d| {
          assert (d + ACTIVE)[i] == d[i];
        }
      }
    }
    assert forall i :: 0 <= i < |d + MONEY| ==> (d + MONEY)[i] != '活' by {
      forall i | 0 <= i < |d + MONEY|
        ensures (d + MONEY)[i] != '活'
      {
        if i < |d| {
          assert (d + MONEY)[i] == d[i];
        }
      }
    }
    ContainsHasChars(d + ACTIVE, MONEY, '金');
    ContainsHasChars(d + MONEY, ACTIVE, '活');
  }

  /** The column names a present period adds. */
  function PeriodNames(p: Pivots, d: string): seq<string> {
    (if p.dailyActive.index != [] then [d + ACTIVE] else []) + (if p.realMoney.index != [] then [d + MONEY] else [])
  }

  lemma PeriodNamesCounts(p: Pivots, d: string)
    requires LabelChars(d)
    ensures |Filter(PeriodNames(p, d), IsActiveColumn)| <= 1
    ensures |Filter(PeriodNames(p, d), IsMoneyColumn)| <= 1
  {
    MetricNames(d);
    var a := if p.dailyActive.index != [] then [d + ACTIVE] else [];
    var m := if p.realMoney.index != [] then [d + MONEY] else [];
    FilterAppend(a, m, IsActiveColumn);
    FilterAppend(a, m, IsMoneyColumn);
  }

  /** Each present period adds at most one 日活 and at most one 金额 column
      and always one date label. */
  lemma {:induction false} GatherCounts(rows: seq<Row>, fields: seq<string>, pivots: seq<PeriodPivot>, descs: seq<string>)
    requires |descs| == |pivots| && Labels(descs)
    requires forall i :: 0 <= i < |pivots| ==> WellFormedPeriod(pivots[i])
    ensures var g := Gather(rows, fields, pivots, descs);
            |Filter(g.names, IsActiveColumn)| <= |g.descriptions|
            && |Filter(g.names, IsMoneyColumn)| <= |g.descriptions|
  {
    if pivots != [] {
      var n := |pivots| - 1;
      GatherCounts(rows, fields, pivots[..n], descs[..n]);
      var g := Gather(rows, fields, pivots[..n], descs[..n]);
      if pivots[n].Present? {
        var p := pivots[n].pivots;
        PeriodNamesCounts(p, descs[n]);
        FilterAppend(g.names, PeriodNames(p, descs[n]), IsActiveColumn);
        FilterAppend(g.names, PeriodNames(p, descs[n]), IsMoneyColumn);
      }
    }
  }

  // ------------------------------------------------------ comparison columns

  /** `current - compare`. */
  function Sub(a: Cell, b: Cell): Cell {
    if a.Num? && b.Num? then Num(a.x - b.x) else Null
  }

  /** `(current / compare - 1).round(4)`, NaN where compare is 0. */
  function Ratio(a: Cell, b: Cell): Cell {
    if b == Num(0.0) then Null
    else if a.Num? && b.Num? then Num(Round(a.x / b.x - 1.0, 4)) else Null
  }

  function DiffName(desc: string, metric: string): string {
    "对比" + desc + metric + "差值"
  }

  function RatioName(desc: string, metric: string): string {
    "对比" + desc + metric + "环比"
  }

  /** The difference column and then the ratio column of `current` against
      `other`, named after the other period's label. */
  function CompareAgainst(f: Frame, current: string, other: string, desc: string, metric: string): (r: Frame)
    ensures |r.rows| == |f.rows|
    ensures forall c :: c in r.columns <==> c in f.columns || c == DiffName(desc, metric) || c == RatioName(desc, metric)
    ensures forall i :: 0 <= i < |f.rows| ==>
              Get(r.rows[i], DiffName(desc, metric)) == Sub(Get(f.rows[i], current), Get(f.rows[i], other))
    ensures DiffName(desc, metric) != current && DiffName(desc, metric) != other ==>
              forall i :: 0 <= i < |f.rows| ==>
                Get(r.rows[i], RatioName(desc, metric)) == Ratio(Get(f.rows[i], current), Get(f.rows[i], other))
    ensures forall i, c :: 0 <= i < |f.rows| && c != DiffName(desc, metric) && c != RatioName(desc, metric) ==>
              Get(r.rows[i], c) == Get(f.rows[i], c)
  {
    assert DiffName(desc, metric)[|DiffName(desc, metric)| - 1] != RatioName(desc, metric)[|RatioName(desc, metric)| - 1];
    var diff := AssignColumn(f, DiffName(desc, metric), Map(f.rows, row => Sub(Get(row, current), Get(row, other))));
    AssignColumn(diff, RatioName(desc, metric), Map(diff.rows, row => Ratio(Get(row, current), Get(row, other))))
  }

  /** The comparisons of one metric: the first of its columns against the
      second and, when there is one, against the third; the labels are taken
      by position from the date labels. */
  function CompareMetric(f: Frame, cols: seq<string>, descs: seq<string>, metric: string): (r: Frame)
    requires |cols| <= |descs|
    ensures |r.rows| == |f.rows|
  {
    if |cols| >= 2 then
      var first := CompareAgainst(f, cols[0], cols[1], descs[1], metric);
      if |cols| >= 3 then CompareAgainst(first, cols[0], cols[2], descs[2], metric) else first
    else f
  }

  /** `get_compare_data` for the key frame `base`, the periods in order
      (current, compare, extra) and their date labels. */
  function CompareData(base: Frame, fields: seq<string>, pivots: seq<PeriodPivot>, descs: seq<string>): (r: Frame)
    requires |descs| == |pivots| && Labels(descs)
    requires forall i :: 0 <= i < |pivots| ==> WellFormedPeriod(pivots[i])
    ensures |r.rows| == |base.rows|
  {
    var g := Gather(base.rows, fields, pivots, descs);
    var withPeriods := AssignAll(base, g.names, g.values);
    if |g.values| >= 2 then
      GatherCounts(base.rows, fields, pivots, descs);
      var active := Filter(g.names, IsActiveColumn);
      var money := Filter(g.names, IsMoneyColumn);
      CompareMetric(CompareMetric(withPeriods, active, g.descriptions, ACTIVE), money, g.descriptions, MONEY)
    else withPeriods
  }

  // ---------------------------------------------------------------- sheets

  /** The label of period `i`, read from the stored unfiltered frames. */
  function PeriodDescription(current: Frame, compare: Frame, extra: Option<Frame>, i: nat): string {
    if i == 0 then DateRangeDescription(current)
    else if i == 1 then DateRangeDescription(compare)
    else match extra
      case Some(e) => DateRangeDescription(e)
      case None => ""
  }

  function Descriptions(current: Frame, compare: Frame, extra: Option<Frame>, n: nat): (ds: seq<string>)
    ensures |ds| == n && Labels(ds)
    ensures forall i :: 0 <= i < n ==> ds[i] == PeriodDescription(current, compare, extra, i)
  {
    if n == 0 then []
    else
      var ds := Descriptions(current, compare, extra, n - 1);
      var d := PeriodDescription(current, compare, extra, n - 1);
      DescriptionLabels(current, compare, extra, n - 1);
      ds + [d]
  }

  lemma DescriptionLabels(current: Frame, compare: Frame, extra: Option<Frame>, i: nat)
    ensures LabelChars(PeriodDescription(current, compare, extra, i))
  {
    DateRangeAlphabet(current);
    DateRangeAlphabet(compare);
    if extra.Some? {
      DateRangeAlphabet(extra.value);
    }
  }

  /** The options of one sheet. */
  datatype CompareOptions = CompareOptions(currentData: Frame, compareData: Frame, extraCompareData: Option<Frame>,
                                           rowFields: seq<string>, sheetName: string, filterOptions: seq<FilterOption>)

  datatype Sheet = Sheet(title: string, data: Frame, sheetName: string)

  /** The three pivots in period order; without an extra period the third
      is the empty `{}`. The first pivot that fails is the error. */
  function PeriodPivots(current: Frame, compare: Frame, extra: Option<Frame>, fields: seq<string>): (r: Result<seq<PeriodPivot>, PivotError>)
    requires |fields| >= 1
    ensures r.Ok? ==> |r.value| == 3 && r.value[0].Present? && r.value[1].Present?
    ensures r.Ok? ==> (r.value[2].Absent? <==> extra.None?)
    ensures r.Ok? ==> forall i :: 0 <= i < 3 ==> WellFormedPeriod(r.value[i])
  {
    var cp := PivotData(current, fields);
    if cp.Err? then Err(cp.error)
    else
      var pp := PivotData(compare, fields);
      if pp.Err? then Err(pp.error)
      else match extra
        case None => Ok([Present(cp.value), Present(pp.value), Absent])
        case Some(e) =>
          var ep := PivotData(e, fields);
          if ep.Err? then Err(ep.error) else Ok([Present(cp.value), Present(pp.value), Present(ep.value)])
  }

  /** The sheet title: the sheet name and the filtered current period's
      date label. */
  function Title(sheetName: string, current: Frame): string {
    sheetName + "(发货日期" + DateRangeDescription(current) + ")"
  }

  /** `get_compare_sheet`: filter every period, pivot, take the key
      universe, compare. The column labels come from the unfiltered frames,
      the title from the filtered current period. */
  function CompareSheet(o: CompareOptions): (r: Result<Sheet, PivotError>)
    requires |o.rowFields| >= 1
    ensures r.Ok? ==> r.value.sheetName == o.sheetName && r.value.title == Title(o.sheetName, OptionsFiltered(o.currentData, o.filterOptions))
  {
    var current := OptionsFiltered(o.currentData, o.filterOptions);
    var compare := OptionsFiltered(o.compareData, o.filterOptions);
    var extra := match o.extraCompareData case Some(e) => Some(OptionsFiltered(e, o.filterOptions)) case None => None;
    var pivots := PeriodPivots(current, compare, extra, o.rowFields);
    if pivots.Err? then Err(pivots.error)
    else
      var keys := CollectedKeys(pivots.value);
      var descs := Descriptions(o.currentData, o.compareData, o.extraCompareData, 3);
      var data := CompareData(KeysFrame(o.rowFields, keys), o.rowFields, pivots.value, descs);
      Ok(Sheet(Title(o.sheetName, current), data, o.sheetName))
  }

  /** One entry of the sheet configuration. */
  datatype SheetConfig = SheetConfig(sheetName: string, rowFields: seq<string>, filterOptions: seq<FilterOption>)

  /** The five sheets of the report: by category, by salesman, by salesman
      for fresh vegetables only, by route, and by route and category. */
  const SheetsConfig: seq<SheetConfig> := [
    SheetConfig("品类数据", [CATEGORY], []),
    SheetConfig("业务数据", [SALESMAN], []),
    SheetConfig("业务蔬菜数据", [SALESMAN], [FilterOption(CATEGORY, [Text("新鲜蔬菜")], false)]),
    SheetConfig("线路数据", [ROUTE], []),
    SheetConfig("线路品类", [ROUTE, CATEGORY], [])
  ]

  /** `_preprocess_data`: 实际金额 made numeric, then the rows without a
      customer or a shipment time dropped. */
  function Preprocess(f: Frame): (r: Frame)
    ensures r.columns == f.columns
    ensures forall row :: row in r.rows <==>
              row in CleanedNumeric(f, AMOUNT).rows && Get(row, CUSTOMER) != Null && Get(row, TIME) != Null
    ensures IsSubsequence(r.rows, CleanedNumeric(f, AMOUNT).rows)
    ensures AMOUNT in f.columns ==> forall row :: row in r.rows ==> Get(row, AMOUNT).Num?
  {
    var cleaned := CleanedNumeric(f, AMOUNT);
    FilterIsSubsequence(cleaned.rows, Identified);
    Frame(cleaned.columns, Filter(cleaned.rows, Identified))
  }

  /** A row that `dropna(subset=['客户名称', '发货时间'])` keeps. */
  predicate Identified(row: Row) {
    Get(row, CUSTOMER) != Null && Get(row, TIME) != Null
  }

  function SheetOptions(current: Frame, compare: Frame, extra: Option<Frame>, c: SheetConfig): CompareOptions {
    CompareOptions(current, compare, extra, c.rowFields, c.sheetName, c.filterOptions)
  }

  /** The results of a run of steps, or the error of the first one that
      failed. */
  function Collect<T, E>(rs: seq<Result<T, E>>): (r: Result<seq<T>, E>)
    ensures r.Ok? <==> forall i :: 0 <= i < |rs| ==> rs[i].Ok?
    ensures r.Ok? ==> |r.value| == |rs| && forall i :: 0 <= i < |rs| ==> rs[i] == Ok(r.value[i])
  {
    if rs == [] then Ok([])
    else
      var n := |rs| - 1;
      var init := Collect(rs[..n]);
      assert forall i :: 0 <= i < n ==> rs[..n][i] == rs[i];
      if init.Err? then init
      else match rs[n]
        case Err(e) => Err(e)
        case Ok(x) => Ok(init.value + [x])
  }

  /** The error of a failed run is the error of its first failed step. */
  lemma {:induction false} CollectFirstError<T, E>(rs: seq<Result<T, E>>)
    ensures Collect(rs).Err? ==> exists i :: 0 <= i < |rs| && rs[i] == Err(Collect(rs).error)
                                   && forall j :: 0 <= j < i ==> rs[j].Ok?
  {
    if Collect(rs).Err? {
      var i := FirstError(rs);
    }
  }

  /** The index of the first failed step of a failed run. */
  lemma {:induction false} FirstError<T, E>(rs: seq<Result<T, E>>) returns (i: int)
    requires Collect(rs).Err?
    ensures 0 <= i < |rs| && rs[i] == Err(Collect(rs).error)
    ensures forall j :: 0 <= j < i ==> rs[j].Ok?
  {
    var n := |rs| - 1;
    var pre := rs[..n];
    assert forall j :: 0 <= j < n ==> rs[j] == pre[j];
    if Collect(pre).Err? {
      i := FirstError(pre);
      assert rs[i] == pre[i];
    } else {
      i := n;
    }
  }

  /** The sheet of every configuration, in configuration order. */
  function SheetResults(current: Frame, compare: Frame, extra: Option<Frame>, configs: seq<SheetConfig>): (rs: seq<Result<Sheet, PivotError>>)
    requires forall i :: 0 <= i < |configs| ==> |configs[i].rowFields| >= 1
    ensures |rs| == |configs|
  {
    seq(|configs|, i requires 0 <= i < |configs| => CompareSheet(SheetOptions(current, compare, extra, configs[i])))
  }

  /** The sheets of the configurations, in order; the first failing sheet
      is the error. */
  function Sheets(current: Frame, compare: Frame, extra: Option<Frame>, configs: seq<SheetConfig>): (r: Result<seq<Sheet>, PivotError>)
    requires forall i :: 0 <= i < |configs| ==> |configs[i].rowFields| >= 1
    ensures r.Ok? ==> |r.value| == |configs|
    ensures r.Ok? ==> forall i :: 0 <= i < |configs| ==> r.value[i].sheetName == configs[i].sheetName
  {
    var rs := SheetResults(current, compare, extra, configs);
    var r := Collect(rs);
    assert r.Ok? ==> forall i :: 0 <= i < |configs| ==> rs[i] == Ok(r.value[i]);
    r
  }

  /** `process_daily_report` on frames already read: the preprocessed
      periods turned into the five configured sheets, in order. */
  function DailyReport(current: Frame, compare: Frame, extra: Option<Frame>): (r: Result<seq<Sheet>, PivotError>)
    ensures r.Ok? ==> |r.value| == 5
    ensures r.Ok? ==> forall i :: 0 <= i < 5 ==> r.value[i].sheetName == SheetsConfig[i].sheetName
  {
    var e := match extra case Some(x) => Some(Preprocess(x)) case None => None;
    Sheets(Preprocess(current), Preprocess(compare), e, SheetsConfig)
  }

  /** The body of the first loop of `get_compare_data` for a present
      period: its label, then a 日活 and a 金额 column for each non-empty
      table. */
  method AddPeriod(names: seq<string>, values: seq<seq<Cell>>, descs: seq<string>,
                   pp: PeriodPivot, dateDesc: string, rows: seq<Row>, fields: seq<string>)
    returns (names': seq<string>, values': seq<seq<Cell>>, descs': seq<string>)
    requires pp.Present? && WellFormedPeriod(pp)
    ensures Gathered(names', values', descs') == Extend(Gathered(names, values, descs), pp, dateDesc, rows, fields)
  {
    var p := pp.pivots;
    names', values', descs' := names, values, descs + [dateDesc];
    if p.dailyActive.index != [] {
      var col := CollectMetricValues(p.dailyActive, rows, fields);
      names' := names' + [dateDesc + ACTIVE];
      values' := values' + [col];
    }
    if p.realMoney.index != [] {
      var col := CollectMetricValues(p.realMoney, rows, fields);
      names' := names' + [dateDesc + MONEY];
      values' := values' + [col];
    }
  }

  /** The filtering step of `get_compare_sheet`: every period through
      `filter_data_by_options`, a missing extra period left missing. */
  method FilterPeriods(current: Frame, compare: Frame, extra: Option<Frame>, options: seq<FilterOption>)
    returns (current': Frame, compare': Frame, extra': Option<Frame>)
    ensures current' == OptionsFiltered(current, options) && compare' == OptionsFiltered(compare, options)
    ensures extra' == match extra case Some(e) => Some(OptionsFiltered(e, options)) case None => None
  {
    current' := FilterDataByOptions(current, options);
    compare' := FilterDataByOptions(compare, options);
    extra' := None;
    if extra.Some? {
      var filtered := FilterDataByOptions(extra.value, options);
      extra' := Some(filtered);
    }
  }

  /** Every configured sheet groups by at least one field. */
  lemma SheetsConfigFields()
    ensures |SheetsConfig| == 5
    ensures forall i :: 0 <= i < |SheetsConfig| ==> |SheetsConfig[i].rowFields| >= 1
  {
  }

  /** One more step of a run. */
  lemma CollectStep<T, E>(rs: seq<Result<T, E>>, i: int)
    requires 0 <= i < |rs|
    ensures Collect(rs[..i]).Ok? ==>
              Collect(rs[..i + 1]) == match rs[i] case Err(e) => Err(e) case Ok(x) => Ok(Collect(rs[..i]).value + [x])
  {
    assert rs[..i + 1][..i] == rs[..i];
  }

  /** The next step of a run that has not failed: its error ends the run,
      its value is appended. */
  lemma CollectNext<T, E>(rs: seq<Result<T, E>>, i: int, done: seq<T>)
    requires 0 <= i < |rs| && Collect(rs[..i]) == Ok(done)
    ensures rs[i].Err? ==> Collect(rs) == Err(rs[i].error)
    ensures rs[i].Ok? ==> Collect(rs[..i + 1]) == Ok(done + [rs[i].value])
  {
    CollectStep(rs, i);
    if rs[i].Err? {
      CollectErrorStays(rs, i + 1, |rs|);
      assert rs[..|rs|] == rs;
    }
  }

  /** A whole run. */
  lemma CollectWhole<T, E>(rs: seq<Result<T, E>>, done: seq<T>)
    requires Collect(rs[..|rs|]) == Ok(done)
    ensures Collect(rs) == Ok(done)
  {
    assert rs[..|rs|] == rs;
  }

  /** The sheet of configuration `i`. */
  lemma SheetResultAt(current: Frame, compare: Frame, extra: Option<Frame>, configs: seq<SheetConfig>, i: int)
    requires forall i :: 0 <= i < |configs| ==> |configs[i].rowFields| >= 1
    requires 0 <= i < |configs|
    ensures SheetResults(current, compare, extra, configs)[i] == CompareSheet(SheetOptions(current, compare, extra, configs[i]))
  {
  }

  /** The report is the run of the configured sheets over the preprocessed
      periods. */
  lemma ReportResults(current: Frame, compare: Frame, extra: Option<Frame>)
    ensures forall i :: 0 <= i < |SheetsConfig| ==> |SheetsConfig[i].rowFields| >= 1
    ensures DailyReport(current, compare, extra)
            == Collect(SheetResults(Preprocess(current), Preprocess(compare),
                                    match extra case Some(x) => Some(Preprocess(x)) case None => None, SheetsConfig))
  {
    SheetsConfigFields();
  }

  /** A failed step is the error of every longer run. */
  lemma {:induction false} CollectErrorStays<T, E>(rs: seq<Result<T, E>>, i: int, k: int)
    requires 0 <= i <= k <= |rs|
    requires Collect(rs[..i]).Err?
    ensures Collect(rs[..k]) == Collect(rs[..i])
    decreases k
  {
    if k > i {
      CollectErrorStays(rs, i, k - 1);
      assert rs[..k][..k - 1] == rs[..k - 1];
    }
  }

  /** One more assignment extends the run by one column. */
  lemma AssignAllStep(f: Frame, names: seq<string>, values: seq<seq<Cell>>, j: int)
    requires |names| == |values| && 0 <= j < |names|
    requires forall v :: v in values ==> |v| == |f.rows|
    ensures forall v :: v in values[..j] ==> |v| == |f.rows|
    ensures forall v :: v in values[..j + 1] ==> |v| == |f.rows|
    ensures |values[j]| == |AssignAll(f, names[..j], values[..j]).rows|
    ensures AssignAll(f, names[..j + 1], values[..j + 1])
            == AssignColumn(AssignAll(f, names[..j], values[..j]), names[j], values[j])
  {
    assert names[..j + 1][..j] == names[..j] && values[..j + 1][..j] == values[..j];
    assert forall v :: v in values[..j + 1] ==> v in values;
    assert values[j] in values;
  }

  /** The assignment loop of `get_compare_data`. */
  method AssignColumns(f: Frame, names: seq<string>, values: seq<seq<Cell>>) returns (result: Frame)
    requires |names| == |values|
    requires forall v :: v in values ==> |v| == |f.rows|
    ensures result == AssignAll(f, names, values)
  {
    result := f;
    var j := 0;
    while j < |names|
      invariant 0 <= j <= |names|
      invariant result == AssignAll(f, names[..j], values[..j])
    {
      AssignAllStep(f, names, values, j);
      result := AssignColumn(result, names[j], values[j]);
      j := j + 1;
    }
    assert names[..j] == names && values[..j] == values;
  }

  // ------------------------------------------------------------ processor

  /** The processor object: `get_compare_sheet` stores the three unfiltered
      frames in these fields and `get_compare_data` reads them back for the
      column labels. */
  class DailyReportProcessor {
    var currentData: Frame
    var compareData: Frame
    var extraCompareData: Option<Frame>

    constructor ()
      ensures currentData == Frame([], []) && compareData == Frame([], []) && extraCompareData == None
    {
      currentData := Frame([], []);
      compareData := Frame([], []);
      extraCompareData := None;
    }

    /** The first loop of `get_compare_data`: the columns and labels of
        the present periods. A present period past the second needs the
        stored extra frame, which the source reads for its label. */
    method CollectColumns(rows: seq<Row>, fields: seq<string>, pivots: seq<PeriodPivot>)
      returns (columnNames: seq<string>, dataValues: seq<seq<Cell>>, dateDescriptions: seq<string>)
      requires forall i :: 0 <= i < |pivots| ==> WellFormedPeriod(pivots[i])
      requires forall i :: 2 <= i < |pivots| && pivots[i].Present? ==> extraCompareData.Some?
      ensures Gathered(columnNames, dataValues, dateDescriptions)
              == Gather(rows, fields, pivots, Descriptions(currentData, compareData, extraCompareData, |pivots|))
    {
      ghost var descs := Descriptions(currentData, compareData, extraCompareData, |pivots|);
      columnNames, dataValues, dateDescriptions := [], [], [];
      var i := 0;
      while i < |pivots|
        invariant 0 <= i <= |pivots|
        invariant Gathered(columnNames, dataValues, dateDescriptions) == Gather(rows, fields, pivots[..i], descs[..i])
      {
        GatherStep(rows, fields, pivots, descs, i);
        if pivots[i].Present? {
          var dateDesc := PeriodDescription(currentData, compareData, extraCompareData, i);
          columnNames, dataValues, dateDescriptions :=
            AddPeriod(columnNames, dataValues, dateDescriptions, pivots[i], dateDesc, rows, fields);
        }
        i := i + 1;
      }
      assert pivots[..i] == pivots && descs[..i] == descs;
    }

    /** `get_compare_data`: the period columns over the key frame, then the
        comparisons once there are at least two period columns. */
    method GetCompareData(rowFieldsData: Frame, fields: seq<string>, pivots: seq<PeriodPivot>) returns (result: Frame)
      requires forall i :: 0 <= i < |pivots| ==> WellFormedPeriod(pivots[i])
      requires forall i :: 2 <= i < |pivots| && pivots[i].Present? ==> extraCompareData.Some?
      ensures result == CompareData(rowFieldsData, fields, pivots, Descriptions(currentData, compareData, extraCompareData, |pivots|))
    {
      ghost var descs := Descriptions(currentData, compareData, extraCompareData, |pivots|);
      var columnNames, dataValues, dateDescriptions := CollectColumns(rowFieldsData.rows, fields, pivots);
      result := AssignColumns(rowFieldsData, columnNames, dataValues);
      if |dataValues| >= 2 {
        GatherCounts(rowFieldsData.rows, fields, pivots, descs);
        var activeCols := Filter(columnNames, IsActiveColumn);
        var moneyCols := Filter(columnNames, IsMoneyColumn);
        if |activeCols| >= 2 {
          result := CompareAgainst(result, activeCols[0], activeCols[1], dateDescriptions[1], ACTIVE);
        }
        if |activeCols| >= 3 {
          result := CompareAgainst(result, activeCols[0], activeCols[2], dateDescriptions[2], ACTIVE);
        }
        if |moneyCols| >= 2 {
          result := CompareAgainst(result, moneyCols[0], moneyCols[1], dateDescriptions[1], MONEY);
        }
        if |moneyCols| >= 3 {
          result := CompareAgainst(result, moneyCols[0], moneyCols[2], dateDescriptions[2], MONEY);
        }
      }
    }

    /** `get_compare_sheet`: stores the unfiltered frames, then builds the
        sheet. */
    method GetCompareSheet(options: CompareOptions) returns (r: Result<Sheet, PivotError>)
      requires |options.rowFields| >= 1
      modifies this
      ensures currentData == options.currentData && compareData == options.compareData
      ensures extraCompareData == options.extraCompareData
      ensures r == CompareSheet(options)
    {
      var current := options.currentData;
      var compare := options.compareData;
      var extra := options.extraCompareData;
      currentData := current;
      compareData := compare;
      extraCompareData := extra;
      current, compare, extra := FilterPeriods(current, compare, extra, options.filterOptions);
      var pivots := PeriodPivots(current, compare, extra, options.rowFields);
      if pivots.Err? {
        return Err(pivots.error);
      }
      var keys, rowFieldsData := CollectionFields(pivots.value, options.rowFields);
      var data := GetCompareData(rowFieldsData, options.rowFields, pivots.value);
      r := Ok(Sheet(Title(options.sheetName, current), data, options.sheetName));
    }

    /** `process_daily_report` on frames already read: preprocess the
        periods, then build the configured sheets. */
    method ProcessDailyReport(current: Frame, compare: Frame, extra: Option<Frame>) returns (r: Result<seq<Sheet>, PivotError>)
      modifies this
      ensures r == DailyReport(current, compare, extra)
    {
      var currentData := Preprocess(current);
      var compareData := Preprocess(compare);
      var extraData := match extra case Some(x) => Some(Preprocess(x)) case None => None;
      SheetsConfigFields();
      ReportResults(current, compare, extra);
      r := BuildSheets(currentData, compareData, extraData, SheetsConfig);
    }

    /** The loop of `process_daily_report` over the sheet configurations:
        the sheets in order, or the error of the first that fails. */
    method BuildSheets(currentData: Frame, compareData: Frame, extraData: Option<Frame>, configs: seq<SheetConfig>)
      returns (r: Result<seq<Sheet>, PivotError>)
      requires forall i :: 0 <= i < |configs| ==> |configs[i].rowFields| >= 1
      modifies this
      ensures r == Collect(SheetResults(currentData, compareData, extraData, configs))
    {
      var sheetsData: seq<Sheet> := [];
      ghost var results := SheetResults(currentData, compareData, extraData, configs);
      var i := 0;
      while i < |configs|
        invariant 0 <= i <= |configs|
        invariant Collect(results[..i]) == Ok(sheetsData)
      {
        var config := configs[i];
        var sheet := GetCompareSheet(SheetOptions(currentData, compareData, extraData, config));
        SheetResultAt(currentData, compareData, extraData, configs, i);
        CollectNext(results, i, sheetsData);
        if sheet.Err? {
          return Err(sheet.error);
        }
        sheetsData := sheetsData + [sheet.value];
        i := i + 1;
      }
      CollectWhole(results, sheetsData);
      r := Ok(sheetsData);
    }
  }
}
