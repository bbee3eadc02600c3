/** The per-period steps of the daily report: filtering by include/exclude
    options, the two pivot tables (distinct customers and amount per group
    and shipment time, with their row average), the date-range label and the
    union of group keys across periods. */
module DailyPivot {
  import opened Cells
  import opened SeqUtil
  import opened Numbers
  import opened Text
  import opened BaseExcel

  // ------------------------------------------------------- filter options

  /** One entry of `filter_options`: the column, the listed values and
      whether the listed values are excluded instead of kept. */
  datatype FilterOption = FilterOption(key: string, values: seq<Cell>, reverse: bool)

  /** `isin(values)`, negated when `reverse`; a missing cell is matched by a
      missing value in the list. */
  predicate Keeps(o: FilterOption, c: Cell) {
    (c in o.values) != o.reverse
  }

  function AsCondition(o: FilterOption): (string, Condition) {
    (o.key, Satisfies(c => Keeps(o, c)))
  }

  function OptionConditions(options: seq<FilterOption>): seq<(string, Condition)> {
    Map(options, AsCondition)
  }

  /** The rows that pass every option, with the columns unchanged. */
  function OptionsFiltered(data: Frame, options: seq<FilterOption>): Frame {
    Frame(data.columns, Filter(data.rows, r => MeetsAll(OptionConditions(options), data.columns, r)))
  }

  /** `filter_data_by_options`: no options return the data itself; otherwise
      every option whose key is a column keeps (or, reversed, drops) the rows
      whose value is listed, and the options combine as a conjunction. */
  method FilterDataByOptions(data: Frame, options: seq<FilterOption>) returns (result: Frame)
    ensures options == [] ==> result == data
    ensures result == OptionsFiltered(data, options)
    ensures IsSubsequence(result.rows, data.rows)
    ensures forall r :: r in result.rows <==>
              r in data.rows && forall i :: 0 <= i < |options| && options[i].key in data.columns ==>
                                  Keeps(options[i], Get(r, options[i].key))
  {
    OptionsFilteredFacts(data, options);
    if options == [] {
      result := data;
    } else {
      result := ApplyOptions(data, options);
    }
  }

  /** The loop of `filter_data_by_options`, one option at a time. */
  method ApplyOptions(data: Frame, options: seq<FilterOption>) returns (result: Frame)
    ensures result == OptionsFiltered(data, options)
  {
    result := data;
    OptionsFilteredFacts(data, []);
    assert options[..0] == [];
    var i := 0;
    while i < |options|
      invariant 0 <= i <= |options|
      invariant result == OptionsFiltered(data, options[..i])
    {
      var option := options[i];
      OptionStep(data, options, i);
      if option.key in result.columns {
        result := Frame(result.columns, Filter(result.rows, r => Keeps(option, Get(r, option.key))));
      }
      i := i + 1;
    }
    assert options[..i] == options;
  }

  /** One pass of the loop: filtering by option `i` extends the filtered
      prefix by one option. */
  lemma OptionStep(data: Frame, options: seq<FilterOption>, i: int)
    requires 0 <= i < |options|
    ensures var f := OptionsFiltered(data, options[..i]); var o := options[i];
      f.columns == data.columns
      && (if o.key in f.columns then Frame(f.columns, Filter(f.rows, r => Keeps(o, Get(r, o.key)))) else f)
         == OptionsFiltered(data, options[..i + 1])
  {
    var conds := OptionConditions(options);
    var o := options[i];
    var f := OptionsFiltered(data, options[..i]);
    assert OptionConditions(options[..i]) == conds[..i];
    assert OptionConditions(options[..i + 1]) == conds[..i + 1];
    FilterStep(data.rows, conds, i, data.columns);
    FilterExtensional(data.rows, r => MeetsAll(conds[..i], data.columns, r), r => MeetsAll(OptionConditions(options[..i]), data.columns, r));
    FilterExtensional(data.rows, r => MeetsAll(conds[..i + 1], data.columns, r), r => MeetsAll(OptionConditions(options[..i + 1]), data.columns, r));
    if o.key in f.columns {
      FilterExtensional(f.rows, r => Holds(conds[i].1, Get(r, conds[i].0)), r => Keeps(o, Get(r, o.key)));
    }
  }

  lemma OptionsFilteredFacts(data: Frame, options: seq<FilterOption>)
    ensures options == [] ==> OptionsFiltered(data, options) == data
    ensures IsSubsequence(OptionsFiltered(data, options).rows, data.rows)
    ensures forall r :: r in OptionsFiltered(data, options).rows <==>
              r in data.rows && forall i :: 0 <= i < |options| && options[i].key in data.columns ==>
                                  Keeps(options[i], Get(r, options[i].key))
  {
    var conds := OptionConditions(options);
    if options == [] {
      FilterAll(data.rows, r => MeetsAll(conds, data.columns, r));
    }
    FilterDataMembers(data.rows, conds, data.columns);
    assert forall i :: 0 <= i < |options| ==> conds[i] == AsCondition(options[i]);
  }

  // ---------------------------------------------------------------- pivots

  /** A pivot row key: the values of the row fields, in field order. */
  type Key = seq<Cell>

  function KeyOf(r: Row, fields: seq<string>): Key {
    Map(fields, f => Get(r, f))
  }

  /** `pivot_table` groups only rows whose key values and time are present. */
  predicate Pivotable(r: Row, fields: seq<string>) {
    Null !in KeyOf(r, fields) && Get(r, TIME) != Null
  }

  function PivotRows(rows: seq<Row>, fields: seq<string>): seq<Row> {
    Filter(rows, r => Pivotable(r, fields))
  }

  /** The rows of one pivot cell: row key `k`, shipment time `t`. */
  function Group(rows: seq<Row>, fields: seq<string>, k: Key, t: Cell): seq<Row> {
    Filter(PivotRows(rows, fields), r => KeyOf(r, fields) == k && Get(r, TIME) == t)
  }

  /** The two aggregations: `nunique` of 客户名称 and `sum` of 实际金额. */
  datatype Aggregation = DistinctCustomers | AmountSum

  function Aggregate(m: Aggregation, group: seq<Row>): real {
    match m
    case DistinctCustomers => |Distinct(Filter(Map(group, r => Get(r, CUSTOMER)), c => c != Null))| as real
    case AmountSum => SumOf(group, r => Amount(Get(r, AMOUNT)))
  }

  /** A pivot table: its row keys, its time columns, one value per key and
      time (in time-column order), and the 平均值 column. */
  datatype PivotTable = PivotTable(index: seq<Key>, times: seq<Cell>, cells: map<Key, seq<real>>, average: map<Key, real>)

  const EmptyTable := PivotTable([], [], map[], map[])

  ghost predicate WellFormedTable(t: PivotTable) {
    NoDuplicates(t.index) && NoDuplicates(t.times)
    && (forall k :: k in t.cells <==> k in t.index)
    && (forall k :: k in t.average <==> k in t.index)
    && (forall k :: k in t.cells ==> |t.cells[k]| == |t.times|)
  }

  function PivotRow(m: Aggregation, rows: seq<Row>, fields: seq<string>, k: Key, times: seq<Cell>): (v: seq<real>)
    ensures |v| == |times|
  {
    Map(times, t => Aggregate(m, Group(rows, fields, k, t)))
  }

  /** The 平均值 of one pivot row: the row mean over several time columns,
      the single column otherwise, rounded to 2 places. Both branches are the
      rounded mean. */
  function RowAverage(row: seq<real>): (a: real)
    requires |row| >= 1
    ensures a == Round(Sum(row) / |row| as real, 2)
  {
    if |row| > 1 then Round(Sum(row) / |row| as real, 2)
    else
      SumSingleton(row);
      Round(row[0], 2)
  }

  /** One pivot table of the rows that have a key and a time. */
  function PivotOf(m: Aggregation, rows: seq<Row>, fields: seq<string>): (t: PivotTable)
    ensures WellFormedTable(t)
    ensures forall k :: k in t.index <==> k in Map(PivotRows(rows, fields), r => KeyOf(r, fields))
    ensures forall c :: c in t.times <==> c in Map(PivotRows(rows, fields), r => Get(r, TIME))
    ensures forall k :: k in t.cells ==> t.cells[k] == PivotRow(m, rows, fields, k, t.times)
    ensures t.index != [] ==> |t.times| >= 1
    ensures forall k :: k in t.average ==> t.average[k] == Round(Sum(t.cells[k]) / |t.times| as real, 2)
  {
    var prows := PivotRows(rows, fields);
    var index := Distinct(Map(prows, r => KeyOf(r, fields)));
    var times := Distinct(Map(prows, r => Get(r, TIME)));
    assert |index| > 0 ==> |times| > 0 by {
      if |index| > 0 {
        assert index[0] in Map(prows, r => KeyOf(r, fields));
        assert Get(prows[0], TIME) == Map(prows, r => Get(r, TIME))[0];
      }
    }
    var cells := map k | k in index :: PivotRow(m, rows, fields, k, times);
    var average := map k | k in index :: RowAverage(cells[k]);
    PivotTable(index, times, cells, average)
  }

  datatype Pivots = Pivots(dailyActive: PivotTable, realMoney: PivotTable)

  /** KeyError for a column `pivot_table` needs; IndexError when no row can
      be grouped and the single-column branch reads column 0 of an empty
      table. */
  datatype PivotError = MissingColumn(name: string) | NoTimeColumn

  /** `pivot_data`: two empty tables for empty data; otherwise the
      distinct-customer table and the amount table for the row fields. */
  function PivotData(data: Frame, fields: seq<string>): (r: Result<Pivots, PivotError>)
    requires |fields| >= 1
    ensures IsEmpty(data) ==> r == Ok(Pivots(EmptyTable, EmptyTable))
    ensures r.Ok? ==> WellFormedTable(r.value.dailyActive) && WellFormedTable(r.value.realMoney)
    ensures r.Ok? ==> r.value.dailyActive.index == r.value.realMoney.index
                      && r.value.dailyActive.times == r.value.realMoney.times
    ensures r.Ok? && !IsEmpty(data) ==> r.value.dailyActive.index != []
    ensures !IsEmpty(data) && PivotRows(data.rows, fields) == [] ==> r.Err?
    ensures r.Ok? && !IsEmpty(data) ==>
              r.value == Pivots(PivotOf(DistinctCustomers, data.rows, fields), PivotOf(AmountSum, data.rows, fields))
  {
    if IsEmpty(data) then Ok(Pivots(EmptyTable, EmptyTable))
    else
      var missing := MissingColumns(fields + [TIME, CUSTOMER], data.columns);
      if missing != [] then Err(MissingColumn(missing[0]))
      else
        var prows := PivotRows(data.rows, fields);
        if prows == [] then Err(NoTimeColumn)
        else if AMOUNT !in data.columns then Err(MissingColumn(AMOUNT))
        else
          var active := PivotOf(DistinctCustomers, data.rows, fields);
          assert KeyOf(prows[0], fields) == Map(prows, r => KeyOf(r, fields))[0];
          assert active.index != [] by {
            assert KeyOf(prows[0], fields) in active.index;
          }
          Ok(Pivots(active, PivotOf(AmountSum, data.rows, fields)))
  }

  /** The rows grouped under key `k` at time `t`. */
  function CellRows(rows: seq<Row>, fields: seq<string>, k: Key, t: Cell): seq<Row> {
    Filter(rows, r => Pivotable(r, fields) && KeyOf(r, fields) == k && Get(r, TIME) == t)
  }

  lemma GroupIsCellRows(rows: seq<Row>, fields: seq<string>, k: Key, t: Cell)
    ensures Group(rows, fields, k, t) == CellRows(rows, fields, k, t)
  {
    FilterFilter(rows, r => Pivotable(r, fields), r => KeyOf(r, fields) == k && Get(r, TIME) == t,
                 r => Pivotable(r, fields) && KeyOf(r, fields) == k && Get(r, TIME) == t);
  }

  /** The customers counted in one 日活 cell. */
  ghost function CustomersAt(rows: seq<Row>, fields: seq<string>, k: Key, t: Cell): set<Cell> {
    set r | r in CellRows(rows, fields, k, t) && Get(r, CUSTOMER) != Null :: Get(r, CUSTOMER)
  }

  /** A 日活 cell is the number of distinct present customers among the rows
      with that key and that time. */
  lemma ActiveCell(rows: seq<Row>, fields: seq<string>, k: Key, t: Cell)
    ensures Aggregate(DistinctCustomers, Group(rows, fields, k, t)) == |CustomersAt(rows, fields, k, t)| as real
  {
    GroupIsCellRows(rows, fields, k, t);
    var group := CellRows(rows, fields, k, t);
    var present := Filter(Map(group, r => Get(r, CUSTOMER)), c => c != Null);
    DistinctCount(present);
    forall c
      ensures c in present <==> c in CustomersAt(rows, fields, k, t)
    {
      MapMember(group, r => Get(r, CUSTOMER), c);
    }
    assert (set c | c in present) == CustomersAt(rows, fields, k, t);
  }

  /** A 金额 cell is the sum of the amounts of the rows with that key and
      that time. */
  lemma MoneyCell(rows: seq<Row>, fields: seq<string>, k: Key, t: Cell)
    ensures Aggregate(AmountSum, Group(rows, fields, k, t)) == SumOf(CellRows(rows, fields, k, t), r => Amount(Get(r, AMOUNT)))
  {
    GroupIsCellRows(rows, fields, k, t);
  }

  /** A key and time without rows get 0 in both tables. */
  lemma AbsentCombination(rows: seq<Row>, fields: seq<string>, k: Key, t: Cell)
    requires forall r :: r in rows && Pivotable(r, fields) && KeyOf(r, fields) == k ==> Get(r, TIME) != t
    ensures Aggregate(DistinctCustomers, Group(rows, fields, k, t)) == 0.0
    ensures Aggregate(AmountSum, Group(rows, fields, k, t)) == 0.0
  {
    GroupIsCellRows(rows, fields, k, t);
    FilterNone(rows, r => Pivotable(r, fields) && KeyOf(r, fields) == k && Get(r, TIME) == t);
  }

  function AmountAt(fields: seq<string>, k: Key, t: Cell, r: Row): real {
    if KeyOf(r, fields) == k && Get(r, TIME) == t then Amount(Get(r, AMOUNT)) else 0.0
  }
  function AmountOfKey(fields: seq<string>, k: Key, r: Row): real {
    if KeyOf(r, fields) == k then Amount(Get(r, AMOUNT)) else 0.0
  }

  /** The amount the rows give the cell of key `k` and time `t`. */
  function CellAmount(prows: seq<Row>, fields: seq<string>, k: Key, t: Cell): real {
    SumOf(prows, r => AmountAt(fields, k, t, r))
  }

  /** The amount one row gives the cells of key `k` across the times. */
  function RowAmount(times: seq<Cell>, fields: seq<string>, k: Key, r: Row): real {
    SumOf(times, t => AmountAt(fields, k, t, r))
  }

  /** A 金额 cell counts each row's amount where the row is in the cell and
      zero elsewhere. */
  lemma MoneyCellAsSum(rows: seq<Row>, fields: seq<string>, k: Key, t: Cell)
    ensures Aggregate(AmountSum, Group(rows, fields, k, t)) == CellAmount(PivotRows(rows, fields), fields, k, t)
  {
    var prows := PivotRows(rows, fields);
    SumOfFilter(prows, r => KeyOf(r, fields) == k && Get(r, TIME) == t, r => Amount(Get(r, AMOUNT)), r => AmountAt(fields, k, t, r));
  }

  /** Adding up the cells of a key time by time, or row by row, gives the
      same total. */
  lemma {:induction false} AmountSwap(times: seq<Cell>, prows: seq<Row>, fields: seq<string>, k: Key)
    ensures SumOf(times, t => CellAmount(prows, fields, k, t)) == SumOf(prows, r => RowAmount(times, fields, k, r))
  {
    if times != [] {
      var init := times[..|times| - 1];
      var last := times[|times| - 1];
      AmountSwap(init, prows, fields, k);
      SumOfAdd(prows, r => RowAmount(init, fields, k, r), r => AmountAt(fields, k, last, r), r => RowAmount(times, fields, k, r));
    } else {
      SumOfZero(prows, r => RowAmount(times, fields, k, r));
    }
  }

  /** Over distinct times, a row contributes its amount to exactly the cell
      of its own time. */
  lemma RowOverTimes(fields: seq<string>, k: Key, times: seq<Cell>, r: Row)
    requires NoDuplicates(times) && Get(r, TIME) in times
    ensures RowAmount(times, fields, k, r) == AmountOfKey(fields, k, r)
  {
    if KeyOf(r, fields) == k {
      SumOfSingle(times, Get(r, TIME), Amount(Get(r, AMOUNT)), t => AmountAt(fields, k, t, r));
    } else {
      SumOfZero(times, t => AmountAt(fields, k, t, r));
    }
  }

  /** Counting only the rows with key `k` sums their amounts. */
  lemma KeyTotal(rows: seq<Row>, fields: seq<string>, k: Key)
    ensures SumOf(PivotRows(rows, fields), r => AmountOfKey(fields, k, r))
            == SumOf(Filter(rows, r => Pivotable(r, fields) && KeyOf(r, fields) == k), r => Amount(Get(r, AMOUNT)))
  {
    var prows := PivotRows(rows, fields);
    SumOfFilter(prows, r => KeyOf(r, fields) == k, r => Amount(Get(r, AMOUNT)), r => AmountOfKey(fields, k, r));
    FilterFilter(rows, r => Pivotable(r, fields), r => KeyOf(r, fields) == k,
                 r => Pivotable(r, fields) && KeyOf(r, fields) == k);
  }

  /** Summing the 金额 cells of one key over the time columns gives the
      key's total amount. */
  lemma MoneyRowTotal(rows: seq<Row>, fields: seq<string>, k: Key, times: seq<Cell>)
    requires NoDuplicates(times)
    requires forall r :: r in PivotRows(rows, fields) ==> Get(r, TIME) in times
    ensures Sum(PivotRow(AmountSum, rows, fields, k, times))
            == SumOf(Filter(rows, r => Pivotable(r, fields) && KeyOf(r, fields) == k), r => Amount(Get(r, AMOUNT)))
  {
    var prows := PivotRows(rows, fields);
    SumMap(times, t => Aggregate(AmountSum, Group(rows, fields, k, t)));
    forall t | t in times
      ensures Aggregate(AmountSum, Group(rows, fields, k, t)) == CellAmount(prows, fields, k, t)
    {
      MoneyCellAsSum(rows, fields, k, t);
    }
    SumOfExtensional(times, t => Aggregate(AmountSum, Group(rows, fields, k, t)), t => CellAmount(prows, fields, k, t));
    AmountSwap(times, prows, fields, k);
    forall r | r in prows
      ensures RowAmount(times, fields, k, r) == AmountOfKey(fields, k, r)
    {
      RowOverTimes(fields, k, times, r);
    }
    SumOfExtensional(prows, r => RowAmount(times, fields, k, r), r => AmountOfKey(fields, k, r));
    KeyTotal(rows, fields, k);
  }

  /** The 金额 average of a key is its total amount over the period divided
      by the number of time columns, rounded to 2 places. */
  lemma PivotMoneyAverage(rows: seq<Row>, fields: seq<string>, k: Key)
    requires k in PivotOf(AmountSum, rows, fields).index
    ensures var t := PivotOf(AmountSum, rows, fields);
            t.average[k] == Round(SumOf(Filter(rows, r => Pivotable(r, fields) && KeyOf(r, fields) == k),
                                        r => Amount(Get(r, AMOUNT))) / |t.times| as real, 2)
  {
    var t := PivotOf(AmountSum, rows, fields);
    forall r | r in PivotRows(rows, fields)
      ensures Get(r, TIME) in t.times
    {
      MapMember(PivotRows(rows, fields), r => Get(r, TIME), Get(r, TIME));
    }
    MoneyRowTotal(rows, fields, k, t.times);
  }

  // ------------------------------------------------------------ date label

  /** The calendar dates of the time cells, in row order. */
  function DatesIn(cells: seq<Cell>): (ds: seq<Date>)
    ensures forall d :: d in ds <==> exists c :: c in cells && c.Time? && c.t.date == d
  {
    if cells == [] then []
    else
      var rest := DatesIn(cells[1..]);
      assert forall c :: c in cells <==> c == cells[0] || c in cells[1..];
      (if cells[0].Time? then [cells[0].t.date] else []) + rest
  }

  function MinDate(ds: seq<Date>): (m: Date)
    requires |ds| > 0
    ensures m in ds && forall d :: d in ds ==> DateLe(m, d)
  {
    if |ds| == 1 then ds[0]
    else
      var m := MinDate(ds[1..]);
      DateLeTotalOrder(ds[0], m, ds[0]);
      assert forall d :: d in ds[1..] ==> DateLe(m, d);
      assert forall d :: d in ds ==> d == ds[0] || d in ds[1..];
      if DateLe(ds[0], m) then
        assert forall d :: d in ds[1..] ==> DateLe(ds[0], d) by {
          forall d | d in ds[1..] ensures DateLe(ds[0], d) { DateLeTotalOrder(ds[0], m, d); }
        }
        ds[0]
      else m
  }

  function MaxDate(ds: seq<Date>): (m: Date)
    requires |ds| > 0
    ensures m in ds && forall d :: d in ds ==> DateLe(d, m)
  {
    if |ds| == 1 then ds[0]
    else
      var m := MaxDate(ds[1..]);
      DateLeTotalOrder(ds[0], m, ds[0]);
      assert forall d :: d in ds ==> d == ds[0] || d in ds[1..];
      if DateLe(m, ds[0]) then
        assert forall d :: d in ds[1..] ==> DateLe(d, ds[0]) by {
          forall d | d in ds[1..] ensures DateLe(d, ds[0]) { DateLeTotalOrder(d, m, ds[0]); }
        }
        ds[0]
      else m
  }

  function FrameDates(f: Frame): seq<Date> {
    DatesIn(Map(f.rows, r => Get(r, TIME)))
  }

  /** "MM.DD" with two-digit month and day. */
  function MonthDay(d: Date): string {
    ZeroPad(d.month, 2) + "." + ZeroPad(d.day, 2)
  }

  /** `get_date_range_description`: "" for no rows or no time column, "D日"
      for a single day, "MM.DD-DD" when the first and last day share their
      month number, "MM.DD-MM.DD" otherwise. */
  function DateRangeDescription(f: Frame): (s: string)
    ensures IsEmpty(f) || TIME !in f.columns ==> s == ""
  {
    if IsEmpty(f) || TIME !in f.columns then ""
    else
      var dates := FrameDates(f);
      if dates == [] then ""
      else
        var lo := MinDate(dates);
        var hi := MaxDate(dates);
        if lo == hi then IntToString(lo.day) + "日"
        else if lo.month == hi.month then MonthDay(lo) + "-" + ZeroPad(hi.day, 2)
        else MonthDay(lo) + "-" + MonthDay(hi)
  }

  /** The label in terms of the first and the last shipment date. */
  lemma DateRangeShape(f: Frame, lo: Date, hi: Date)
    requires !IsEmpty(f) && TIME in f.columns
    requires lo in FrameDates(f) && hi in FrameDates(f)
    requires forall d :: d in FrameDates(f) ==> DateLe(lo, d) && DateLe(d, hi)
    ensures lo == hi ==> DateRangeDescription(f) == IntToString(lo.day) + "日"
    ensures lo != hi && lo.month == hi.month ==> DateRangeDescription(f) == MonthDay(lo) + "-" + ZeroPad(hi.day, 2)
    ensures lo.month != hi.month ==> DateRangeDescription(f) == MonthDay(lo) + "-" + MonthDay(hi)
  {
    var dates := FrameDates(f);
    var a := MinDate(dates);
    var b := MaxDate(dates);
    DateLeTotalOrder(a, lo, a);
    DateLeTotalOrder(b, hi, b);
  }

  predicate LabelChar(c: char) {
    IsDigit(c) || c == '.' || c == '-' || c == '日'
  }

  lemma IntToStringChars(n: int)
    ensures LabelChars(IntToString(n))
  {
    if n < 0 {
      var d := NatToString(-n);
      assert forall i :: 1 <= i < |IntToString(n)| ==> IntToString(n)[i] == d[i - 1];
    }
  }

  lemma ZeroPadChars(n: int, width: nat)
    ensures LabelChars(ZeroPad(n, width))
  {
    IntToStringChars(n);
    if n < 0 {
      var d := NatToString(-n);
      assert forall i :: 0 <= i < |d| ==> IsDigit(d[i]);
    }
  }

  predicate LabelChars(s: string) {
    forall i :: 0 <= i < |s| ==> LabelChar(s[i])
  }

  lemma LabelConcat(a: string, b: string)
    requires LabelChars(a) && LabelChars(b)
    ensures LabelChars(a + b)
  {
    assert forall i :: |a| <= i < |a + b| ==> (a + b)[i] == b[i - |a|];
  }

  lemma MonthDayChars(d: Date)
    ensures LabelChars(MonthDay(d))
  {
    ZeroPadChars(d.month, 2);
    ZeroPadChars(d.day, 2);
    LabelConcat(ZeroPad(d.month, 2), ".");
    LabelConcat(ZeroPad(d.month, 2) + ".", ZeroPad(d.day, 2));
  }

  /** A date label is made of digits, '.', '-' and '日' only, so it never
      contains the characters of "日活" or "金额" beyond '日'. */
  lemma DateRangeAlphabet(f: Frame)
    ensures LabelChars(DateRangeDescription(f))
    ensures '活' !in DateRangeDescription(f) && '金' !in DateRangeDescription(f)
  {
    var s := DateRangeDescription(f);
    if !(IsEmpty(f) || TIME !in f.columns) && FrameDates(f) != [] {
      var dates := FrameDates(f);
      var lo := MinDate(dates);
      var hi := MaxDate(dates);
      if lo == hi {
        IntToStringChars(lo.day);
        LabelConcat(IntToString(lo.day), "日");
      } else {
        MonthDayChars(lo);
        LabelConcat(MonthDay(lo), "-");
        if lo.month == hi.month {
          ZeroPadChars(hi.day, 2);
          LabelConcat(MonthDay(lo) + "-", ZeroPad(hi.day, 2));
        } else {
          MonthDayChars(hi);
          LabelConcat(MonthDay(lo) + "-", MonthDay(hi));
        }
      }
    }
    assert LabelChars(s);
  }

  /** For valid dates: "MM.DD-DD" has 8 characters and "MM.DD-MM.DD" has 11. */
  lemma DateRangeLength(f: Frame, lo: Date, hi: Date)
    requires !IsEmpty(f) && TIME in f.columns
    requires lo in FrameDates(f) && hi in FrameDates(f)
    requires forall d :: d in FrameDates(f) ==> DateLe(lo, d) && DateLe(d, hi)
    requires ValidDate(lo) && ValidDate(hi) && lo != hi
    ensures lo.month == hi.month ==> |DateRangeDescription(f)| == 8
    ensures lo.month != hi.month ==> |DateRangeDescription(f)| == 11
  {
    DateRangeShape(f, lo, hi);
    ZeroPadDigits(lo.month, 2);
    ZeroPadDigits(lo.day, 2);
    ZeroPadDigits(hi.month, 2);
    ZeroPadDigits(hi.day, 2);
  }

  // ------------------------------------------------------------- key union

  /** The pivot result of one period; the extra period, when it does not
      exist, contributes the falsy `{}`. */
  datatype PeriodPivot = Absent | Present(pivots: Pivots)

  ghost predicate WellFormedPeriod(p: PeriodPivot) {
    p.Present? ==> WellFormedTable(p.pivots.dailyActive) && WellFormedTable(p.pivots.realMoney)
  }

  /** The non-empty indexes of one period, daily-active first. */
  function IndexParts(p: PeriodPivot): seq<seq<Key>> {
    match p
    case Absent => []
    case Present(ps) =>
      (if ps.dailyActive.index != [] then [ps.dailyActive.index] else [])
      + (if ps.realMoney.index != [] then [ps.realMoney.index] else [])
  }

  function AllParts(pivots: seq<PeriodPivot>): seq<seq<Key>> {
    if pivots == [] then [] else AllParts(pivots[..|pivots| - 1]) + IndexParts(pivots[|pivots| - 1])
  }

  function Flatten(parts: seq<seq<Key>>): seq<Key> {
    if parts == [] then [] else Flatten(parts[..|parts| - 1]) + parts[|parts| - 1]
  }

  /** A key occurs in some period's pivot tables. */
  predicate InPeriod(p: PeriodPivot, k: Key) {
    p.Present? && (k in p.pivots.dailyActive.index || k in p.pivots.realMoney.index)
  }

  lemma {:induction false} AllPartsMembers(pivots: seq<PeriodPivot>, k: Key)
    ensures k in Flatten(AllParts(pivots)) <==> exists i :: 0 <= i < |pivots| && InPeriod(pivots[i], k)
  {
    if pivots != [] {
      var init := pivots[..|pivots| - 1];
      var last := pivots[|pivots| - 1];
      AllPartsMembers(init, k);
      FlattenAppend(AllParts(init), IndexParts(last));
      IndexPartsMembers(last, k);
      assert k in Flatten(AllParts(pivots)) <==> k in Flatten(AllParts(init)) || InPeriod(last, k);
      if exists i :: 0 <= i < |pivots| && InPeriod(pivots[i], k) {
        var i :| 0 <= i < |pivots| && InPeriod(pivots[i], k);
        if i < |init| {
          assert init[i] == pivots[i];
        }
      }
      if exists i :: 0 <= i < |init| && InPeriod(init[i], k) {
        var i :| 0 <= i < |init| && InPeriod(init[i], k);
        assert pivots[i] == init[i];
      }
    }
  }

  lemma IndexPartsMembers(p: PeriodPivot, k: Key)
    ensures k in Flatten(IndexParts(p)) <==> InPeriod(p, k)
  {
    FlattenMembers(IndexParts(p), k);
  }

  /** Every gathered index is non-empty and, for well-formed periods, free
      of repeated keys. */
  lemma {:induction false} AllPartsShape(pivots: seq<PeriodPivot>)
    requires forall i :: 0 <= i < |pivots| ==> WellFormedPeriod(pivots[i])
    ensures forall part :: part in AllParts(pivots) ==> part != [] && NoDuplicates(part)
  {
    if pivots != [] {
      AllPartsShape(pivots[..|pivots| - 1]);
    }
  }

  lemma {:induction false} FlattenAppend(a: seq<seq<Key>>, b: seq<seq<Key>>)
    ensures Flatten(a + b) == Flatten(a) + Flatten(b)
  {
    if b != [] {
      assert (a + b)[..|a + b| - 1] == a + b[..|b| - 1];
      FlattenAppend(a, b[..|b| - 1]);
    } else {
      assert a + b == a;
    }
  }

  lemma FlattenMembers(parts: seq<seq<Key>>, k: Key)
    requires |parts| <= 2
    ensures k in Flatten(parts) <==> exists j :: 0 <= j < |parts| && k in parts[j]
  {
    if |parts| == 1 {
      assert Flatten(parts) == Flatten([]) + parts[0];
    } else if |parts| == 2 {
      assert parts[..1] == [parts[0]];
      assert Flatten([parts[0]]) == Flatten([]) + parts[0];
    }
  }

  /** The first loop of `collection_fields`: the non-empty indexes of the
      present periods, in period order. */
  method GatherIndexes(pivots: seq<PeriodPivot>) returns (allIndexes: seq<seq<Key>>)
    ensures allIndexes == AllParts(pivots)
  {
    allIndexes := [];
    var i := 0;
    while i < |pivots|
      invariant 0 <= i <= |pivots|
      invariant allIndexes == AllParts(pivots[..i])
    {
      assert pivots[..i + 1][..i] == pivots[..i];
      if pivots[i].Present? {
        var p := pivots[i].pivots;
        if p.dailyActive.index != [] {
          allIndexes := allIndexes + [p.dailyActive.index];
        }
        if p.realMoney.index != [] {
          allIndexes := allIndexes + [p.realMoney.index];
        }
      }
      i := i + 1;
    }
    assert pivots[..i] == pivots;
  }

  /** `Index.union` folded over the gathered indexes, starting from the
      first, which is kept as it is. */
  function Union(parts: seq<seq<Key>>): seq<Key>
    requires parts != []
  {
    if |parts| == 1 then parts[0] else Distinct(Union(parts[..|parts| - 1]) + parts[|parts| - 1])
  }

  lemma {:induction false} UnionMembers(parts: seq<seq<Key>>)
    requires parts != [] && NoDuplicates(parts[0])
    ensures NoDuplicates(Union(parts))
    ensures forall k :: k in Union(parts) <==> k in Flatten(parts)
  {
    var n := |parts| - 1;
    if n == 0 {
      assert parts == [parts[0]];
      assert Flatten(parts) == Flatten([]) + parts[0];
    } else {
      var init := parts[..n];
      assert init[0] == parts[0];
      UnionMembers(init);
      assert parts[..n] == init;
    }
  }

  /** The key universe of `collection_fields`: empty when no table has rows. */
  function CollectedKeys(pivots: seq<PeriodPivot>): seq<Key> {
    var parts := AllParts(pivots);
    if parts == [] then [] else Union(parts)
  }

  /** The key universe holds every key of every non-empty table, once. */
  lemma CollectedKeysMembers(pivots: seq<PeriodPivot>)
    requires forall i :: 0 <= i < |pivots| ==> WellFormedPeriod(pivots[i])
    ensures NoDuplicates(CollectedKeys(pivots))
    ensures forall k :: k in CollectedKeys(pivots) <==> exists i :: 0 <= i < |pivots| && InPeriod(pivots[i], k)
  {
    var parts := AllParts(pivots);
    forall k
      ensures k in Flatten(parts) <==> exists i :: 0 <= i < |pivots| && InPeriod(pivots[i], k)
    {
      AllPartsMembers(pivots, k);
    }
    if parts == [] {
      assert Flatten(parts) == [];
    } else {
      AllPartsShape(pivots);
      assert parts[0] in parts;
      UnionMembers(parts);
    }
  }

  /** The second loop of `collection_fields`. */
  method UnionIndexes(parts: seq<seq<Key>>) returns (keys: seq<Key>)
    requires parts != []
    ensures keys == Union(parts)
  {
    keys := parts[0];
    var j := 1;
    assert parts[..1] == [parts[0]];
    while j < |parts|
      invariant 1 <= j <= |parts|
      invariant keys == Union(parts[..j])
    {
      assert parts[..j + 1][..j] == parts[..j];
      keys := Distinct(keys + parts[j]);
      j := j + 1;
    }
    assert parts[..j] == parts;
  }

  /** One row of the key frame: each row field holds its part of the key. */
  function KeyRow(fields: seq<string>, k: Key): Row {
    if fields == [] || k == [] then map[] else KeyRow(fields[1..], k[1..])[fields[0] := k[0]]
  }

  lemma {:induction false} KeyRowGet(fields: seq<string>, k: Key, j: int)
    requires NoDuplicates(fields) && |k| == |fields| && 0 <= j < |fields|
    ensures Get(KeyRow(fields, k), fields[j]) == k[j]
  {
    if j > 0 {
      NoDuplicatesEnds(fields);
      KeyRowGet(fields[1..], k[1..], j - 1);
    }
  }

  /** Reading the key back from its row gives the key. */
  lemma KeyOfKeyRow(fields: seq<string>, k: Key)
    requires NoDuplicates(fields) && |k| == |fields|
    ensures KeyOf(KeyRow(fields, k), fields) == k
  {
    forall j | 0 <= j < |fields|
      ensures KeyOf(KeyRow(fields, k), fields)[j] == k[j]
    {
      KeyRowGet(fields, k, j);
    }
  }

  /** The frame `collection_fields` returns: the row fields as columns and
      one row per key. */
  function KeysFrame(fields: seq<string>, keys: seq<Key>): Frame {
    Frame(fields, Map(keys, k => KeyRow(fields, k)))
  }

  /** `collection_fields`: the union of the row keys of every non-empty
      pivot table, as a frame over the row fields. The keys have no repeats;
      with no such table there are no rows. */
  method CollectionFields(pivots: seq<PeriodPivot>, fields: seq<string>) returns (keys: seq<Key>, rowFieldsData: Frame)
    requires forall i :: 0 <= i < |pivots| ==> WellFormedPeriod(pivots[i])
    ensures keys == CollectedKeys(pivots) && rowFieldsData == KeysFrame(fields, keys)
    ensures NoDuplicates(keys)
    ensures forall k :: k in keys <==> exists i :: 0 <= i < |pivots| && InPeriod(pivots[i], k)
  {
    var allIndexes := GatherIndexes(pivots);
    if allIndexes == [] {
      keys := [];
    } else {
      keys := UnionIndexes(allIndexes);
    }
    CollectedKeysMembers(pivots);
    rowFieldsData := KeysFrame(fields, keys);
  }
}
