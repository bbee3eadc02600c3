/** What the comparison sheet holds: the value of every period column and
    every difference and ratio column in the usual two- and three-period
    cases, the case without a comparison, and what happens when two periods
    share a date label. */
module DailyReportFacts {
  import opened Cells
  import opened SeqUtil
  import opened Numbers
  import opened Text
  import opened BaseExcel
  import opened DailyPivot
  import opened DailyReport

  // ----------------------------------------------------------- column names

  lemma PrefixCancel(a: string, b: string, x: string, y: string)
    requires |x| == |y| && a + x == b + y
    ensures a == b && x == y
  {
    assert a == (a + x)[..|a|] && b == (b + y)[..|b|];
    assert x == (a + x)[|a|..] && y == (b + y)[|b|..];
  }

  predicate IsMetric(m: string) {
    m == ACTIVE || m == MONEY
  }

  /** Two period columns have the same name exactly when they are the same
      metric of periods with the same label. */
  lemma PeriodNameInjective(d: string, e: string, m: string, n: string)
    requires IsMetric(m) && IsMetric(n)
    ensures d + m == e + n <==> d == e && m == n
  {
    if d + m == e + n {
      PrefixCancel(d, e, m, n);
    }
  }

  /** A comparison column is not named like a period column. */
  lemma CompareNameNotPeriodName(d: string, m: string, e: string, n: string)
    requires LabelChars(e) && IsMetric(n)
    ensures DiffName(d, m) != e + n && RatioName(d, m) != e + n
  {
    assert DiffName(d, m)[0] == '对' && RatioName(d, m)[0] == '对';
    if e != [] {
      assert (e + n)[0] == e[0];
    } else {
      assert (e + n)[0] == n[0];
    }
  }

  /** Comparison columns have the same name exactly when they are the same
      kind (difference or ratio) of the same metric against the same label. */
  lemma CompareNameInjective(d: string, m: string, e: string, n: string)
    requires IsMetric(m) && IsMetric(n)
    ensures DiffName(d, m) == DiffName(e, n) <==> d == e && m == n
    ensures RatioName(d, m) == RatioName(e, n) <==> d == e && m == n
    ensures DiffName(d, m) != RatioName(e, n)
  {
    assert DiffName(d, m) == ("对比" + d) + (m + "差值");
    assert DiffName(e, n) == ("对比" + e) + (n + "差值");
    assert RatioName(d, m) == ("对比" + d) + (m + "环比");
    assert RatioName(e, n) == ("对比" + e) + (n + "环比");
    if DiffName(d, m) == DiffName(e, n) {
      PrefixCancel("对比" + d, "对比" + e, m + "差值", n + "差值");
      PrefixCancel("对比", "对比", d, e);
      PrefixCancel(m, n, "差值", "差值");
    }
    if RatioName(d, m) == RatioName(e, n) {
      PrefixCancel("对比" + d, "对比" + e, m + "环比", n + "环比");
      PrefixCancel("对比", "对比", d, e);
      PrefixCancel(m, n, "环比", "环比");
    }
    assert DiffName(d, m)[|DiffName(d, m)| - 1] != RatioName(e, n)[|RatioName(e, n)| - 1];
  }

  // ------------------------------------------------------ column assignment

  /** After a run of assignments a column holds the values of its last
      assignment. */
  lemma {:induction false} AssignAllGet(f: Frame, names: seq<string>, values: seq<seq<Cell>>, j: int, i: int)
    requires |names| == |values| && forall v :: v in values ==> |v| == |f.rows|
    requires 0 <= j < |names| && 0 <= i < |f.rows|
    requires forall k :: j < k < |names| ==> names[k] != names[j]
    ensures Get(AssignAll(f, names, values).rows[i], names[j]) == values[j][i]
    decreases |names|, 1
  {
    AssignAllLast(f, names, values, i, names[j]);
    if j < |names| - 1 {
      AssignAllEarlier(f, names, values, j, i);
    }
  }

  /** An earlier column survives the last assignment of a run. */
  lemma {:induction false} AssignAllEarlier(f: Frame, names: seq<string>, values: seq<seq<Cell>>, j: int, i: int)
    requires |names| == |values| && forall v :: v in values ==> |v| == |f.rows|
    requires 0 <= j < |names| - 1 && 0 <= i < |f.rows|
    requires forall k :: j < k < |names| ==> names[k] != names[j]
    ensures forall v :: v in values[..|names| - 1] ==> |v| == |f.rows|
    ensures names[|names| - 1] != names[j]
    ensures Get(AssignAll(f, names[..|names| - 1], values[..|names| - 1]).rows[i], names[j]) == values[j][i]
    decreases |names|, 0
  {
    var n := |names| - 1;
    var pre, vpre := names[..n], values[..n];
    assert forall v :: v in vpre ==> v in values;
    assert pre[j] == names[j] && vpre[j] == values[j];
    assert forall k :: j < k < |pre| ==> pre[k] == names[k];
    AssignAllGet(f, pre, vpre, j, i);
  }

  /** A cell after a run of assignments: the last assignment's value if it
      wrote that column, the cell before it otherwise. */
  lemma AssignAllLast(f: Frame, names: seq<string>, values: seq<seq<Cell>>, i: int, c: string)
    requires |names| == |values| && forall v :: v in values ==> |v| == |f.rows|
    requires names != [] && 0 <= i < |f.rows|
    ensures forall v :: v in values[..|names| - 1] ==> |v| == |f.rows|
    ensures Get(AssignAll(f, names, values).rows[i], c)
            == if c == names[|names| - 1] then values[|names| - 1][i]
               else Get(AssignAll(f, names[..|names| - 1], values[..|names| - 1]).rows[i], c)
  {
    var n := |names| - 1;
    assert forall v :: v in values[..n] ==> v in values;
  }

  // ------------------------------------------------------ one metric compared

  /** The comparison columns `CompareMetric` adds for one metric. */
  function ComparisonNames(cols: seq<string>, descs: seq<string>, m: string): seq<string>
    requires |cols| <= |descs|
  {
    (if |cols| >= 2 then [DiffName(descs[1], m), RatioName(descs[1], m)] else [])
    + (if |cols| >= 3 then [DiffName(descs[2], m), RatioName(descs[2], m)] else [])
  }

  /** The comparisons of one metric add exactly their difference and ratio
      columns. */
  lemma CompareMetricColumns(f: Frame, cols: seq<string>, descs: seq<string>, m: string)
    requires |cols| <= |descs|
    ensures var r := CompareMetric(f, cols, descs, m);
            forall c :: c in r.columns <==> c in f.columns || c in ComparisonNames(cols, descs, m)
  {
    if |cols| >= 2 {
      var first := CompareAgainst(f, cols[0], cols[1], descs[1], m);
      if |cols| >= 3 {
        var second := CompareAgainst(first, cols[0], cols[2], descs[2], m);
      }
    }
  }

  /** The comparisons of one metric, row by row: the first column against
      the second and against the third, under the second and third date
      labels. */
  lemma CompareMetricValues(f: Frame, cols: seq<string>, descs: seq<string>, m: string, i: int)
    requires |cols| <= |descs| && 0 <= i < |f.rows| && IsMetric(m)
    requires forall j, k :: 0 <= j < |cols| && 0 <= k < |descs| ==> DiffName(descs[k], m) != cols[j] && RatioName(descs[k], m) != cols[j]
    requires |cols| >= 3 ==> descs[1] != descs[2]
    ensures var r := CompareMetric(f, cols, descs, m);
            |cols| >= 2 ==>
              Get(r.rows[i], DiffName(descs[1], m)) == Sub(Get(f.rows[i], cols[0]), Get(f.rows[i], cols[1]))
              && Get(r.rows[i], RatioName(descs[1], m)) == Ratio(Get(f.rows[i], cols[0]), Get(f.rows[i], cols[1]))
    ensures var r := CompareMetric(f, cols, descs, m);
            |cols| >= 3 ==>
              Get(r.rows[i], DiffName(descs[2], m)) == Sub(Get(f.rows[i], cols[0]), Get(f.rows[i], cols[2]))
              && Get(r.rows[i], RatioName(descs[2], m)) == Ratio(Get(f.rows[i], cols[0]), Get(f.rows[i], cols[2]))
  {
    if |cols| >= 2 {
      assert DiffName(descs[1], m) != cols[0] && DiffName(descs[1], m) != cols[1];
      var first := CompareAgainst(f, cols[0], cols[1], descs[1], m);
      if |cols| >= 3 {
        assert DiffName(descs[1], m) != cols[2] && RatioName(descs[1], m) != cols[0];
        assert RatioName(descs[1], m) != cols[2] && DiffName(descs[2], m) != cols[0] && DiffName(descs[2], m) != cols[2];
        CompareNameInjective(descs[1], m, descs[2], m);
        CompareNameInjective(descs[2], m, descs[1], m);
        var second := CompareAgainst(first, cols[0], cols[2], descs[2], m);
        assert Get(second.rows[i], DiffName(descs[1], m)) == Get(first.rows[i], DiffName(descs[1], m));
        assert Get(second.rows[i], RatioName(descs[1], m)) == Get(first.rows[i], RatioName(descs[1], m));
      }
    }
  }

  /** The comparisons of one metric keep every other column. */
  lemma CompareMetricKept(f: Frame, cols: seq<string>, descs: seq<string>, m: string, i: int)
    requires |cols| <= |descs| && 0 <= i < |f.rows|
    ensures var r := CompareMetric(f, cols, descs, m);
            forall c :: c !in ComparisonNames(cols, descs, m) ==> Get(r.rows[i], c) == Get(f.rows[i], c)
  {
    var names := ComparisonNames(cols, descs, m);
    forall c | c !in names
      ensures Get(CompareMetric(f, cols, descs, m).rows[i], c) == Get(f.rows[i], c)
    {
      if |cols| >= 2 {
        assert DiffName(descs[1], m) in names && RatioName(descs[1], m) in names;
        var first := CompareAgainst(f, cols[0], cols[1], descs[1], m);
        if |cols| >= 3 {
          assert DiffName(descs[2], m) in names && RatioName(descs[2], m) in names;
        }
      }
    }
  }

  // --------------------------------------------------------- period columns

  /** An absent period (the `{}` of a missing extra period) adds nothing. */
  lemma GatherAbsent(rows: seq<Row>, fields: seq<string>, pivots: seq<PeriodPivot>, descs: seq<string>, d: string)
    requires |descs| == |pivots|
    requires forall i :: 0 <= i < |pivots| ==> WellFormedPeriod(pivots[i])
    ensures Gather(rows, fields, pivots + [Absent], descs + [d]) == Gather(rows, fields, pivots, descs)
  {
    assert (pivots + [Absent])[..|pivots|] == pivots && (descs + [d])[..|pivots|] == descs;
  }

  /** A present period adds its label and its non-empty tables' columns. */
  lemma GatherPresent(rows: seq<Row>, fields: seq<string>, pivots: seq<PeriodPivot>, descs: seq<string>, p: Pivots, d: string)
    requires |descs| == |pivots|
    requires forall i :: 0 <= i < |pivots| ==> WellFormedPeriod(pivots[i])
    requires WellFormedPeriod(Present(p))
    ensures Gather(rows, fields, pivots + [Present(p)], descs + [d])
            == Extend(Gather(rows, fields, pivots, descs), Present(p), d, rows, fields)
  {
    assert (pivots + [Present(p)])[..|pivots|] == pivots && (descs + [d])[..|pivots|] == descs;
  }

  /** Both tables of a period have rows: the period's data was not empty. */
  predicate Full(p: Pivots) {
    p.dailyActive.index != [] && p.realMoney.index != []
  }

  function Table(p: Pivots, m: string): PivotTable {
    if m == ACTIVE then p.dailyActive else p.realMoney
  }

  /** The metric `m` of a period for the key of a row: its 平均值, or 0. */
  function Avg(p: Pivots, m: string, row: Row, fields: seq<string>): real
    requires WellFormedPeriod(Present(p))
  {
    AverageOrZero(Table(p, m), KeyOf(row, fields))
  }

  /** The values of a period's column of metric `m`. */
  function Column(p: Pivots, m: string, rows: seq<Row>, fields: seq<string>): seq<Cell>
    requires WellFormedPeriod(Present(p))
  {
    MetricValues(Table(p, m), rows, fields)
  }

  /** A full period adds its label, a 日活 and a 金额 column. */
  lemma GatherFull(rows: seq<Row>, fields: seq<string>, pivots: seq<PeriodPivot>, descs: seq<string>, p: Pivots, d: string)
    requires |descs| == |pivots|
    requires forall i :: 0 <= i < |pivots| ==> WellFormedPeriod(pivots[i])
    requires WellFormedPeriod(Present(p)) && Full(p)
    ensures var g := Gather(rows, fields, pivots, descs);
            Gather(rows, fields, pivots + [Present(p)], descs + [d])
            == Gathered(g.names + [d + ACTIVE, d + MONEY],
                        g.values + [Column(p, ACTIVE, rows, fields), Column(p, MONEY, rows, fields)],
                        g.descriptions + [d])
  {
    GatherPresent(rows, fields, pivots, descs, p, d);
    ExtendFull(Gather(rows, fields, pivots, descs), rows, fields, p, d);
  }

  lemma ExtendFull(g: Gathered, rows: seq<Row>, fields: seq<string>, p: Pivots, d: string)
    requires WellFormedPeriod(Present(p)) && Full(p)
    ensures Extend(g, Present(p), d, rows, fields)
            == Gathered(g.names + [d + ACTIVE, d + MONEY],
                        g.values + [Column(p, ACTIVE, rows, fields), Column(p, MONEY, rows, fields)],
                        g.descriptions + [d])
  {
  }

  lemma GatherOne(rows: seq<Row>, fields: seq<string>, p0: Pivots, d0: string)
    requires WellFormedPeriod(Present(p0)) && Full(p0)
    ensures Gather(rows, fields, [Present(p0)], [d0])
            == Gathered([d0 + ACTIVE, d0 + MONEY], [Column(p0, ACTIVE, rows, fields), Column(p0, MONEY, rows, fields)], [d0])
  {
    GatherFull(rows, fields, [], [], p0, d0);
    Snocs(Present(p0), Absent, Absent, Absent, Absent, Absent);
    Snocs(d0, d0, d0, d0, d0, d0);
  }

  lemma GatherTwo(rows: seq<Row>, fields: seq<string>, p0: Pivots, p1: Pivots, d0: string, d1: string)
    requires WellFormedPeriod(Present(p0)) && WellFormedPeriod(Present(p1)) && Full(p0) && Full(p1)
    ensures Gather(rows, fields, [Present(p0), Present(p1)], [d0, d1])
            == Gathered(PeriodColumns([d0, d1]),
                        [Column(p0, ACTIVE, rows, fields), Column(p0, MONEY, rows, fields),
                         Column(p1, ACTIVE, rows, fields), Column(p1, MONEY, rows, fields)],
                        [d0, d1])
  {
    GatherOne(rows, fields, p0, d0);
    Snocs(Present(p0), Present(p1), Absent, Absent, Absent, Absent);
    Snocs(d0, d1, d1, d1, d1, d1);
    GatherFull(rows, fields, [Present(p0)], [d0], p1, d1);
    PeriodColumnsTwo(d0, d1);
    var c := Column(p0, ACTIVE, rows, fields);
    Joins(d0 + ACTIVE, d0 + MONEY, d1 + ACTIVE, d1 + MONEY, d0, d0);
    Joins(c, Column(p0, MONEY, rows, fields), Column(p1, ACTIVE, rows, fields), Column(p1, MONEY, rows, fields), c, c);
  }

  /** Without an extra period the sheet has the columns of the first two. */
  lemma GatherTwoOfThree(rows: seq<Row>, fields: seq<string>, p0: Pivots, p1: Pivots, d0: string, d1: string, d2: string)
    requires WellFormedPeriod(Present(p0)) && WellFormedPeriod(Present(p1)) && Full(p0) && Full(p1)
    ensures Gather(rows, fields, [Present(p0), Present(p1), Absent], [d0, d1, d2])
            == Gather(rows, fields, [Present(p0), Present(p1)], [d0, d1])
  {
    assert [Present(p0), Present(p1), Absent] == [Present(p0), Present(p1)] + [Absent];
    assert [d0, d1, d2] == [d0, d1] + [d2];
    GatherAbsent(rows, fields, [Present(p0), Present(p1)], [d0, d1], d2);
  }

  lemma GatherThree(rows: seq<Row>, fields: seq<string>, p0: Pivots, p1: Pivots, p2: Pivots, d0: string, d1: string, d2: string)
    requires WellFormedPeriod(Present(p0)) && WellFormedPeriod(Present(p1)) && WellFormedPeriod(Present(p2))
    requires Full(p0) && Full(p1) && Full(p2)
    ensures Gather(rows, fields, [Present(p0), Present(p1), Present(p2)], [d0, d1, d2])
            == Gathered(PeriodColumns([d0, d1, d2]),
                        [Column(p0, ACTIVE, rows, fields), Column(p0, MONEY, rows, fields),
                         Column(p1, ACTIVE, rows, fields), Column(p1, MONEY, rows, fields),
                         Column(p2, ACTIVE, rows, fields), Column(p2, MONEY, rows, fields)],
                        [d0, d1, d2])
  {
    GatherTwo(rows, fields, p0, p1, d0, d1);
    Snocs(Present(p0), Present(p1), Present(p2), Absent, Absent, Absent);
    Snocs(d0, d1, d2, d2, d2, d2);
    WellFormedTwo(Present(p0), Present(p1));
    GatherFull(rows, fields, [Present(p0), Present(p1)], [d0, d1], p2, d2);
    PeriodColumnsThree(d0, d1, d2);
    Joins(Column(p0, ACTIVE, rows, fields), Column(p0, MONEY, rows, fields), Column(p1, ACTIVE, rows, fields),
          Column(p1, MONEY, rows, fields), Column(p2, ACTIVE, rows, fields), Column(p2, MONEY, rows, fields));
  }

  lemma WellFormedThree(a: PeriodPivot, b: PeriodPivot, c: PeriodPivot)
    requires WellFormedPeriod(a) && WellFormedPeriod(b) && WellFormedPeriod(c)
    ensures forall i :: 0 <= i < |[a, b, c]| ==> WellFormedPeriod([a, b, c][i])
  {
  }

  lemma WellFormedTwo(a: PeriodPivot, b: PeriodPivot)
    requires WellFormedPeriod(a) && WellFormedPeriod(b)
    ensures forall i :: 0 <= i < |[a, b]| ==> WellFormedPeriod([a, b][i])
  {
  }

  lemma PeriodColumnsTwo(d0: string, d1: string)
    ensures PeriodColumns([d0, d1]) == [d0 + ACTIVE, d0 + MONEY, d1 + ACTIVE, d1 + MONEY]
  {
    Prefixes(d0, d1, d1);
    assert PeriodColumns([d0]) == [d0 + ACTIVE, d0 + MONEY];
    Joins(d0 + ACTIVE, d0 + MONEY, d1 + ACTIVE, d1 + MONEY, d0, d0);
  }

  lemma PeriodColumnsThree(d0: string, d1: string, d2: string)
    ensures PeriodColumns([d0, d1, d2]) == [d0 + ACTIVE, d0 + MONEY, d1 + ACTIVE, d1 + MONEY, d2 + ACTIVE, d2 + MONEY]
  {
    Prefixes(d0, d1, d2);
    PeriodColumnsTwo(d0, d1);
    Joins(d0 + ACTIVE, d0 + MONEY, d1 + ACTIVE, d1 + MONEY, d2 + ACTIVE, d2 + MONEY);
  }

  /** Two displays of pairs joined. */
  lemma Joins<T>(a: T, b: T, c: T, d: T, e: T, g: T)
    ensures [] + [a, b] == [a, b] && [a, b] + [c, d] == [a, b, c, d] && [a, b, c, d] + [e, g] == [a, b, c, d, e, g]
  {
  }

  /** The prefixes of a display of three. */
  lemma Prefixes<T>(a: T, b: T, c: T)
    ensures [a, b, c][..2] == [a, b] && [a, b][..1] == [a] && [a][..0] == []
  {
  }

  /** The labels `ds`, each followed by the metric `m`. */
  function Suffixed(ds: seq<string>, m: string): seq<string> {
    if ds == [] then [] else Suffixed(ds[..|ds| - 1], m) + [ds[|ds| - 1] + m]
  }

  /** The 日活 and the 金额 columns among the period columns, in order. */
  lemma {:induction false} MetricFilter(ds: seq<string>)
    requires forall k :: 0 <= k < |ds| ==> LabelChars(ds[k])
    ensures Filter(PeriodColumns(ds), IsActiveColumn) == Suffixed(ds, ACTIVE)
    ensures Filter(PeriodColumns(ds), IsMoneyColumn) == Suffixed(ds, MONEY)
  {
    if ds != [] {
      var n := |ds| - 1;
      var x := ds[n];
      var pre := ds[..n];
      MetricFilter(pre);
      PairFilter(x);
      var pair := [x + ACTIVE, x + MONEY];
      assert PeriodColumns(ds) == PeriodColumns(pre) + pair;
      assert Suffixed(ds, ACTIVE) == Suffixed(pre, ACTIVE) + [x + ACTIVE];
      assert Suffixed(ds, MONEY) == Suffixed(pre, MONEY) + [x + MONEY];
      FilterAppend(PeriodColumns(pre), pair, IsActiveColumn);
      FilterAppend(PeriodColumns(pre), pair, IsMoneyColumn);
    }
  }

  /** The two columns of one label, split by metric. */
  lemma PairFilter(x: string)
    requires LabelChars(x)
    ensures Filter([x + ACTIVE, x + MONEY], IsActiveColumn) == [x + ACTIVE]
    ensures Filter([x + ACTIVE, x + MONEY], IsMoneyColumn) == [x + MONEY]
  {
    MetricNames(x);
    var pair := [x + ACTIVE, x + MONEY];
    assert pair[1..][1..] == [];
    assert Filter(pair, IsActiveColumn) == [x + ACTIVE] + Filter(pair[1..], IsActiveColumn);
    assert Filter(pair[1..], IsActiveColumn) == Filter(pair[1..][1..], IsActiveColumn);
    assert Filter(pair, IsMoneyColumn) == Filter(pair[1..], IsMoneyColumn);
    assert Filter(pair[1..], IsMoneyColumn) == [x + MONEY] + Filter(pair[1..][1..], IsMoneyColumn);
  }

  /** The period columns of full periods with labels `ds`: 日活, then 金额. */
  function PeriodColumns(ds: seq<string>): seq<string> {
    if ds == [] then [] else PeriodColumns(ds[..|ds| - 1]) + [ds[|ds| - 1] + ACTIVE, ds[|ds| - 1] + MONEY]
  }

  // ------------------------------------------------------------ whole sheet

  lemma SuffixedTwo(d0: string, d1: string, m: string)
    ensures Suffixed([d0, d1], m) == [d0 + m, d1 + m]
  {
    assert [d0, d1][..1] == [d0];
    assert [d0][..0] == [];
    assert Suffixed([d0], m) == [d0 + m];
  }

  /** The comparison names of metric `m` never clash with a period
      column, and the names of the other metric never clash with them. */
  lemma NamesApart(d0: string, d1: string, d2: string, m: string, n: string)
    requires LabelChars(d0) && LabelChars(d1) && LabelChars(d2) && IsMetric(m) && IsMetric(n)
    ensures DiffName(d1, m) != d0 + n && RatioName(d1, m) != d0 + n
    ensures DiffName(d1, m) != d2 + n && RatioName(d1, m) != d2 + n
    ensures m != n ==> DiffName(d1, m) != DiffName(d2, n) && DiffName(d1, m) != RatioName(d2, n)
                       && RatioName(d1, m) != DiffName(d2, n) && RatioName(d1, m) != RatioName(d2, n)
  {
    CompareNameNotPeriodName(d1, m, d0, n);
    CompareNameNotPeriodName(d1, m, d2, n);
    CompareNameInjective(d1, m, d2, n);
    CompareNameInjective(d2, n, d1, m);
  }

  function TwoNames(d0: string, d1: string): seq<string> {
    [d0 + ACTIVE, d0 + MONEY, d1 + ACTIVE, d1 + MONEY]
  }

  function TwoValues(rows: seq<Row>, fields: seq<string>, p0: Pivots, p1: Pivots): (vs: seq<seq<Cell>>)
    requires WellFormedPeriod(Present(p0)) && WellFormedPeriod(Present(p1))
    ensures forall v :: v in vs ==> |v| == |rows|
  {
    [Column(p0, ACTIVE, rows, fields), Column(p0, MONEY, rows, fields),
     Column(p1, ACTIVE, rows, fields), Column(p1, MONEY, rows, fields)]
  }

  /** The two-period sheet step by step: the four period columns, then the
      日活 comparison, then the 金额 comparison. */
  lemma CompareDataTwo(base: Frame, fields: seq<string>, p0: Pivots, p1: Pivots, d0: string, d1: string, d2: string)
    requires WellFormedPeriod(Present(p0)) && WellFormedPeriod(Present(p1)) && Full(p0) && Full(p1)
    requires Labels([d0, d1, d2])
    ensures CompareData(base, fields, [Present(p0), Present(p1), Absent], [d0, d1, d2])
            == SheetTwo(base, fields, p0, p1, d0, d1)
  {
    var pivots := [Present(p0), Present(p1), Absent];
    var descs := [d0, d1, d2];
    LabelsOf(d0, d1, d2);
    WellFormedThree(Present(p0), Present(p1), Absent);
    GatherTwoOfThree(base.rows, fields, p0, p1, d0, d1, d2);
    GatherTwo(base.rows, fields, p0, p1, d0, d1);
    PeriodColumnsTwo(d0, d1);
    MetricFilter([d0, d1]);
    SuffixedTwo(d0, d1, ACTIVE);
    SuffixedTwo(d0, d1, MONEY);
  }

  /** Each period column of the two-period sheet holds its period's values. */
  lemma TwoPeriodColumns(base: Frame, fields: seq<string>, p0: Pivots, p1: Pivots, d0: string, d1: string, m: string, i: int)
    requires WellFormedPeriod(Present(p0)) && WellFormedPeriod(Present(p1))
    requires d0 != d1 && IsMetric(m) && 0 <= i < |base.rows|
    ensures var w := AssignAll(base, TwoNames(d0, d1), TwoValues(base.rows, fields, p0, p1));
            Get(w.rows[i], d0 + m) == Num(Avg(p0, m, base.rows[i], fields))
            && Get(w.rows[i], d1 + m) == Num(Avg(p1, m, base.rows[i], fields))
  {
    var names := TwoNames(d0, d1);
    var values := TwoValues(base.rows, fields, p0, p1);
    PeriodNameInjective(d0, d1, ACTIVE, ACTIVE);
    PeriodNameInjective(d0, d1, ACTIVE, MONEY);
    PeriodNameInjective(d0, d1, MONEY, ACTIVE);
    PeriodNameInjective(d0, d1, MONEY, MONEY);
    PeriodNameInjective(d0, d0, ACTIVE, MONEY);
    PeriodNameInjective(d1, d1, ACTIVE, MONEY);
    var j0 := if m == ACTIVE then 0 else 1;
    AssignAllGet(base, names, values, j0, i);
    AssignAllGet(base, names, values, j0 + 2, i);
  }

  /** The two-period sheet after both comparisons. */
  function SheetTwo(base: Frame, fields: seq<string>, p0: Pivots, p1: Pivots, d0: string, d1: string): Frame
    requires WellFormedPeriod(Present(p0)) && WellFormedPeriod(Present(p1))
  {
    BothCompared(AssignAll(base, TwoNames(d0, d1), TwoValues(base.rows, fields, p0, p1)), d0, d1)
  }

  /** One comparison of column `x0` against column `x1`, in row `i`. */
  lemma ComparedOnce(f: Frame, x0: string, x1: string, d0: string, d1: string, m: string, i: int)
    requires 0 <= i < |f.rows|
    requires DiffName(d1, m) != x0 && DiffName(d1, m) != x1
    ensures var r := CompareMetric(f, [x0, x1], [d0, d1], m);
            Get(r.rows[i], DiffName(d1, m)) == Sub(Get(f.rows[i], x0), Get(f.rows[i], x1))
            && Get(r.rows[i], RatioName(d1, m)) == Ratio(Get(f.rows[i], x0), Get(f.rows[i], x1))
  {
  }

  /** One comparison keeps every other column of row `i`. */
  lemma KeptOnce(f: Frame, x0: string, x1: string, d0: string, d1: string, m: string, i: int, c: string)
    requires 0 <= i < |f.rows| && c != DiffName(d1, m) && c != RatioName(d1, m)
    ensures Get(CompareMetric(f, [x0, x1], [d0, d1], m).rows[i], c) == Get(f.rows[i], c)
  {
  }

  /** The 日活 comparison followed by the 金额 comparison of two periods. */
  function BothCompared(w: Frame, d0: string, d1: string): Frame {
    CompareMetric(CompareMetric(w, [d0 + ACTIVE, d1 + ACTIVE], [d0, d1], ACTIVE),
                  [d0 + MONEY, d1 + MONEY], [d0, d1], MONEY)
  }

  /** Both comparisons keep the period columns. */
  lemma BothKeepPeriods(w: Frame, d0: string, d1: string, m: string, i: int)
    requires LabelChars(d0) && LabelChars(d1) && IsMetric(m) && 0 <= i < |w.rows|
    ensures Get(BothCompared(w, d0, d1).rows[i], d0 + m) == Get(w.rows[i], d0 + m)
    ensures Get(BothCompared(w, d0, d1).rows[i], d1 + m) == Get(w.rows[i], d1 + m)
  {
    var c1 := CompareMetric(w, [d0 + ACTIVE, d1 + ACTIVE], [d0, d1], ACTIVE);
    NamesApart(d0, d1, d1, ACTIVE, m);
    NamesApart(d0, d1, d1, MONEY, m);
    KeptOnce(w, d0 + ACTIVE, d1 + ACTIVE, d0, d1, ACTIVE, i, d0 + m);
    KeptOnce(w, d0 + ACTIVE, d1 + ACTIVE, d0, d1, ACTIVE, i, d1 + m);
    KeptOnce(c1, d0 + MONEY, d1 + MONEY, d0, d1, MONEY, i, d0 + m);
    KeptOnce(c1, d0 + MONEY, d1 + MONEY, d0, d1, MONEY, i, d1 + m);
  }

  /** The 日活 comparison survives the 金额 one. */
  lemma BothCompareActive(w: Frame, d0: string, d1: string, i: int)
    requires LabelChars(d0) && LabelChars(d1) && 0 <= i < |w.rows|
    ensures Get(BothCompared(w, d0, d1).rows[i], DiffName(d1, ACTIVE)) == Sub(Get(w.rows[i], d0 + ACTIVE), Get(w.rows[i], d1 + ACTIVE))
    ensures Get(BothCompared(w, d0, d1).rows[i], RatioName(d1, ACTIVE)) == Ratio(Get(w.rows[i], d0 + ACTIVE), Get(w.rows[i], d1 + ACTIVE))
  {
    var c1 := CompareMetric(w, [d0 + ACTIVE, d1 + ACTIVE], [d0, d1], ACTIVE);
    NamesApart(d0, d1, d1, ACTIVE, ACTIVE);
    NamesApart(d0, d1, d1, ACTIVE, MONEY);
    ComparedOnce(w, d0 + ACTIVE, d1 + ACTIVE, d0, d1, ACTIVE, i);
    KeptOnce(c1, d0 + MONEY, d1 + MONEY, d0, d1, MONEY, i, DiffName(d1, ACTIVE));
    KeptOnce(c1, d0 + MONEY, d1 + MONEY, d0, d1, MONEY, i, RatioName(d1, ACTIVE));
  }

  /** The 金额 comparison reads the period columns the 日活 one kept. */
  lemma BothCompareMoney(w: Frame, d0: string, d1: string, i: int)
    requires LabelChars(d0) && LabelChars(d1) && 0 <= i < |w.rows|
    ensures Get(BothCompared(w, d0, d1).rows[i], DiffName(d1, MONEY)) == Sub(Get(w.rows[i], d0 + MONEY), Get(w.rows[i], d1 + MONEY))
    ensures Get(BothCompared(w, d0, d1).rows[i], RatioName(d1, MONEY)) == Ratio(Get(w.rows[i], d0 + MONEY), Get(w.rows[i], d1 + MONEY))
  {
    var c1 := CompareMetric(w, [d0 + ACTIVE, d1 + ACTIVE], [d0, d1], ACTIVE);
    NamesApart(d0, d1, d1, ACTIVE, MONEY);
    NamesApart(d0, d1, d1, MONEY, MONEY);
    KeptOnce(w, d0 + ACTIVE, d1 + ACTIVE, d0, d1, ACTIVE, i, d0 + MONEY);
    KeptOnce(w, d0 + ACTIVE, d1 + ACTIVE, d0, d1, ACTIVE, i, d1 + MONEY);
    ComparedOnce(c1, d0 + MONEY, d1 + MONEY, d0, d1, MONEY, i);
  }

  /** Both comparisons of two periods whose metric `m` columns hold `a0`
      and `a1` in row `i`. */
  lemma ComparedTwo(w: Frame, d0: string, d1: string, m: string, i: int, a0: real, a1: real)
    requires LabelChars(d0) && LabelChars(d1) && IsMetric(m) && 0 <= i < |w.rows|
    requires Get(w.rows[i], d0 + m) == Num(a0) && Get(w.rows[i], d1 + m) == Num(a1)
    ensures var r := BothCompared(w, d0, d1);
            Get(r.rows[i], d0 + m) == Num(a0) && Get(r.rows[i], d1 + m) == Num(a1)
            && Get(r.rows[i], DiffName(d1, m)) == Num(a0 - a1)
            && Get(r.rows[i], RatioName(d1, m)) == Ratio(Num(a0), Num(a1))
  {
    BothKeepPeriods(w, d0, d1, m, i);
    BothCompareMetric(w, d0, d1, m, i);
    TwoValuesRead(BothCompared(w, d0, d1).rows[i], w.rows[i], d0, d1, m, a0, a1);
  }

  /** The values a compared row holds, read off the row it was compared
      from. */
  lemma TwoValuesRead(r: Row, w: Row, d0: string, d1: string, m: string, a0: real, a1: real)
    requires Get(w, d0 + m) == Num(a0) && Get(w, d1 + m) == Num(a1)
    requires Get(r, d0 + m) == Get(w, d0 + m) && Get(r, d1 + m) == Get(w, d1 + m)
    requires Get(r, DiffName(d1, m)) == Sub(Get(w, d0 + m), Get(w, d1 + m))
             && Get(r, RatioName(d1, m)) == Ratio(Get(w, d0 + m), Get(w, d1 + m))
    ensures Get(r, d0 + m) == Num(a0) && Get(r, d1 + m) == Num(a1)
            && Get(r, DiffName(d1, m)) == Num(a0 - a1)
            && Get(r, RatioName(d1, m)) == Ratio(Num(a0), Num(a1))
  {
  }

  /** Either metric's comparison, in row `i`. */
  lemma BothCompareMetric(w: Frame, d0: string, d1: string, m: string, i: int)
    requires LabelChars(d0) && LabelChars(d1) && IsMetric(m) && 0 <= i < |w.rows|
    ensures Get(BothCompared(w, d0, d1).rows[i], DiffName(d1, m)) == Sub(Get(w.rows[i], d0 + m), Get(w.rows[i], d1 + m))
    ensures Get(BothCompared(w, d0, d1).rows[i], RatioName(d1, m)) == Ratio(Get(w.rows[i], d0 + m), Get(w.rows[i], d1 + m))
  {
    if m == ACTIVE {
      BothCompareActive(w, d0, d1, i);
    } else {
      BothCompareMoney(w, d0, d1, i);
    }
  }

  lemma SheetTwoRow(base: Frame, fields: seq<string>, p0: Pivots, p1: Pivots, d0: string, d1: string,
                    m: string, i: int, a0: real, a1: real)
    requires WellFormedPeriod(Present(p0)) && WellFormedPeriod(Present(p1))
    requires LabelChars(d0) && LabelChars(d1) && d0 != d1 && IsMetric(m) && 0 <= i < |base.rows|
    requires a0 == Avg(p0, m, base.rows[i], fields) && a1 == Avg(p1, m, base.rows[i], fields)
    ensures var r := SheetTwo(base, fields, p0, p1, d0, d1);
            Get(r.rows[i], d0 + m) == Num(a0) && Get(r.rows[i], d1 + m) == Num(a1)
            && Get(r.rows[i], DiffName(d1, m)) == Num(a0 - a1)
            && Get(r.rows[i], RatioName(d1, m)) == Ratio(Num(a0), Num(a1))
  {
    TwoPeriodColumns(base, fields, p0, p1, d0, d1, m, i);
    var w := AssignAll(base, TwoNames(d0, d1), TwoValues(base.rows, fields, p0, p1));
    ComparedTwo(w, d0, d1, m, i, a0, a1);
  }

  /** The usual sheet of two periods (no extra period): in every key row,
      the column of each period holds that period's 平均值 for the row's key
      (0 for a key the period lacks), the difference column holds current
      minus compare and the ratio column the rounded relative change, empty
      where the compare value is 0. */
  lemma TwoPeriodRow(base: Frame, fields: seq<string>, p0: Pivots, p1: Pivots,
                     d0: string, d1: string, d2: string, m: string, i: int, a0: real, a1: real)
    requires WellFormedPeriod(Present(p0)) && WellFormedPeriod(Present(p1)) && Full(p0) && Full(p1)
    requires Labels([d0, d1, d2]) && d0 != d1 && IsMetric(m) && 0 <= i < |base.rows|
    requires a0 == Avg(p0, m, base.rows[i], fields) && a1 == Avg(p1, m, base.rows[i], fields)
    ensures var r := CompareData(base, fields, [Present(p0), Present(p1), Absent], [d0, d1, d2]);
            Get(r.rows[i], d0 + m) == Num(a0) && Get(r.rows[i], d1 + m) == Num(a1)
            && Get(r.rows[i], DiffName(d1, m)) == Num(a0 - a1)
            && Get(r.rows[i], RatioName(d1, m)) == Ratio(Num(a0), Num(a1))
  {
    var descs := [d0, d1, d2];
    assert LabelChars(d0) && LabelChars(d1) by {
      assert descs[0] == d0 && descs[1] == d1;
    }
    CompareDataTwo(base, fields, p0, p1, d0, d1, d2);
    SheetTwoRow(base, fields, p0, p1, d0, d1, m, i, a0, a1);
  }

  // ------------------------------------------------------- three periods

  /** The period columns of two labels are apart when the labels are. */
  lemma LabelsApart(d: string, e: string)
    ensures d + ACTIVE != d + MONEY
    ensures d != e ==> d + ACTIVE != e + ACTIVE && d + ACTIVE != e + MONEY
                       && d + MONEY != e + ACTIVE && d + MONEY != e + MONEY
  {
    PeriodNameInjective(d, d, ACTIVE, MONEY);
    PeriodNameInjective(d, e, ACTIVE, ACTIVE);
    PeriodNameInjective(d, e, ACTIVE, MONEY);
    PeriodNameInjective(d, e, MONEY, ACTIVE);
    PeriodNameInjective(d, e, MONEY, MONEY);
  }

  /** No comparison name of metric `m` is a period column of metric `n`. */
  lemma ApartAll(ds: seq<string>, m: string, n: string)
    requires forall k :: 0 <= k < |ds| ==> LabelChars(ds[k])
    requires IsMetric(n)
    ensures forall j, k :: 0 <= j < |ds| && 0 <= k < |ds| ==> DiffName(ds[k], m) != ds[j] + n && RatioName(ds[k], m) != ds[j] + n
  {
    forall j, k | 0 <= j < |ds| && 0 <= k < |ds|
      ensures DiffName(ds[k], m) != ds[j] + n && RatioName(ds[k], m) != ds[j] + n
    {
      CompareNameNotPeriodName(ds[k], m, ds[j], n);
    }
  }

  lemma LabelsOf(d0: string, d1: string, d2: string)
    requires Labels([d0, d1, d2])
    ensures LabelChars(d0) && LabelChars(d1) && LabelChars(d2)
  {
    var descs := [d0, d1, d2];
    assert descs[0] == d0 && descs[1] == d1 && descs[2] == d2;
  }

  function ThreeNames(d0: string, d1: string, d2: string): seq<string> {
    [d0 + ACTIVE, d0 + MONEY, d1 + ACTIVE, d1 + MONEY, d2 + ACTIVE, d2 + MONEY]
  }

  function ThreeValues(rows: seq<Row>, fields: seq<string>, p0: Pivots, p1: Pivots, p2: Pivots): (vs: seq<seq<Cell>>)
    requires WellFormedPeriod(Present(p0)) && WellFormedPeriod(Present(p1)) && WellFormedPeriod(Present(p2))
    ensures forall v :: v in vs ==> |v| == |rows|
  {
    [Column(p0, ACTIVE, rows, fields), Column(p0, MONEY, rows, fields),
     Column(p1, ACTIVE, rows, fields), Column(p1, MONEY, rows, fields),
     Column(p2, ACTIVE, rows, fields), Column(p2, MONEY, rows, fields)]
  }

  /** The three-period sheet after both comparisons. */
  function SheetThree(base: Frame, fields: seq<string>, p0: Pivots, p1: Pivots, p2: Pivots,
                      d0: string, d1: string, d2: string): Frame
    requires WellFormedPeriod(Present(p0)) && WellFormedPeriod(Present(p1)) && WellFormedPeriod(Present(p2))
  {
    ThreeCompared(AssignAll(base, ThreeNames(d0, d1, d2), ThreeValues(base.rows, fields, p0, p1, p2)), d0, d1, d2)
  }

  lemma SuffixedThree(d0: string, d1: string, d2: string, m: string)
    ensures Suffixed([d0, d1, d2], m) == [d0 + m, d1 + m, d2 + m]
  {
    assert [d0, d1, d2][..2] == [d0, d1];
    SuffixedTwo(d0, d1, m);
  }

  lemma CompareDataThree(base: Frame, fields: seq<string>, p0: Pivots, p1: Pivots, p2: Pivots,
                         d0: string, d1: string, d2: string)
    requires WellFormedPeriod(Present(p0)) && WellFormedPeriod(Present(p1)) && WellFormedPeriod(Present(p2))
    requires Full(p0) && Full(p1) && Full(p2) && Labels([d0, d1, d2])
    ensures CompareData(base, fields, [Present(p0), Present(p1), Present(p2)], [d0, d1, d2])
            == SheetThree(base, fields, p0, p1, p2, d0, d1, d2)
  {
    var pivots := [Present(p0), Present(p1), Present(p2)];
    var descs := [d0, d1, d2];
    WellFormedThree(Present(p0), Present(p1), Present(p2));
    GatherThree(base.rows, fields, p0, p1, p2, d0, d1, d2);
    PeriodColumnsThree(d0, d1, d2);
    MetricFilter(descs);
    SuffixedThree(d0, d1, d2, ACTIVE);
    SuffixedThree(d0, d1, d2, MONEY);
  }

  /** One more assignment at the end of a run. */
  lemma AssignAllSnoc(f: Frame, names: seq<string>, values: seq<seq<Cell>>, n: string, v: seq<Cell>)
    requires |names| == |values| && forall u :: u in values ==> |u| == |f.rows|
    requires |v| == |f.rows|
    ensures forall u :: u in values + [v] ==> |u| == |f.rows|
    ensures AssignAll(f, names + [n], values + [v]) == AssignColumn(AssignAll(f, names, values), n, v)
  {
    assert (names + [n])[..|names|] == names && (values + [v])[..|names|] == values;
  }

  /** Six assignments of distinct columns: each column holds its values. */
  lemma SixCells(f: Frame, n0: string, n1: string, n2: string, n3: string, n4: string, n5: string,
                 v0: seq<Cell>, v1: seq<Cell>, v2: seq<Cell>, v3: seq<Cell>, v4: seq<Cell>, v5: seq<Cell>, i: int)
    requires n0 != n1 && n0 != n2 && n0 != n3 && n0 != n4 && n0 != n5
    requires n1 != n2 && n1 != n3 && n1 != n4 && n1 != n5
    requires n2 != n3 && n2 != n4 && n2 != n5
    requires n3 != n4 && n3 != n5 && n4 != n5
    requires |v0| == |v1| == |v2| == |v3| == |v4| == |v5| == |f.rows| && 0 <= i < |f.rows|
    ensures var r := AssignAll(f, [n0, n1, n2, n3, n4, n5], [v0, v1, v2, v3, v4, v5]).rows[i];
            Get(r, n0) == v0[i] && Get(r, n1) == v1[i] && Get(r, n2) == v2[i]
            && Get(r, n3) == v3[i] && Get(r, n4) == v4[i] && Get(r, n5) == v5[i]
  {
    Snocs(n0, n1, n2, n3, n4, n5);
    Snocs(v0, v1, v2, v3, v4, v5);
    AssignAllSnoc(f, [], [], n0, v0);
    AssignAllSnoc(f, [n0], [v0], n1, v1);
    AssignAllSnoc(f, [n0, n1], [v0, v1], n2, v2);
    AssignAllSnoc(f, [n0, n1, n2], [v0, v1, v2], n3, v3);
    AssignAllSnoc(f, [n0, n1, n2, n3], [v0, v1, v2, v3], n4, v4);
    AssignAllSnoc(f, [n0, n1, n2, n3, n4], [v0, v1, v2, v3, v4], n5, v5);
  }

  /** Displays of up to six elements, each its predecessor plus one. */
  lemma Snocs<T>(a: T, b: T, c: T, d: T, e: T, g: T)
    ensures [a] == [] + [a] && [a, b] == [a] + [b] && [a, b, c] == [a, b] + [c]
    ensures [a, b, c, d] == [a, b, c] + [d] && [a, b, c, d, e] == [a, b, c, d] + [e]
    ensures [a, b, c, d, e, g] == [a, b, c, d, e] + [g]
  {
  }

  /** The metric `m` column of a period holds the period's value. */
  lemma ColumnCell(p: Pivots, m: string, rows: seq<Row>, fields: seq<string>, i: int)
    requires WellFormedPeriod(Present(p)) && 0 <= i < |rows|
    ensures Column(p, m, rows, fields)[i] == Num(Avg(p, m, rows[i], fields))
  {
  }

  lemma ThreePeriodColumns(base: Frame, fields: seq<string>, p0: Pivots, p1: Pivots, p2: Pivots,
                           d0: string, d1: string, d2: string, m: string, i: int, a0: real, a1: real, a2: real)
    requires WellFormedPeriod(Present(p0)) && WellFormedPeriod(Present(p1)) && WellFormedPeriod(Present(p2))
    requires d0 != d1 && d0 != d2 && d1 != d2 && IsMetric(m) && 0 <= i < |base.rows|
    requires a0 == Avg(p0, m, base.rows[i], fields) && a1 == Avg(p1, m, base.rows[i], fields)
             && a2 == Avg(p2, m, base.rows[i], fields)
    ensures var w := AssignAll(base, ThreeNames(d0, d1, d2), ThreeValues(base.rows, fields, p0, p1, p2));
            Get(w.rows[i], d0 + m) == Num(a0) && Get(w.rows[i], d1 + m) == Num(a1) && Get(w.rows[i], d2 + m) == Num(a2)
  {
    var rows := base.rows;
    LabelsApart(d0, d1);
    LabelsApart(d0, d2);
    LabelsApart(d1, d2);
    LabelsApart(d2, d2);
    SixCells(base, d0 + ACTIVE, d0 + MONEY, d1 + ACTIVE, d1 + MONEY, d2 + ACTIVE, d2 + MONEY,
             Column(p0, ACTIVE, rows, fields), Column(p0, MONEY, rows, fields),
             Column(p1, ACTIVE, rows, fields), Column(p1, MONEY, rows, fields),
             Column(p2, ACTIVE, rows, fields), Column(p2, MONEY, rows, fields), i);
    ColumnCell(p0, m, rows, fields, i);
    ColumnCell(p1, m, rows, fields, i);
    ColumnCell(p2, m, rows, fields, i);
  }

  /** The 日活 comparisons followed by the 金额 comparisons of three periods. */
  function ThreeCompared(w: Frame, d0: string, d1: string, d2: string): Frame {
    CompareMetric(CompareMetric(w, [d0 + ACTIVE, d1 + ACTIVE, d2 + ACTIVE], [d0, d1, d2], ACTIVE),
                  [d0 + MONEY, d1 + MONEY, d2 + MONEY], [d0, d1, d2], MONEY)
  }

  /** The comparisons of one metric of three periods keep every other
      column of row `i`. */
  lemma KeptTwice(f: Frame, d0: string, d1: string, d2: string, m: string, i: int, c: string)
    requires 0 <= i < |f.rows|
    requires c != DiffName(d1, m) && c != RatioName(d1, m) && c != DiffName(d2, m) && c != RatioName(d2, m)
    ensures Get(CompareMetric(f, [d0 + m, d1 + m, d2 + m], [d0, d1, d2], m).rows[i], c) == Get(f.rows[i], c)
  {
  }

  /** The comparisons of one metric of three periods, in row `i`: against
      the second period and against the third, both read from `f`. */
  lemma ComparedTwice(f: Frame, d0: string, d1: string, d2: string, m: string, i: int)
    requires LabelChars(d0) && LabelChars(d1) && LabelChars(d2) && IsMetric(m) && 0 <= i < |f.rows|
    ensures var r := CompareMetric(f, [d0 + m, d1 + m, d2 + m], [d0, d1, d2], m);
            Get(r.rows[i], DiffName(d1, m)) == Sub(Get(f.rows[i], d0 + m), Get(f.rows[i], d1 + m))
            && Get(r.rows[i], RatioName(d1, m)) == Ratio(Get(f.rows[i], d0 + m), Get(f.rows[i], d1 + m))
            && Get(r.rows[i], DiffName(d2, m)) == Sub(Get(f.rows[i], d0 + m), Get(f.rows[i], d2 + m))
            && Get(r.rows[i], RatioName(d2, m)) == Ratio(Get(f.rows[i], d0 + m), Get(f.rows[i], d2 + m))
  {
    var first := CompareAgainst(f, d0 + m, d1 + m, d1, m);
    PeriodsApart(d0, d1, d2, m, m);
    CompareNameInjective(d1, m, d2, m);
    CompareNameInjective(d2, m, d1, m);
  }

  /** Both passes keep the period columns. */
  lemma ThreeKeepPeriods(w: Frame, d0: string, d1: string, d2: string, m: string, i: int)
    requires LabelChars(d0) && LabelChars(d1) && LabelChars(d2) && IsMetric(m) && 0 <= i < |w.rows|
    ensures var r := ThreeCompared(w, d0, d1, d2);
            Get(r.rows[i], d0 + m) == Get(w.rows[i], d0 + m) && Get(r.rows[i], d1 + m) == Get(w.rows[i], d1 + m)
            && Get(r.rows[i], d2 + m) == Get(w.rows[i], d2 + m)
  {
    var c1 := CompareMetric(w, [d0 + ACTIVE, d1 + ACTIVE, d2 + ACTIVE], [d0, d1, d2], ACTIVE);
    PeriodsApart(d0, d1, d2, ACTIVE, m);
    PeriodsApart(d0, d1, d2, MONEY, m);
    KeptTwice(w, d0, d1, d2, ACTIVE, i, d0 + m);
    KeptTwice(w, d0, d1, d2, ACTIVE, i, d1 + m);
    KeptTwice(w, d0, d1, d2, ACTIVE, i, d2 + m);
    KeptTwice(c1, d0, d1, d2, MONEY, i, d0 + m);
    KeptTwice(c1, d0, d1, d2, MONEY, i, d1 + m);
    KeptTwice(c1, d0, d1, d2, MONEY, i, d2 + m);
  }

  /** No comparison name of metric `n` against `d1` or `d2` is a period
      column of metric `m`. */
  lemma PeriodsApart(d0: string, d1: string, d2: string, n: string, m: string)
    requires LabelChars(d0) && LabelChars(d1) && LabelChars(d2) && IsMetric(m)
    ensures DiffName(d1, n) != d0 + m && RatioName(d1, n) != d0 + m
    ensures DiffName(d1, n) != d1 + m && RatioName(d1, n) != d1 + m
    ensures DiffName(d1, n) != d2 + m && RatioName(d1, n) != d2 + m
    ensures DiffName(d2, n) != d0 + m && RatioName(d2, n) != d0 + m
    ensures DiffName(d2, n) != d1 + m && RatioName(d2, n) != d1 + m
    ensures DiffName(d2, n) != d2 + m && RatioName(d2, n) != d2 + m
  {
    CompareNameNotPeriodName(d1, n, d0, m);
    CompareNameNotPeriodName(d1, n, d1, m);
    CompareNameNotPeriodName(d1, n, d2, m);
    CompareNameNotPeriodName(d2, n, d0, m);
    CompareNameNotPeriodName(d2, n, d1, m);
    CompareNameNotPeriodName(d2, n, d2, m);
  }

  /** A 日活 comparison name against `d1` or `d2` is no 金额 comparison name. */
  lemma MetricsApart(d1: string, d2: string)
    ensures DiffName(d1, ACTIVE) != DiffName(d1, MONEY) && DiffName(d1, ACTIVE) != RatioName(d1, MONEY)
    ensures DiffName(d1, ACTIVE) != DiffName(d2, MONEY) && DiffName(d1, ACTIVE) != RatioName(d2, MONEY)
    ensures RatioName(d1, ACTIVE) != DiffName(d1, MONEY) && RatioName(d1, ACTIVE) != RatioName(d1, MONEY)
    ensures RatioName(d1, ACTIVE) != DiffName(d2, MONEY) && RatioName(d1, ACTIVE) != RatioName(d2, MONEY)
    ensures DiffName(d2, ACTIVE) != DiffName(d1, MONEY) && DiffName(d2, ACTIVE) != RatioName(d1, MONEY)
    ensures DiffName(d2, ACTIVE) != DiffName(d2, MONEY) && DiffName(d2, ACTIVE) != RatioName(d2, MONEY)
    ensures RatioName(d2, ACTIVE) != DiffName(d1, MONEY) && RatioName(d2, ACTIVE) != RatioName(d1, MONEY)
    ensures RatioName(d2, ACTIVE) != DiffName(d2, MONEY) && RatioName(d2, ACTIVE) != RatioName(d2, MONEY)
  {
    CompareNameInjective(d1, ACTIVE, d1, MONEY);
    CompareNameInjective(d1, ACTIVE, d2, MONEY);
    CompareNameInjective(d2, ACTIVE, d1, MONEY);
    CompareNameInjective(d2, ACTIVE, d2, MONEY);
    CompareNameInjective(d1, MONEY, d1, ACTIVE);
    CompareNameInjective(d1, MONEY, d2, ACTIVE);
    CompareNameInjective(d2, MONEY, d1, ACTIVE);
    CompareNameInjective(d2, MONEY, d2, ACTIVE);
  }

  /** The 日活 comparisons survive the 金额 ones. */
  lemma ThreeCompareActive(w: Frame, d0: string, d1: string, d2: string, i: int)
    requires LabelChars(d0) && LabelChars(d1) && LabelChars(d2) && 0 <= i < |w.rows|
    ensures var r := ThreeCompared(w, d0, d1, d2);
            Get(r.rows[i], DiffName(d1, ACTIVE)) == Sub(Get(w.rows[i], d0 + ACTIVE), Get(w.rows[i], d1 + ACTIVE))
            && Get(r.rows[i], RatioName(d1, ACTIVE)) == Ratio(Get(w.rows[i], d0 + ACTIVE), Get(w.rows[i], d1 + ACTIVE))
            && Get(r.rows[i], DiffName(d2, ACTIVE)) == Sub(Get(w.rows[i], d0 + ACTIVE), Get(w.rows[i], d2 + ACTIVE))
            && Get(r.rows[i], RatioName(d2, ACTIVE)) == Ratio(Get(w.rows[i], d0 + ACTIVE), Get(w.rows[i], d2 + ACTIVE))
  {
    var c1 := CompareMetric(w, [d0 + ACTIVE, d1 + ACTIVE, d2 + ACTIVE], [d0, d1, d2], ACTIVE);
    ComparedTwice(w, d0, d1, d2, ACTIVE, i);
    MetricsApart(d1, d2);
    KeptTwice(c1, d0, d1, d2, MONEY, i, DiffName(d1, ACTIVE));
    KeptTwice(c1, d0, d1, d2, MONEY, i, RatioName(d1, ACTIVE));
    KeptTwice(c1, d0, d1, d2, MONEY, i, DiffName(d2, ACTIVE));
    KeptTwice(c1, d0, d1, d2, MONEY, i, RatioName(d2, ACTIVE));
  }

  /** The 金额 comparisons read the period columns the 日活 ones kept. */
  lemma ThreeCompareMoney(w: Frame, d0: string, d1: string, d2: string, i: int)
    requires LabelChars(d0) && LabelChars(d1) && LabelChars(d2) && 0 <= i < |w.rows|
    ensures var r := ThreeCompared(w, d0, d1, d2);
            Get(r.rows[i], DiffName(d1, MONEY)) == Sub(Get(w.rows[i], d0 + MONEY), Get(w.rows[i], d1 + MONEY))
            && Get(r.rows[i], RatioName(d1, MONEY)) == Ratio(Get(w.rows[i], d0 + MONEY), Get(w.rows[i], d1 + MONEY))
            && Get(r.rows[i], DiffName(d2, MONEY)) == Sub(Get(w.rows[i], d0 + MONEY), Get(w.rows[i], d2 + MONEY))
            && Get(r.rows[i], RatioName(d2, MONEY)) == Ratio(Get(w.rows[i], d0 + MONEY), Get(w.rows[i], d2 + MONEY))
  {
    var c1 := CompareMetric(w, [d0 + ACTIVE, d1 + ACTIVE, d2 + ACTIVE], [d0, d1, d2], ACTIVE);
    PeriodsApart(d0, d1, d2, ACTIVE, MONEY);
    KeptTwice(w, d0, d1, d2, ACTIVE, i, d0 + MONEY);
    KeptTwice(w, d0, d1, d2, ACTIVE, i, d1 + MONEY);
    KeptTwice(w, d0, d1, d2, ACTIVE, i, d2 + MONEY);
    ComparedTwice(c1, d0, d1, d2, MONEY, i);
  }

  /** Either metric's comparisons, in row `i`. */
  lemma ThreeCompareMetric(w: Frame, d0: string, d1: string, d2: string, m: string, i: int)
    requires LabelChars(d0) && LabelChars(d1) && LabelChars(d2) && IsMetric(m) && 0 <= i < |w.rows|
    ensures var r := ThreeCompared(w, d0, d1, d2);
            Get(r.rows[i], DiffName(d1, m)) == Sub(Get(w.rows[i], d0 + m), Get(w.rows[i], d1 + m))
            && Get(r.rows[i], RatioName(d1, m)) == Ratio(Get(w.rows[i], d0 + m), Get(w.rows[i], d1 + m))
            && Get(r.rows[i], DiffName(d2, m)) == Sub(Get(w.rows[i], d0 + m), Get(w.rows[i], d2 + m))
            && Get(r.rows[i], RatioName(d2, m)) == Ratio(Get(w.rows[i], d0 + m), Get(w.rows[i], d2 + m))
  {
    if m == ACTIVE {
      ThreeCompareActive(w, d0, d1, d2, i);
    } else {
      ThreeCompareMoney(w, d0, d1, d2, i);
    }
  }

  /** Both comparisons of three periods whose metric `m` columns hold `a0`,
      `a1` and `a2` in row `i`. */
  lemma ComparedThree(w: Frame, d0: string, d1: string, d2: string, m: string, i: int, a0: real, a1: real, a2: real)
    requires LabelChars(d0) && LabelChars(d1) && LabelChars(d2) && IsMetric(m) && 0 <= i < |w.rows|
    requires Get(w.rows[i], d0 + m) == Num(a0) && Get(w.rows[i], d1 + m) == Num(a1) && Get(w.rows[i], d2 + m) == Num(a2)
    ensures var r := ThreeCompared(w, d0, d1, d2);
            Get(r.rows[i], d0 + m) == Num(a0) && Get(r.rows[i], d1 + m) == Num(a1) && Get(r.rows[i], d2 + m) == Num(a2)
            && Get(r.rows[i], DiffName(d1, m)) == Num(a0 - a1)
            && Get(r.rows[i], RatioName(d1, m)) == Ratio(Num(a0), Num(a1))
            && Get(r.rows[i], DiffName(d2, m)) == Num(a0 - a2)
            && Get(r.rows[i], RatioName(d2, m)) == Ratio(Num(a0), Num(a2))
  {
    ThreeKeepPeriods(w, d0, d1, d2, m, i);
    ThreeCompareMetric(w, d0, d1, d2, m, i);
    ThreeValuesRead(ThreeCompared(w, d0, d1, d2).rows[i], w.rows[i], d0, d1, d2, m, a0, a1, a2);
  }

  /** The values a compared row holds, read off the row it was compared
      from. */
  lemma ThreeValuesRead(r: Row, w: Row, d0: string, d1: string, d2: string, m: string, a0: real, a1: real, a2: real)
    requires Get(w, d0 + m) == Num(a0) && Get(w, d1 + m) == Num(a1) && Get(w, d2 + m) == Num(a2)
    requires Get(r, d0 + m) == Get(w, d0 + m) && Get(r, d1 + m) == Get(w, d1 + m) && Get(r, d2 + m) == Get(w, d2 + m)
    requires Get(r, DiffName(d1, m)) == Sub(Get(w, d0 + m), Get(w, d1 + m))
             && Get(r, RatioName(d1, m)) == Ratio(Get(w, d0 + m), Get(w, d1 + m))
             && Get(r, DiffName(d2, m)) == Sub(Get(w, d0 + m), Get(w, d2 + m))
             && Get(r, RatioName(d2, m)) == Ratio(Get(w, d0 + m), Get(w, d2 + m))
    ensures Get(r, d0 + m) == Num(a0) && Get(r, d1 + m) == Num(a1) && Get(r, d2 + m) == Num(a2)
            && Get(r, DiffName(d1, m)) == Num(a0 - a1)
            && Get(r, RatioName(d1, m)) == Ratio(Num(a0), Num(a1))
            && Get(r, DiffName(d2, m)) == Num(a0 - a2)
            && Get(r, RatioName(d2, m)) == Ratio(Num(a0), Num(a2))
  {
  }

  lemma SheetThreeRow(base: Frame, fields: seq<string>, p0: Pivots, p1: Pivots, p2: Pivots,
                      d0: string, d1: string, d2: string, m: string, i: int, a0: real, a1: real, a2: real)
    requires WellFormedPeriod(Present(p0)) && WellFormedPeriod(Present(p1)) && WellFormedPeriod(Present(p2))
    requires Labels([d0, d1, d2]) && d0 != d1 && d0 != d2 && d1 != d2 && IsMetric(m) && 0 <= i < |base.rows|
    requires a0 == Avg(p0, m, base.rows[i], fields) && a1 == Avg(p1, m, base.rows[i], fields)
             && a2 == Avg(p2, m, base.rows[i], fields)
    ensures var r := SheetThree(base, fields, p0, p1, p2, d0, d1, d2);
            Get(r.rows[i], d0 + m) == Num(a0) && Get(r.rows[i], d1 + m) == Num(a1) && Get(r.rows[i], d2 + m) == Num(a2)
            && Get(r.rows[i], DiffName(d1, m)) == Num(a0 - a1)
            && Get(r.rows[i], RatioName(d1, m)) == Ratio(Num(a0), Num(a1))
            && Get(r.rows[i], DiffName(d2, m)) == Num(a0 - a2)
            && Get(r.rows[i], RatioName(d2, m)) == Ratio(Num(a0), Num(a2))
  {
    LabelsOf(d0, d1, d2);
    ThreePeriodColumns(base, fields, p0, p1, p2, d0, d1, d2, m, i, a0, a1, a2);
    var w := AssignAll(base, ThreeNames(d0, d1, d2), ThreeValues(base.rows, fields, p0, p1, p2));
    ComparedThree(w, d0, d1, d2, m, i, a0, a1, a2);
  }

  /** The sheet of three periods with distinct labels: as with two, and the
      current period is compared with the extra period too, under the extra
      period's label. */
  lemma ThreePeriodRow(base: Frame, fields: seq<string>, p0: Pivots, p1: Pivots, p2: Pivots,
                       d0: string, d1: string, d2: string, m: string, i: int, a0: real, a1: real, a2: real)
    requires WellFormedPeriod(Present(p0)) && WellFormedPeriod(Present(p1)) && WellFormedPeriod(Present(p2))
    requires Full(p0) && Full(p1) && Full(p2)
    requires Labels([d0, d1, d2]) && d0 != d1 && d0 != d2 && d1 != d2 && IsMetric(m) && 0 <= i < |base.rows|
    requires a0 == Avg(p0, m, base.rows[i], fields) && a1 == Avg(p1, m, base.rows[i], fields)
             && a2 == Avg(p2, m, base.rows[i], fields)
    ensures var r := CompareData(base, fields, [Present(p0), Present(p1), Present(p2)], [d0, d1, d2]);
            Get(r.rows[i], d0 + m) == Num(a0) && Get(r.rows[i], d1 + m) == Num(a1) && Get(r.rows[i], d2 + m) == Num(a2)
            && Get(r.rows[i], DiffName(d1, m)) == Num(a0 - a1)
            && Get(r.rows[i], RatioName(d1, m)) == Ratio(Num(a0), Num(a1))
            && Get(r.rows[i], DiffName(d2, m)) == Num(a0 - a2)
            && Get(r.rows[i], RatioName(d2, m)) == Ratio(Num(a0), Num(a2))
  {
    CompareDataThree(base, fields, p0, p1, p2, d0, d1, d2);
    SheetThreeRow(base, fields, p0, p1, p2, d0, d1, d2, m, i, a0, a1, a2);
  }

  /** The value a period column labelled `d` is left with after the three
      periods are assigned in order: periods that share a label share their
      columns, so the last of them writes the column. */
  function Surviving(d: string, d0: string, d1: string, d2: string, a0: real, a1: real, a2: real): real {
    if d == d2 then a2 else if d == d1 then a1 else a0
  }

  /** Six assignments in order: a column holds the values of the last
      assignment to it, or its old cell. */
  lemma SixCellsLast(f: Frame, n0: string, n1: string, n2: string, n3: string, n4: string, n5: string,
                     v0: seq<Cell>, v1: seq<Cell>, v2: seq<Cell>, v3: seq<Cell>, v4: seq<Cell>, v5: seq<Cell>,
                     i: int, c: string)
    requires |v0| == |v1| == |v2| == |v3| == |v4| == |v5| == |f.rows| && 0 <= i < |f.rows|
    ensures Get(AssignAll(f, [n0, n1, n2, n3, n4, n5], [v0, v1, v2, v3, v4, v5]).rows[i], c)
            == if c == n5 then v5[i] else if c == n4 then v4[i] else if c == n3 then v3[i]
               else if c == n2 then v2[i] else if c == n1 then v1[i] else if c == n0 then v0[i]
               else Get(f.rows[i], c)
  {
    Snocs(n0, n1, n2, n3, n4, n5);
    Snocs(v0, v1, v2, v3, v4, v5);
    AssignAllSnoc(f, [], [], n0, v0);
    AssignAllSnoc(f, [n0], [v0], n1, v1);
    AssignAllSnoc(f, [n0, n1], [v0, v1], n2, v2);
    AssignAllSnoc(f, [n0, n1, n2], [v0, v1, v2], n3, v3);
    AssignAllSnoc(f, [n0, n1, n2, n3], [v0, v1, v2, v3], n4, v4);
    AssignAllSnoc(f, [n0, n1, n2, n3, n4], [v0, v1, v2, v3, v4], n5, v5);
  }

  /** The metric `m` column of label `d`, one of the three labels, after
      the three periods are assigned. */
  lemma SurvivingColumn(base: Frame, fields: seq<string>, p0: Pivots, p1: Pivots, p2: Pivots,
                        d0: string, d1: string, d2: string, d: string, m: string, i: int, a0: real, a1: real, a2: real)
    requires WellFormedPeriod(Present(p0)) && WellFormedPeriod(Present(p1)) && WellFormedPeriod(Present(p2))
    requires d == d0 || d == d1 || d == d2
    requires IsMetric(m) && 0 <= i < |base.rows|
    requires a0 == Avg(p0, m, base.rows[i], fields) && a1 == Avg(p1, m, base.rows[i], fields)
             && a2 == Avg(p2, m, base.rows[i], fields)
    ensures Get(AssignAll(base, ThreeNames(d0, d1, d2), ThreeValues(base.rows, fields, p0, p1, p2)).rows[i], d + m)
            == Num(Surviving(d, d0, d1, d2, a0, a1, a2))
  {
    var rows := base.rows;
    var c0a, c0m := Column(p0, ACTIVE, rows, fields), Column(p0, MONEY, rows, fields);
    var c1a, c1m := Column(p1, ACTIVE, rows, fields), Column(p1, MONEY, rows, fields);
    var c2a, c2m := Column(p2, ACTIVE, rows, fields), Column(p2, MONEY, rows, fields);
    SixCellsLast(base, d0 + ACTIVE, d0 + MONEY, d1 + ACTIVE, d1 + MONEY, d2 + ACTIVE, d2 + MONEY,
                 c0a, c0m, c1a, c1m, c2a, c2m, i, d + m);
    SixNames(d, d0, d1, d2, m);
    LastOfSix(d + m, d0 + ACTIVE, d0 + MONEY, d1 + ACTIVE, d1 + MONEY, d2 + ACTIVE, d2 + MONEY, d, d0, d1, d2, m == ACTIVE,
              c0a[i], c0m[i], c1a[i], c1m[i], c2a[i], c2m[i], Get(rows[i], d + m));
    ColumnCell(p0, m, rows, fields, i);
    ColumnCell(p1, m, rows, fields, i);
    ColumnCell(p2, m, rows, fields, i);
    PickColumn(p0, m, rows, fields, i);
    PickColumn(p1, m, rows, fields, i);
    PickColumn(p2, m, rows, fields, i);
  }

  /** A period's column of metric `m`, as one of its two columns. */
  lemma PickColumn(p: Pivots, m: string, rows: seq<Row>, fields: seq<string>, i: int)
    requires WellFormedPeriod(Present(p)) && IsMetric(m) && 0 <= i < |rows|
    ensures (if m == ACTIVE then Column(p, ACTIVE, rows, fields)[i] else Column(p, MONEY, rows, fields)[i])
            == Column(p, m, rows, fields)[i]
  {
  }

  /** Which of six columns, assigned in order, a name `c` reads: the last
      one whose label is `d` and whose metric is that of `c`. */
  lemma LastOfSix<N, L>(c: N, n0: N, n1: N, n2: N, n3: N, n4: N, n5: N, d: L, d0: L, d1: L, d2: L, active: bool,
                        x0: Cell, y0: Cell, x1: Cell, y1: Cell, x2: Cell, y2: Cell, before: Cell)
    requires d == d0 || d == d1 || d == d2
    requires (c == n0 <==> d == d0 && active) && (c == n1 <==> d == d0 && !active)
    requires (c == n2 <==> d == d1 && active) && (c == n3 <==> d == d1 && !active)
    requires (c == n4 <==> d == d2 && active) && (c == n5 <==> d == d2 && !active)
    ensures (if c == n5 then y2 else if c == n4 then x2 else if c == n3 then y1
             else if c == n2 then x1 else if c == n1 then y0 else if c == n0 then x0 else before)
            == if d == d2 then (if active then x2 else y2) else if d == d1 then (if active then x1 else y1)
               else if active then x0 else y0
  {
  }

  /** The names of the six period columns against a name `d + m`. */
  lemma SixNames(d: string, d0: string, d1: string, d2: string, m: string)
    requires IsMetric(m)
    ensures (d + m == d0 + ACTIVE <==> d == d0 && m == ACTIVE) && (d + m == d0 + MONEY <==> d == d0 && m != ACTIVE)
    ensures (d + m == d1 + ACTIVE <==> d == d1 && m == ACTIVE) && (d + m == d1 + MONEY <==> d == d1 && m != ACTIVE)
    ensures (d + m == d2 + ACTIVE <==> d == d2 && m == ACTIVE) && (d + m == d2 + MONEY <==> d == d2 && m != ACTIVE)
  {
    PeriodNameInjective(d, d0, m, ACTIVE);
    PeriodNameInjective(d, d0, m, MONEY);
    PeriodNameInjective(d, d1, m, ACTIVE);
    PeriodNameInjective(d, d1, m, MONEY);
    PeriodNameInjective(d, d2, m, ACTIVE);
    PeriodNameInjective(d, d2, m, MONEY);
  }

  /** The sheet of three full periods, whatever their labels: each period
      column holds the value of the last period with its label, and both
      comparisons read those columns. `v0` and `v1` are what the current
      and compare columns are left with. With distinct labels they are `a0`
      and `a1`, as in `ThreePeriodRow`; with shared labels they are the
      values of the compare or extra period that overwrote them. */
  lemma ThreeLabelsRow(base: Frame, fields: seq<string>, p0: Pivots, p1: Pivots, p2: Pivots,
                       d0: string, d1: string, d2: string, m: string, i: int, a0: real, a1: real, a2: real,
                       v0: real, v1: real)
    requires WellFormedPeriod(Present(p0)) && WellFormedPeriod(Present(p1)) && WellFormedPeriod(Present(p2))
    requires Full(p0) && Full(p1) && Full(p2)
    requires Labels([d0, d1, d2]) && IsMetric(m) && 0 <= i < |base.rows|
    requires a0 == Avg(p0, m, base.rows[i], fields) && a1 == Avg(p1, m, base.rows[i], fields)
             && a2 == Avg(p2, m, base.rows[i], fields)
    requires v0 == Surviving(d0, d0, d1, d2, a0, a1, a2) && v1 == Surviving(d1, d0, d1, d2, a0, a1, a2)
    ensures var r := CompareData(base, fields, [Present(p0), Present(p1), Present(p2)], [d0, d1, d2]);
            Get(r.rows[i], d0 + m) == Num(v0) && Get(r.rows[i], d1 + m) == Num(v1) && Get(r.rows[i], d2 + m) == Num(a2)
            && Get(r.rows[i], DiffName(d1, m)) == Num(v0 - v1)
            && Get(r.rows[i], RatioName(d1, m)) == Ratio(Num(v0), Num(v1))
            && Get(r.rows[i], DiffName(d2, m)) == Num(v0 - a2)
            && Get(r.rows[i], RatioName(d2, m)) == Ratio(Num(v0), Num(a2))
  {
    WellFormedThree(Present(p0), Present(p1), Present(p2));
    CompareDataThree(base, fields, p0, p1, p2, d0, d1, d2);
    SheetThreeLabels(base, fields, p0, p1, p2, d0, d1, d2, m, i, a0, a1, a2, v0, v1);
  }

  lemma SheetThreeLabels(base: Frame, fields: seq<string>, p0: Pivots, p1: Pivots, p2: Pivots,
                         d0: string, d1: string, d2: string, m: string, i: int, a0: real, a1: real, a2: real,
                         v0: real, v1: real)
    requires WellFormedPeriod(Present(p0)) && WellFormedPeriod(Present(p1)) && WellFormedPeriod(Present(p2))
    requires Labels([d0, d1, d2]) && IsMetric(m) && 0 <= i < |base.rows|
    requires a0 == Avg(p0, m, base.rows[i], fields) && a1 == Avg(p1, m, base.rows[i], fields)
             && a2 == Avg(p2, m, base.rows[i], fields)
    requires v0 == Surviving(d0, d0, d1, d2, a0, a1, a2) && v1 == Surviving(d1, d0, d1, d2, a0, a1, a2)
    ensures var r := SheetThree(base, fields, p0, p1, p2, d0, d1, d2);
            Get(r.rows[i], d0 + m) == Num(v0) && Get(r.rows[i], d1 + m) == Num(v1) && Get(r.rows[i], d2 + m) == Num(a2)
            && Get(r.rows[i], DiffName(d1, m)) == Num(v0 - v1)
            && Get(r.rows[i], RatioName(d1, m)) == Ratio(Num(v0), Num(v1))
            && Get(r.rows[i], DiffName(d2, m)) == Num(v0 - a2)
            && Get(r.rows[i], RatioName(d2, m)) == Ratio(Num(v0), Num(a2))
  {
    LabelsOf(d0, d1, d2);
    SurvivingColumn(base, fields, p0, p1, p2, d0, d1, d2, d0, m, i, a0, a1, a2);
    SurvivingColumn(base, fields, p0, p1, p2, d0, d1, d2, d1, m, i, a0, a1, a2);
    SurvivingColumn(base, fields, p0, p1, p2, d0, d1, d2, d2, m, i, a0, a1, a2);
    var w := AssignAll(base, ThreeNames(d0, d1, d2), ThreeValues(base.rows, fields, p0, p1, p2));
    ComparedThree(w, d0, d1, d2, m, i, v0, v1, a2);
  }

  /** The extra period shares the current period's label (two single-day
      labels "D日" a month apart): its values replace the current ones, the
      comparison with the compare period reads extra minus compare, and the
      comparison with the extra period reads 0. */
  lemma ExtraSharesCurrentLabel(base: Frame, fields: seq<string>, p0: Pivots, p1: Pivots, p2: Pivots,
                                d: string, d1: string, m: string, i: int, a1: real, a2: real)
    requires WellFormedPeriod(Present(p0)) && WellFormedPeriod(Present(p1)) && WellFormedPeriod(Present(p2))
    requires Full(p0) && Full(p1) && Full(p2)
    requires Labels([d, d1, d]) && d1 != d && IsMetric(m) && 0 <= i < |base.rows|
    requires a1 == Avg(p1, m, base.rows[i], fields) && a2 == Avg(p2, m, base.rows[i], fields)
    ensures var r := CompareData(base, fields, [Present(p0), Present(p1), Present(p2)], [d, d1, d]);
            Get(r.rows[i], d + m) == Num(a2) && Get(r.rows[i], d1 + m) == Num(a1)
            && Get(r.rows[i], DiffName(d1, m)) == Num(a2 - a1)
            && Get(r.rows[i], RatioName(d1, m)) == Ratio(Num(a2), Num(a1))
            && Get(r.rows[i], DiffName(d, m)) == Num(0.0)
            && Get(r.rows[i], RatioName(d, m)) == (if a2 == 0.0 then Null else Num(0.0))
  {
    ThreeLabelsRow(base, fields, p0, p1, p2, d, d1, d, m, i, Avg(p0, m, base.rows[i], fields), a1, a2, a2, a1);
    SelfComparison(a2);
  }

  /** The extra period shares the compare period's label: its values
      replace the compare ones, and both comparisons, written under the
      same names, read current minus extra. */
  lemma ExtraSharesCompareLabel(base: Frame, fields: seq<string>, p0: Pivots, p1: Pivots, p2: Pivots,
                                d0: string, d: string, m: string, i: int, a0: real, a2: real)
    requires WellFormedPeriod(Present(p0)) && WellFormedPeriod(Present(p1)) && WellFormedPeriod(Present(p2))
    requires Full(p0) && Full(p1) && Full(p2)
    requires Labels([d0, d, d]) && d0 != d && IsMetric(m) && 0 <= i < |base.rows|
    requires a0 == Avg(p0, m, base.rows[i], fields) && a2 == Avg(p2, m, base.rows[i], fields)
    ensures var r := CompareData(base, fields, [Present(p0), Present(p1), Present(p2)], [d0, d, d]);
            Get(r.rows[i], d0 + m) == Num(a0) && Get(r.rows[i], d + m) == Num(a2)
            && Get(r.rows[i], DiffName(d, m)) == Num(a0 - a2)
            && Get(r.rows[i], RatioName(d, m)) == Ratio(Num(a0), Num(a2))
  {
    ThreeLabelsRow(base, fields, p0, p1, p2, d0, d, d, m, i, a0, Avg(p1, m, base.rows[i], fields), a2, a0, a2);
  }

  // ------------------------------------------------- keys, ratios, edge cases

  /** The key frame's row `i` reads back as key `i`, so a period column holds
      in row `i` the period's 平均值 for key `i` (0 if the period lacks it). */
  lemma KeyedAverage(p: Pivots, m: string, fields: seq<string>, keys: seq<Key>, i: int)
    requires WellFormedPeriod(Present(p)) && NoDuplicates(fields)
    requires 0 <= i < |keys| && |keys[i]| == |fields|
    ensures var row := KeysFrame(fields, keys).rows[i];
            Avg(p, m, row, fields) == AverageOrZero(Table(p, m), keys[i])
            && (keys[i] in Table(p, m).index ==> Avg(p, m, row, fields) == Table(p, m).average[keys[i]])
            && (keys[i] !in Table(p, m).index ==> Avg(p, m, row, fields) == 0.0)
  {
    KeyOfKeyRow(fields, keys[i]);
  }

  /** A ratio against a compare value of 0 is left empty, whatever the
      current value. */
  lemma RatioOfZero(a: Cell)
    ensures Ratio(a, Num(0.0)) == Null
  {
  }

  /** Away from 0 the ratio is the relative change `a / b - 1`, rounded to
      four places: within half a unit of the fourth place. */
  lemma RatioIsRelativeChange(a: real, b: real)
    requires b != 0.0
    ensures Ratio(Num(a), Num(b)).Num?
    ensures var x := Ratio(Num(a), Num(b)).x;
            -0.5 <= (x - (a / b - 1.0)) * 10000.0 <= 0.5
  {
    RoundError(a / b - 1.0, 4);
    assert Pow10(4) == 10000;
  }

  /** 1000 against 800 is a 25 % rise: the ratio column reads 0.25. */
  lemma RatioExample()
    ensures Ratio(Num(1000.0), Num(800.0)) == Num(0.25)
    ensures Sub(Num(1000.0), Num(800.0)) == Num(200.0)
  {
    assert Pow10(4) == 10000;
    assert 1000.0 / 800.0 - 1.0 == 2500 as real / Pow10(4) as real;
    RoundExact(2500, 4);
  }

  /** Only the current period adds columns. */
  lemma GatherOnlyCurrent(rows: seq<Row>, fields: seq<string>, p0: Pivots, d0: string, d1: string, d2: string)
    requires WellFormedPeriod(Present(p0)) && Full(p0)
    ensures Gather(rows, fields, [Present(p0), Absent, Absent], [d0, d1, d2])
            == Gathered([d0 + ACTIVE, d0 + MONEY], [Column(p0, ACTIVE, rows, fields), Column(p0, MONEY, rows, fields)], [d0])
  {
    GatherOne(rows, fields, p0, d0);
    assert [Present(p0), Absent] == [Present(p0)] + [Absent] && [d0, d1] == [d0] + [d1];
    GatherAbsent(rows, fields, [Present(p0)], [d0], d1);
    assert [Present(p0), Absent, Absent] == [Present(p0), Absent] + [Absent] && [d0, d1, d2] == [d0, d1] + [d2];
    GatherAbsent(rows, fields, [Present(p0), Absent], [d0, d1], d2);
  }

  /** With only the current period there is nothing to compare: the sheet is
      the key frame with the current period's two columns. */
  lemma OnlyCurrent(base: Frame, fields: seq<string>, p0: Pivots, d0: string, d1: string, d2: string)
    requires WellFormedPeriod(Present(p0)) && Full(p0) && Labels([d0, d1, d2])
    ensures CompareData(base, fields, [Present(p0), Absent, Absent], [d0, d1, d2])
            == AssignAll(base, [d0 + ACTIVE, d0 + MONEY],
                         [Column(p0, ACTIVE, base.rows, fields), Column(p0, MONEY, base.rows, fields)])
  {
    var pivots := [Present(p0), Absent, Absent];
    var descs := [d0, d1, d2];
    assert forall k :: 0 <= k < 3 ==> WellFormedPeriod(pivots[k]);
    assert LabelChars(d0) by {
      assert descs[0] == d0;
    }
    GatherOnlyCurrent(base.rows, fields, p0, d0, d1, d2);
    var names := [d0 + ACTIVE, d0 + MONEY];
    var values := [Column(p0, ACTIVE, base.rows, fields), Column(p0, MONEY, base.rows, fields)];
    var g := Gather(base.rows, fields, pivots, descs);
    assert g == Gathered(names, values, [d0]);
    assert PeriodColumns([d0]) == names by {
      assert [d0][..0] == [];
    }
    MetricFilter([d0]);
    assert Suffixed([d0], ACTIVE) == [d0 + ACTIVE] && Suffixed([d0], MONEY) == [d0 + MONEY] by {
      assert [d0][..0] == [];
    }
    var w := AssignAll(base, names, values);
    assert CompareMetric(w, Filter(names, IsActiveColumn), [d0], ACTIVE) == w;
    assert CompareMetric(w, Filter(names, IsMoneyColumn), [d0], MONEY) == w;
  }

  /** Without a comparison the sheet gains exactly the current period's
      two columns and no difference or ratio column. */
  lemma OnlyCurrentColumns(base: Frame, fields: seq<string>, p0: Pivots, d0: string, d1: string, d2: string)
    requires WellFormedPeriod(Present(p0)) && Full(p0) && Labels([d0, d1, d2])
    ensures var r := CompareData(base, fields, [Present(p0), Absent, Absent], [d0, d1, d2]);
            forall c :: c in r.columns <==> c in base.columns || c == d0 + ACTIVE || c == d0 + MONEY
  {
    OnlyCurrent(base, fields, p0, d0, d1, d2);
  }

  /** The two-period sheet when both periods have label `d`. */
  lemma SameLabelSheet(base: Frame, fields: seq<string>, p0: Pivots, p1: Pivots, d: string, m: string, i: int, a1: real)
    requires WellFormedPeriod(Present(p0)) && WellFormedPeriod(Present(p1))
    requires LabelChars(d) && IsMetric(m) && 0 <= i < |base.rows|
    requires a1 == Avg(p1, m, base.rows[i], fields)
    ensures var r := SheetTwo(base, fields, p0, p1, d, d);
            Get(r.rows[i], d + m) == Num(a1)
            && Get(r.rows[i], DiffName(d, m)) == Num(a1 - a1)
            && Get(r.rows[i], RatioName(d, m)) == Ratio(Num(a1), Num(a1))
  {
    var names := TwoNames(d, d);
    var values := TwoValues(base.rows, fields, p0, p1);
    LabelsApart(d, d);
    var j := if m == ACTIVE then 2 else 3;
    assert names[j] == d + m && values[j] == Column(p1, m, base.rows, fields);
    AssignAllGet(base, names, values, j, i);
    var w := AssignAll(base, names, values);
    ComparedTwo(w, d, d, m, i, a1, a1);
  }

  /** A value compared with itself: difference 0, ratio 0, or empty at 0. */
  lemma SelfComparison(a: real)
    ensures Sub(Num(a), Num(a)) == Num(0.0)
    ensures Ratio(Num(a), Num(a)) == if a == 0.0 then Null else Num(0.0)
  {
    if a != 0.0 {
      assert a / a - 1.0 == 0 as real / Pow10(4) as real;
      RoundExact(0, 4);
    }
  }

  /** Two periods with the same date label share their columns: the compare
      period's values overwrite the current ones, and the comparison then
      reads a difference of 0 and a ratio of 0 (empty where the value is 0). */
  lemma SameLabelRow(base: Frame, fields: seq<string>, p0: Pivots, p1: Pivots,
                     d: string, d2: string, m: string, i: int, a1: real)
    requires WellFormedPeriod(Present(p0)) && WellFormedPeriod(Present(p1)) && Full(p0) && Full(p1)
    requires Labels([d, d, d2]) && IsMetric(m) && 0 <= i < |base.rows|
    requires a1 == Avg(p1, m, base.rows[i], fields)
    ensures var r := CompareData(base, fields, [Present(p0), Present(p1), Absent], [d, d, d2]);
            Get(r.rows[i], d + m) == Num(a1)
            && Get(r.rows[i], DiffName(d, m)) == Num(0.0)
            && Get(r.rows[i], RatioName(d, m)) == (if a1 == 0.0 then Null else Num(0.0))
  {
    var descs := [d, d, d2];
    assert LabelChars(d) by {
      assert descs[0] == d;
    }
    CompareDataTwo(base, fields, p0, p1, d, d, d2);
    SameLabelSheet(base, fields, p0, p1, d, m, i, a1);
    SelfComparison(a1);
  }
}
