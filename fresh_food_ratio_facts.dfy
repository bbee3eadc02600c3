/** What one row of the newer fresh-food ratio report holds, stage by stage:
    the merged tables, the roll-up, the salesman, the ratios, and the final
    `fillna(0)`. */
module FreshFoodRatioFacts {
  import opened Cells
  import opened Numbers
  import opened SeqUtil
  import opened BaseExcel
  import opened ColumnOrder
  import opened FreshCommon
  import opened FreshFoodRatio
  import opened Sorting

  /** The columns that the merges add to the pivot. */
  const JOINED: seq<string> := [
    ACTIVE_THIS, ACTIVE_LAST,
    "本月新鲜蔬菜销售额", "上月新鲜蔬菜销售额",
    "本月鲜肉类销售额", "上月鲜肉类销售额",
    "本月豆制品销售额", "上月豆制品销售额"
  ]

  /** The six sales columns among them. */
  const SALES_COLUMNS: seq<string> := [
    "本月新鲜蔬菜销售额", "上月新鲜蔬菜销售额",
    "本月鲜肉类销售额", "上月鲜肉类销售额",
    "本月豆制品销售额", "上月豆制品销售额"
  ]

  lemma JoinedMembers()
    ensures ACTIVE_THIS in JOINED && ACTIVE_LAST in JOINED
    ensures "本月新鲜蔬菜销售额" in JOINED && "上月新鲜蔬菜销售额" in JOINED
    ensures "本月鲜肉类销售额" in JOINED && "上月鲜肉类销售额" in JOINED
    ensures "本月豆制品销售额" in JOINED && "上月豆制品销售额" in JOINED
  {
  }

  /** The merged columns are distinct from the key and from each other. */
  lemma JoinedNames()
    ensures forall c :: c in JOINED <==> c == ACTIVE_THIS || c == ACTIVE_LAST || c in SALES_COLUMNS
    ensures CUSTOMER !in JOINED && SALESMAN !in JOINED
    ensures ACTIVE_THIS !in SALES_COLUMNS && ACTIVE_LAST !in SALES_COLUMNS
  {
  }

  lemma JoinSalesFresh(f: Frame, sales: map<string, SalesPair>)
    requires forall c :: c in FRESH_CATEGORIES ==> c in sales
    ensures JoinSales(f, FRESH_CATEGORIES, sales)
            == JoinCategory(JoinCategory(JoinCategory(f, VEGETABLES, sales), MEAT, sales), BEAN, sales)
  {
    var v := JoinCategory(f, VEGETABLES, sales);
    var m := JoinCategory(v, MEAT, sales);
    var b := JoinCategory(m, BEAN, sales);
    assert FRESH_CATEGORIES[1..] == [MEAT, BEAN];
    assert [MEAT, BEAN][1..] == [BEAN];
    assert [BEAN][1..] == [];
    assert JoinSales(f, FRESH_CATEGORIES, sales) == JoinSales(v, [MEAT, BEAN], sales);
    assert JoinSales(v, [MEAT, BEAN], sales) == JoinSales(m, [BEAN], sales);
    assert JoinSales(m, [BEAN], sales) == JoinSales(b, [], sales);
  }

  /** One left merge on one row: the new column holds the table's value for
      the row's customer, missing where the table lacks it. */
  lemma MergeRow(f: Frame, t: Named, i: int)
    requires 0 <= i < |f.rows|
    ensures |Merge(f, t).rows| == |f.rows|
    ensures Get(Merge(f, t).rows[i], t.name) == Lookup(t.values, CustomerOf(f.rows[i]))
    ensures forall c :: c != t.name ==> Get(Merge(f, t).rows[i], c) == Get(f.rows[i], c)
  {
  }

  lemma MergeColumns(f: Frame, t: Named)
    ensures forall c :: c in Merge(f, t).columns <==> c in f.columns || c == t.name
  {
  }

  /** The names the merged tables carry. */
  predicate NamedAsReported(now: Named, before: Named, s: map<string, SalesPair>) {
    && (forall c :: c in FRESH_CATEGORIES ==> c in s)
    && now.name == ACTIVE_THIS && before.name == ACTIVE_LAST
    && s[VEGETABLES].current.name == "本月新鲜蔬菜销售额" && s[VEGETABLES].previous.name == "上月新鲜蔬菜销售额"
    && s[MEAT].current.name == "本月鲜肉类销售额" && s[MEAT].previous.name == "上月鲜肉类销售额"
    && s[BEAN].current.name == "本月豆制品销售额" && s[BEAN].previous.name == "上月豆制品销售额"
  }

  /** The merges of one category on one row. */
  lemma CategoryRow(f: Frame, category: string, s: map<string, SalesPair>, i: int)
    requires 0 <= i < |f.rows| && category in s
    requires s[category].current.name != s[category].previous.name
    requires s[category].current.name != CUSTOMER
    ensures |JoinCategory(f, category, s).rows| == |f.rows|
    ensures Get(JoinCategory(f, category, s).rows[i], s[category].current.name) == Lookup(s[category].current.values, CustomerOf(f.rows[i]))
    ensures Get(JoinCategory(f, category, s).rows[i], s[category].previous.name) == Lookup(s[category].previous.values, CustomerOf(f.rows[i]))
    ensures forall c :: c != s[category].current.name && c != s[category].previous.name ==>
              Get(JoinCategory(f, category, s).rows[i], c) == Get(f.rows[i], c)
  {
    MergeRow(f, s[category].current, i);
    MergeRow(Merge(f, s[category].current), s[category].previous, i);
  }

  lemma CategoryColumns(f: Frame, category: string, s: map<string, SalesPair>)
    requires category in s
    ensures forall c :: c in JoinCategory(f, category, s).columns <==>
              c in f.columns || c == s[category].current.name || c == s[category].previous.name
  {
    MergeColumns(f, s[category].current);
    MergeColumns(Merge(f, s[category].current), s[category].previous);
  }

  /** The two daily-active merges on row `i`. */
  lemma ActiveRow(p: Frame, now: Named, before: Named, s: map<string, SalesPair>, i: int)
    requires 0 <= i < |p.rows| && NamedAsReported(now, before, s)
    ensures var a := Merge(Merge(p, now), before);
      && |a.rows| == |p.rows|
      && Get(a.rows[i], ACTIVE_THIS) == Lookup(now.values, CustomerOf(p.rows[i]))
      && Get(a.rows[i], ACTIVE_LAST) == Lookup(before.values, CustomerOf(p.rows[i]))
      && CustomerOf(a.rows[i]) == CustomerOf(p.rows[i])
      && (forall c :: c != ACTIVE_THIS && c != ACTIVE_LAST ==> Get(a.rows[i], c) == Get(p.rows[i], c))
  {
    MergeRow(p, now, i);
    MergeRow(Merge(p, now), before, i);
  }

  /** The six sales columns differ from each other and from the key. */
  lemma SalesColumnsDistinct()
    ensures NoDuplicates(SALES_COLUMNS) && CUSTOMER !in SALES_COLUMNS
  {
  }

  /** The names of the six tables of three categories. */
  function SalesNamesOf(s: map<string, SalesPair>, c1: string, c2: string, c3: string): seq<string>
    requires c1 in s && c2 in s && c3 in s
  {
    [s[c1].current.name, s[c1].previous.name, s[c2].current.name, s[c2].previous.name, s[c3].current.name, s[c3].previous.name]
  }

  /** The merges of three categories on row `i`, for any six distinct names. */
  lemma ThreeCategoriesRow(a: Frame, s: map<string, SalesPair>, i: int, c1: string, c2: string, c3: string)
    requires 0 <= i < |a.rows| && c1 in s && c2 in s && c3 in s
    requires NoDuplicates(SalesNamesOf(s, c1, c2, c3)) && CUSTOMER !in SalesNamesOf(s, c1, c2, c3)
    ensures var j := JoinCategory(JoinCategory(JoinCategory(a, c1, s), c2, s), c3, s).rows; var k := CustomerOf(a.rows[i]);
      && |j| == |a.rows|
      && Get(j[i], s[c1].current.name) == Lookup(s[c1].current.values, k)
      && Get(j[i], s[c1].previous.name) == Lookup(s[c1].previous.values, k)
      && Get(j[i], s[c2].current.name) == Lookup(s[c2].current.values, k)
      && Get(j[i], s[c2].previous.name) == Lookup(s[c2].previous.values, k)
      && Get(j[i], s[c3].current.name) == Lookup(s[c3].current.values, k)
      && Get(j[i], s[c3].previous.name) == Lookup(s[c3].previous.values, k)
      && (forall c :: c !in SalesNamesOf(s, c1, c2, c3) ==> Get(j[i], c) == Get(a.rows[i], c))
  {
    var names := SalesNamesOf(s, c1, c2, c3);
    assert names[0] != names[1] && names[2] != names[3] && names[4] != names[5];
    assert names[0] != names[2] && names[0] != names[3] && names[1] != names[2] && names[1] != names[3];
    assert names[0] != names[4] && names[0] != names[5] && names[1] != names[4] && names[1] != names[5];
    assert names[2] != names[4] && names[2] != names[5] && names[3] != names[4] && names[3] != names[5];
    var v := JoinCategory(a, c1, s);
    var m := JoinCategory(v, c2, s);
    CategoryRow(a, c1, s, i);
    CategoryRow(v, c2, s, i);
    CategoryRow(m, c3, s, i);
  }

  /** The six sales merges on row `i`. */
  lemma SalesRow(a: Frame, s: map<string, SalesPair>, i: int)
    requires 0 <= i < |a.rows| && forall c :: c in FRESH_CATEGORIES ==> c in s
    requires s[VEGETABLES].current.name == "本月新鲜蔬菜销售额" && s[VEGETABLES].previous.name == "上月新鲜蔬菜销售额"
    requires s[MEAT].current.name == "本月鲜肉类销售额" && s[MEAT].previous.name == "上月鲜肉类销售额"
    requires s[BEAN].current.name == "本月豆制品销售额" && s[BEAN].previous.name == "上月豆制品销售额"
    ensures var j := JoinSales(a, FRESH_CATEGORIES, s);
      && |j.rows| == |a.rows|
      && Get(j.rows[i], "本月新鲜蔬菜销售额") == Lookup(s[VEGETABLES].current.values, CustomerOf(a.rows[i]))
      && Get(j.rows[i], "上月新鲜蔬菜销售额") == Lookup(s[VEGETABLES].previous.values, CustomerOf(a.rows[i]))
      && Get(j.rows[i], "本月鲜肉类销售额") == Lookup(s[MEAT].current.values, CustomerOf(a.rows[i]))
      && Get(j.rows[i], "上月鲜肉类销售额") == Lookup(s[MEAT].previous.values, CustomerOf(a.rows[i]))
      && Get(j.rows[i], "本月豆制品销售额") == Lookup(s[BEAN].current.values, CustomerOf(a.rows[i]))
      && Get(j.rows[i], "上月豆制品销售额") == Lookup(s[BEAN].previous.values, CustomerOf(a.rows[i]))
      && (forall c :: c !in SALES_COLUMNS ==> Get(j.rows[i], c) == Get(a.rows[i], c))
  {
    JoinSalesFresh(a, s);
    SalesColumnsDistinct();
    assert SalesNamesOf(s, VEGETABLES, MEAT, BEAN) == SALES_COLUMNS;
    ThreeCategoriesRow(a, s, i, VEGETABLES, MEAT, BEAN);
  }

  lemma SalesColumns(a: Frame, s: map<string, SalesPair>)
    requires forall c :: c in FRESH_CATEGORIES ==> c in s
    requires s[VEGETABLES].current.name == "本月新鲜蔬菜销售额" && s[VEGETABLES].previous.name == "上月新鲜蔬菜销售额"
    requires s[MEAT].current.name == "本月鲜肉类销售额" && s[MEAT].previous.name == "上月鲜肉类销售额"
    requires s[BEAN].current.name == "本月豆制品销售额" && s[BEAN].previous.name == "上月豆制品销售额"
    ensures forall c :: c in JoinSales(a, FRESH_CATEGORIES, s).columns <==> c in a.columns || c in SALES_COLUMNS
  {
    var v := JoinCategory(a, VEGETABLES, s);
    var m := JoinCategory(v, MEAT, s);
    JoinSalesFresh(a, s);
    CategoryColumns(a, VEGETABLES, s);
    CategoryColumns(v, MEAT, s);
    CategoryColumns(m, BEAN, s);
  }

  /** The sales data carries the report's column names. */
  lemma SalesDataNames(merged: seq<Row>)
    ensures NamedAsReported(CalculateDailyActive(merged).1, CalculateDailyActive(merged).0, SalesData(merged, FRESH_CATEGORIES))
  {
    SalesNames();
    SalesDataAt(merged, FRESH_CATEGORIES, VEGETABLES);
    SalesDataAt(merged, FRESH_CATEGORIES, MEAT);
    SalesDataAt(merged, FRESH_CATEGORIES, BEAN);
  }

  /** The eight merges on row `i` of a frame `p`. */
  lemma MergedRow(p: Frame, now: Named, before: Named, s: map<string, SalesPair>, i: int)
    requires 0 <= i < |p.rows| && NamedAsReported(now, before, s)
    ensures var j := JoinSales(Merge(Merge(p, now), before), FRESH_CATEGORIES, s).rows; var k := CustomerOf(p.rows[i]);
      && |j| == |p.rows|
      && CustomerOf(j[i]) == k
      && Get(j[i], ACTIVE_THIS) == Lookup(now.values, k)
      && Get(j[i], ACTIVE_LAST) == Lookup(before.values, k)
      && Get(j[i], "本月新鲜蔬菜销售额") == Lookup(s[VEGETABLES].current.values, k)
      && Get(j[i], "上月新鲜蔬菜销售额") == Lookup(s[VEGETABLES].previous.values, k)
      && Get(j[i], "本月鲜肉类销售额") == Lookup(s[MEAT].current.values, k)
      && Get(j[i], "上月鲜肉类销售额") == Lookup(s[MEAT].previous.values, k)
      && Get(j[i], "本月豆制品销售额") == Lookup(s[BEAN].current.values, k)
      && Get(j[i], "上月豆制品销售额") == Lookup(s[BEAN].previous.values, k)
      && (forall c :: c !in JOINED ==> Get(j[i], c) == Get(p.rows[i], c))
  {
    JoinedNames();
    ActiveRow(p, now, before, s, i);
    SalesRow(Merge(Merge(p, now), before), s, i);
  }

  /** The entry of one category in `sales_data`. */
  lemma SalesDataAt(merged: seq<Row>, categories: seq<string>, c: string)
    requires c in categories
    ensures c in SalesData(merged, categories)
    ensures SalesData(merged, categories)[c].current == Named(SalesName(THIS, c), SalesTable(merged, c, THIS))
    ensures SalesData(merged, categories)[c].previous == Named(SalesName(LAST, c), SalesTable(merged, c, LAST))
  {
  }

  /** After the merges, row `i` is the pivot row of the `i`-th customer with
      its daily-active and sales values looked up, missing where a table
      lacks the customer. */
  lemma JoinedRow(merged: seq<Row>, i: int)
    requires 0 <= i < |PivotCustomers(merged)|
    ensures var j := Joined(merged).rows; var k := PivotCustomers(merged)[i];
      && |j| == |PivotCustomers(merged)|
      && CustomerOf(j[i]) == k
      && Get(j[i], ACTIVE_THIS) == Lookup(ActiveTable(merged, THIS), k)
      && Get(j[i], ACTIVE_LAST) == Lookup(ActiveTable(merged, LAST), k)
      && Get(j[i], "本月新鲜蔬菜销售额") == Lookup(SalesTable(merged, VEGETABLES, THIS), k)
      && Get(j[i], "上月新鲜蔬菜销售额") == Lookup(SalesTable(merged, VEGETABLES, LAST), k)
      && Get(j[i], "本月鲜肉类销售额") == Lookup(SalesTable(merged, MEAT, THIS), k)
      && Get(j[i], "上月鲜肉类销售额") == Lookup(SalesTable(merged, MEAT, LAST), k)
      && Get(j[i], "本月豆制品销售额") == Lookup(SalesTable(merged, BEAN, THIS), k)
      && Get(j[i], "上月豆制品销售额") == Lookup(SalesTable(merged, BEAN, LAST), k)
      && (forall c :: c !in JOINED ==> Get(j[i], c) == Get(PivotTable(merged).rows[i], c))
  {
    var p := PivotTable(merged);
    var active := CalculateDailyActive(merged);
    var s := SalesData(merged, FRESH_CATEGORIES);
    SalesDataNames(merged);
    SalesDataAt(merged, FRESH_CATEGORIES, VEGETABLES);
    SalesDataAt(merged, FRESH_CATEGORIES, MEAT);
    SalesDataAt(merged, FRESH_CATEGORIES, BEAN);
    assert Joined(merged) == JoinSales(Merge(Merge(p, active.1), active.0), FRESH_CATEGORIES, s);
    assert CustomerOf(p.rows[i]) == PivotCustomers(merged)[i];
    MergedRow(p, active.1, active.0, s, i);
  }

  lemma JoinedColumns(merged: seq<Row>)
    ensures forall c :: c in Joined(merged).columns <==> c in PivotTable(merged).columns || c in JOINED
  {
    var p := PivotTable(merged);
    var active := CalculateDailyActive(merged);
    var s := SalesData(merged, FRESH_CATEGORIES);
    SalesDataNames(merged);
    MergeColumns(p, active.1);
    MergeColumns(Merge(p, active.1), active.0);
    SalesColumns(Merge(Merge(p, active.1), active.0), s);
  }

  /** `WithTotals` on one row: the roll-ups are the sums of the three
      category columns and nothing else changes. */
  lemma TotalsRow(f: Frame, i: int)
    requires 0 <= i < |f.rows|
    ensures |WithTotals(f).rows| == |f.rows|
    ensures Get(WithTotals(f).rows[i], FRESH_THIS)
            == Add3(Get(f.rows[i], "本月新鲜蔬菜销售额"), Get(f.rows[i], "本月鲜肉类销售额"), Get(f.rows[i], "本月豆制品销售额"))
    ensures Get(WithTotals(f).rows[i], FRESH_LAST)
            == Add3(Get(f.rows[i], "上月新鲜蔬菜销售额"), Get(f.rows[i], "上月鲜肉类销售额"), Get(f.rows[i], "上月豆制品销售额"))
    ensures forall c :: c != FRESH_THIS && c != FRESH_LAST ==> Get(WithTotals(f).rows[i], c) == Get(f.rows[i], c)
  {
  }

  lemma SalesmanRow(f: Frame, merged: seq<Row>, i: int)
    requires 0 <= i < |f.rows|
    ensures |WithSalesman(f, merged).rows| == |f.rows|
    ensures Get(WithSalesman(f, merged).rows[i], SALESMAN) == LatestSalesman(merged, CustomerOf(f.rows[i]))
    ensures forall c :: c != SALESMAN ==> Get(WithSalesman(f, merged).rows[i], c) == Get(f.rows[i], c)
  {
  }

  /** `WithRatios` on one row: each ratio column is `calculate_ratio` of its
      two columns and nothing else changes. */
  lemma RatiosRow(f: Frame, i: int)
    requires 0 <= i < |f.rows|
    ensures |WithRatios(f).rows| == |f.rows|
    ensures Get(WithRatios(f).rows[i], ACTIVE_RATIO) == RatioCell(Get(f.rows[i], ACTIVE_THIS), Get(f.rows[i], ACTIVE_LAST))
    ensures Get(WithRatios(f).rows[i], VEGETABLES_RATIO) == RatioCell(Get(f.rows[i], "本月新鲜蔬菜销售额"), Get(f.rows[i], "上月新鲜蔬菜销售额"))
    ensures Get(WithRatios(f).rows[i], MEAT_RATIO) == RatioCell(Get(f.rows[i], "本月鲜肉类销售额"), Get(f.rows[i], "上月鲜肉类销售额"))
    ensures Get(WithRatios(f).rows[i], BEAN_RATIO) == RatioCell(Get(f.rows[i], "本月豆制品销售额"), Get(f.rows[i], "上月豆制品销售额"))
    ensures Get(WithRatios(f).rows[i], FRESH_RATIO) == RatioCell(Get(f.rows[i], FRESH_THIS), Get(f.rows[i], FRESH_LAST))
    ensures forall c :: c !in RATIOS ==> Get(WithRatios(f).rows[i], c) == Get(f.rows[i], c)
  {
  }

  /** The columns that the roll-up, the salesman and the ratios write are
      distinct from each other and from the key. */
  lemma DerivedNames()
    ensures SALESMAN !in RATIOS && FRESH_THIS !in RATIOS && FRESH_LAST !in RATIOS
    ensures SALESMAN != FRESH_THIS && SALESMAN != FRESH_LAST && FRESH_THIS != FRESH_LAST
    ensures CUSTOMER != SALESMAN && CUSTOMER != FRESH_THIS && CUSTOMER != FRESH_LAST
  {
  }

  /** The columns that `WithTotals`, `WithSalesman` and `WithRatios` write. */
  predicate Derived(c: string) {
    c in RATIOS || c == FRESH_THIS || c == FRESH_LAST || c == SALESMAN
  }

  /** No merged column is written again later. */
  lemma JoinedNotDerived()
    ensures !Derived(ACTIVE_THIS) && !Derived(ACTIVE_LAST)
    ensures !Derived("本月新鲜蔬菜销售额") && !Derived("上月新鲜蔬菜销售额")
    ensures !Derived("本月鲜肉类销售额") && !Derived("上月鲜肉类销售额")
    ensures !Derived("本月豆制品销售额") && !Derived("上月豆制品销售额")
    ensures !Derived(CUSTOMER)
  {
  }

  /** Row `i` before `fillna`, in terms of the merged row: the roll-ups add
      up the category cells, the salesman is looked up by customer, and no
      other column changes. */
  lemma AssembledRowOf(f: Frame, merged: seq<Row>, i: int)
    requires 0 <= i < |f.rows|
    ensures var a := WithRatios(WithSalesman(WithTotals(f), merged)).rows; var r := f.rows[i];
      && |a| == |f.rows|
      && Get(a[i], SALESMAN) == LatestSalesman(merged, CustomerOf(r))
      && Get(a[i], FRESH_THIS) == Add3(Get(r, "本月新鲜蔬菜销售额"), Get(r, "本月鲜肉类销售额"), Get(r, "本月豆制品销售额"))
      && Get(a[i], FRESH_LAST) == Add3(Get(r, "上月新鲜蔬菜销售额"), Get(r, "上月鲜肉类销售额"), Get(r, "上月豆制品销售额"))
      && (forall c :: !Derived(c) ==> Get(a[i], c) == Get(r, c))
  {
    JoinedNotDerived();
    DerivedNames();
    var t := WithTotals(f);
    var w := WithSalesman(t, merged);
    TotalsRow(f, i);
    SalesmanRow(t, merged, i);
    RatiosRow(w, i);
  }

  /** The ratios of row `i`: each is `calculate_ratio` of its two cells. */
  lemma AssembledRatiosOf(f: Frame, merged: seq<Row>, i: int)
    requires 0 <= i < |f.rows|
    ensures var a := WithRatios(WithSalesman(WithTotals(f), merged)).rows; var r := f.rows[i];
      && |a| == |f.rows|
      && Get(a[i], ACTIVE_RATIO) == RatioCell(Get(r, ACTIVE_THIS), Get(r, ACTIVE_LAST))
      && Get(a[i], VEGETABLES_RATIO) == RatioCell(Get(r, "本月新鲜蔬菜销售额"), Get(r, "上月新鲜蔬菜销售额"))
      && Get(a[i], MEAT_RATIO) == RatioCell(Get(r, "本月鲜肉类销售额"), Get(r, "上月鲜肉类销售额"))
      && Get(a[i], BEAN_RATIO) == RatioCell(Get(r, "本月豆制品销售额"), Get(r, "上月豆制品销售额"))
  {
    JoinedNotDerived();
    DerivedNames();
    var t := WithTotals(f);
    var w := WithSalesman(t, merged);
    TotalsRow(f, i);
    SalesmanRow(t, merged, i);
    RatiosRow(w, i);
  }

  lemma AssembledFreshRatioOf(f: Frame, merged: seq<Row>, i: int)
    requires 0 <= i < |f.rows|
    ensures var a := WithRatios(WithSalesman(WithTotals(f), merged)).rows; var r := f.rows[i];
      && |a| == |f.rows|
      && Get(a[i], FRESH_RATIO) == RatioCell(Add3(Get(r, "本月新鲜蔬菜销售额"), Get(r, "本月鲜肉类销售额"), Get(r, "本月豆制品销售额")),
                                             Add3(Get(r, "上月新鲜蔬菜销售额"), Get(r, "上月鲜肉类销售额"), Get(r, "上月豆制品销售额")))
  {
    JoinedNotDerived();
    DerivedNames();
    var t := WithTotals(f);
    var w := WithSalesman(t, merged);
    TotalsRow(f, i);
    SalesmanRow(t, merged, i);
    RatiosRow(w, i);
  }

  lemma AssembledColumnsOf(f: Frame, merged: seq<Row>)
    ensures forall c :: c in WithRatios(WithSalesman(WithTotals(f), merged)).columns <==> c in f.columns || Derived(c)
  {
  }

  // ------------------------------------------------------- the final table

  /** Customer `k` has a row of `category` in the merged data. */
  predicate Buys(rows: seq<Row>, k: Cell, category: string) {
    CustomerCategoryRows(rows, k, category) != []
  }

  /** The fresh roll-up of the final table: the sum of the three category
      amounts, but 0 as soon as the customer has no row of one of them (the
      missing merge value makes the sum missing before `fillna(0)`). */
  function FreshTotal(rows: seq<Row>, k: Cell, month: string): real {
    if Buys(rows, k, VEGETABLES) && Buys(rows, k, MEAT) && Buys(rows, k, BEAN)
    then CategoryAmount(rows, k, VEGETABLES, month) + CategoryAmount(rows, k, MEAT, month) + CategoryAmount(rows, k, BEAN, month)
    else 0.0
  }

  /** Every pivot customer has a daily-active value in both months. */
  lemma ActiveCell(merged: seq<Row>, k: Cell, month: string)
    requires k in PivotCustomers(merged)
    ensures Lookup(ActiveTable(merged, month), k) == Num(ActiveCount(merged, k, month) as real)
  {
  }

  /** A sales cell is missing exactly when the customer has no row of the
      category, and `fillna(0)` then gives the amount, which is 0. */
  lemma SalesCell(merged: seq<Row>, k: Cell, category: string, month: string)
    requires k != Null
    ensures Lookup(SalesTable(merged, category, month), k).Num? <==> Buys(merged, k, category)
    ensures Lookup(SalesTable(merged, category, month), k) == Null <==> !Buys(merged, k, category)
    ensures FillCell(Lookup(SalesTable(merged, category, month), k)) == Num(CategoryAmount(merged, k, category, month))
  {
    var own := CustomerCategoryRows(merged, k, category);
    if own != [] {
      assert own[0] in own;
    } else {
      CategoryAmountAbsent(merged, k, category, month);
    }
  }

  /** When the two cells of a ratio are both present or both missing, filling
      after the ratio equals the ratio of the filled cells. */
  lemma FilledRatio(current: Cell, last: Cell)
    requires current.Num? || current == Null
    requires last.Num? || last == Null
    requires current == Null <==> last == Null
    ensures FillCell(RatioCell(current, last)) == Num(CalculateRatio(FillCell(current).x, FillCell(last).x))
  {
  }

  /** The columns of the table before `fillna`. */
  lemma AssembledColumns(merged: seq<Row>)
    ensures forall c :: c in Assembled(merged).columns <==>
              c == CUSTOMER || c in Categories(merged) || c in FRESH_CATEGORIES || c in JOINED || Derived(c)
  {
    JoinedColumns(merged);
    AssembledColumnsOf(Joined(merged), merged);
  }

  /** Row `i` of the table before `fillna`, in terms of the merged row. */
  lemma AssembledRow(merged: seq<Row>, i: int)
    requires 0 <= i < |PivotCustomers(merged)|
    ensures |Assembled(merged).rows| == |PivotCustomers(merged)|
    ensures var a := Assembled(merged).rows[i]; var j := Joined(merged).rows[i];
      && Get(a, SALESMAN) == LatestSalesman(merged, PivotCustomers(merged)[i])
      && Get(a, FRESH_THIS) == Add3(Get(j, "本月新鲜蔬菜销售额"), Get(j, "本月鲜肉类销售额"), Get(j, "本月豆制品销售额"))
      && Get(a, FRESH_LAST) == Add3(Get(j, "上月新鲜蔬菜销售额"), Get(j, "上月鲜肉类销售额"), Get(j, "上月豆制品销售额"))
      && Get(a, ACTIVE_RATIO) == RatioCell(Get(j, ACTIVE_THIS), Get(j, ACTIVE_LAST))
      && Get(a, VEGETABLES_RATIO) == RatioCell(Get(j, "本月新鲜蔬菜销售额"), Get(j, "上月新鲜蔬菜销售额"))
      && Get(a, MEAT_RATIO) == RatioCell(Get(j, "本月鲜肉类销售额"), Get(j, "上月鲜肉类销售额"))
      && Get(a, BEAN_RATIO) == RatioCell(Get(j, "本月豆制品销售额"), Get(j, "上月豆制品销售额"))
      && Get(a, FRESH_RATIO) == RatioCell(Get(a, FRESH_THIS), Get(a, FRESH_LAST))
      && (forall c :: !Derived(c) ==> Get(a, c) == Get(j, c))
  {
    JoinedRow(merged, i);
    AssembledRowOf(Joined(merged), merged, i);
    AssembledRatiosOf(Joined(merged), merged, i);
    AssembledFreshRatioOf(Joined(merged), merged, i);
  }

  /** `fillna(0)` and the reordering: a cell of the final table is the
      filled cell of the same column before. */
  lemma FinalCell(merged: seq<Row>, i: int, c: string)
    requires 0 <= i < |Assembled(merged).rows| && c in Assembled(merged).columns
    ensures |CustomerDiffTable(merged).rows| == |Assembled(merged).rows|
    ensures Get(CustomerDiffTable(merged).rows[i], c) == FillCell(Get(Assembled(merged).rows[i], c))
  {
  }

  /** Row `i` of the report belongs to the `i`-th pivot customer, and its 业务员
      is the salesman of that customer's latest row (0 where that cell is
      missing). */
  lemma ReportKey(merged: seq<Row>, i: int)
    requires 0 <= i < |PivotCustomers(merged)|
    ensures |CustomerDiffTable(merged).rows| == |PivotCustomers(merged)|
    ensures Get(CustomerDiffTable(merged).rows[i], CUSTOMER) == PivotCustomers(merged)[i]
    ensures Get(CustomerDiffTable(merged).rows[i], SALESMAN) == FillCell(LatestSalesman(merged, PivotCustomers(merged)[i]))
  {
    AssembledColumns(merged);
    JoinedRow(merged, i);
    AssembledRow(merged, i);
    JoinedNotDerived();
    JoinedNames();
    FinalCell(merged, i, CUSTOMER);
    FinalCell(merged, i, SALESMAN);
  }

  /** The daily-active columns: the number of distinct shipment times of the
      customer in each month, and their ratio. */
  lemma ReportActive(merged: seq<Row>, i: int)
    requires 0 <= i < |PivotCustomers(merged)|
    ensures |CustomerDiffTable(merged).rows| == |PivotCustomers(merged)|
    ensures var r := CustomerDiffTable(merged).rows[i]; var k := PivotCustomers(merged)[i];
      && Get(r, ACTIVE_THIS) == Num(ActiveCount(merged, k, THIS) as real)
      && Get(r, ACTIVE_LAST) == Num(ActiveCount(merged, k, LAST) as real)
      && Get(r, ACTIVE_RATIO) == Num(CalculateRatio(ActiveCount(merged, k, THIS) as real, ActiveCount(merged, k, LAST) as real))
  {
    var k := PivotCustomers(merged)[i];
    AssembledColumns(merged);
    JoinedRow(merged, i);
    AssembledRow(merged, i);
    JoinedNotDerived();
    JoinedMembers();
    ActiveCell(merged, k, THIS);
    ActiveCell(merged, k, LAST);
    FinalCell(merged, i, ACTIVE_THIS);
    FinalCell(merged, i, ACTIVE_LAST);
    FinalCell(merged, i, ACTIVE_RATIO);
    FilledRatio(Num(ActiveCount(merged, k, THIS) as real), Num(ActiveCount(merged, k, LAST) as real));
  }

  /** The 新鲜蔬菜 (fresh vegetables) columns: the customer's amount in each month (0 without a
      row of the category) and their ratio. */
  lemma ReportVegetables(merged: seq<Row>, i: int)
    requires 0 <= i < |PivotCustomers(merged)|
    ensures |CustomerDiffTable(merged).rows| == |PivotCustomers(merged)|
    ensures var r := CustomerDiffTable(merged).rows[i]; var k := PivotCustomers(merged)[i];
      && Get(r, "本月新鲜蔬菜销售额") == Num(CategoryAmount(merged, k, VEGETABLES, THIS))
      && Get(r, "上月新鲜蔬菜销售额") == Num(CategoryAmount(merged, k, VEGETABLES, LAST))
      && Get(r, VEGETABLES_RATIO) == Num(CalculateRatio(CategoryAmount(merged, k, VEGETABLES, THIS), CategoryAmount(merged, k, VEGETABLES, LAST)))
  {
    var k := PivotCustomers(merged)[i];
    AssembledColumns(merged);
    JoinedRow(merged, i);
    var j := Joined(merged).rows[i];
    AssembledRow(merged, i);
    JoinedNotDerived();
    JoinedMembers();
    SalesCell(merged, k, VEGETABLES, THIS);
    SalesCell(merged, k, VEGETABLES, LAST);
    FinalCell(merged, i, "本月新鲜蔬菜销售额");
    FinalCell(merged, i, "上月新鲜蔬菜销售额");
    FinalCell(merged, i, VEGETABLES_RATIO);
    FilledRatio(Get(j, "本月新鲜蔬菜销售额"), Get(j, "上月新鲜蔬菜销售额"));
  }

  /** The 鲜肉类 (fresh meat) columns: the customer's amount in each month (0 without a
      row of the category) and their ratio. */
  lemma ReportMeat(merged: seq<Row>, i: int)
    requires 0 <= i < |PivotCustomers(merged)|
    ensures |CustomerDiffTable(merged).rows| == |PivotCustomers(merged)|
    ensures var r := CustomerDiffTable(merged).rows[i]; var k := PivotCustomers(merged)[i];
      && Get(r, "本月鲜肉类销售额") == Num(CategoryAmount(merged, k, MEAT, THIS))
      && Get(r, "上月鲜肉类销售额") == Num(CategoryAmount(merged, k, MEAT, LAST))
      && Get(r, MEAT_RATIO) == Num(CalculateRatio(CategoryAmount(merged, k, MEAT, THIS), CategoryAmount(merged, k, MEAT, LAST)))
  {
    var k := PivotCustomers(merged)[i];
    AssembledColumns(merged);
    JoinedRow(merged, i);
    var j := Joined(merged).rows[i];
    AssembledRow(merged, i);
    JoinedNotDerived();
    JoinedMembers();
    SalesCell(merged, k, MEAT, THIS);
    SalesCell(merged, k, MEAT, LAST);
    FinalCell(merged, i, "本月鲜肉类销售额");
    FinalCell(merged, i, "上月鲜肉类销售额");
    FinalCell(merged, i, MEAT_RATIO);
    FilledRatio(Get(j, "本月鲜肉类销售额"), Get(j, "上月鲜肉类销售额"));
  }

  /** The 豆制品 (bean products) columns: the customer's amount in each month (0 without a
      row of the category) and their ratio. */
  lemma ReportBean(merged: seq<Row>, i: int)
    requires 0 <= i < |PivotCustomers(merged)|
    ensures |CustomerDiffTable(merged).rows| == |PivotCustomers(merged)|
    ensures var r := CustomerDiffTable(merged).rows[i]; var k := PivotCustomers(merged)[i];
      && Get(r, "本月豆制品销售额") == Num(CategoryAmount(merged, k, BEAN, THIS))
      && Get(r, "上月豆制品销售额") == Num(CategoryAmount(merged, k, BEAN, LAST))
      && Get(r, BEAN_RATIO) == Num(CalculateRatio(CategoryAmount(merged, k, BEAN, THIS), CategoryAmount(merged, k, BEAN, LAST)))
  {
    var k := PivotCustomers(merged)[i];
    AssembledColumns(merged);
    JoinedRow(merged, i);
    var j := Joined(merged).rows[i];
    AssembledRow(merged, i);
    JoinedNotDerived();
    JoinedMembers();
    SalesCell(merged, k, BEAN, THIS);
    SalesCell(merged, k, BEAN, LAST);
    FinalCell(merged, i, "本月豆制品销售额");
    FinalCell(merged, i, "上月豆制品销售额");
    FinalCell(merged, i, BEAN_RATIO);
    FilledRatio(Get(j, "本月豆制品销售额"), Get(j, "上月豆制品销售额"));
  }

  /** `a + b + c` of three cells that are each either a known amount or
      missing: missing if one is, and `fillna(0)` then gives 0. */
  lemma Add3Filled(a: Cell, b: Cell, c: Cell, x: real, y: real, z: real, pa: bool, pb: bool, pc: bool)
    requires a == (if pa then Num(x) else Null)
    requires b == (if pb then Num(y) else Null)
    requires c == (if pc then Num(z) else Null)
    ensures Add3(a, b, c) == Null <==> !(pa && pb && pc)
    ensures pa && pb && pc ==> Add3(a, b, c) == Num(x + y + z)
    ensures FillCell(Add3(a, b, c)) == Num(if pa && pb && pc then x + y + z else 0.0)
  {
  }

  /** The roll-up `a + b + c` of one month's three looked-up sales cells:
      missing unless the customer has rows of all three fresh categories,
      and otherwise the sum of the three amounts. */
  lemma FreshSum(merged: seq<Row>, k: Cell, month: string, t: Cell)
    requires k != Null
    requires t == Add3(Lookup(SalesTable(merged, VEGETABLES, month), k), Lookup(SalesTable(merged, MEAT, month), k),
                       Lookup(SalesTable(merged, BEAN, month), k))
    ensures t == Null <==> !BuysFresh(merged, k)
    ensures BuysFresh(merged, k) ==> t == Num(FreshSumOf(merged, k, month))
  {
    SalesLookup(merged, k, VEGETABLES, month);
    SalesLookup(merged, k, MEAT, month);
    SalesLookup(merged, k, BEAN, month);
    FreshCellsOf(merged, k, month, Lookup(SalesTable(merged, VEGETABLES, month), k), Lookup(SalesTable(merged, MEAT, month), k),
                 Lookup(SalesTable(merged, BEAN, month), k));
  }

  lemma FreshCellsOf(merged: seq<Row>, k: Cell, month: string, a: Cell, b: Cell, c: Cell)
    requires a == (if Buys(merged, k, VEGETABLES) then Num(CategoryAmount(merged, k, VEGETABLES, month)) else Null)
    requires b == (if Buys(merged, k, MEAT) then Num(CategoryAmount(merged, k, MEAT, month)) else Null)
    requires c == (if Buys(merged, k, BEAN) then Num(CategoryAmount(merged, k, BEAN, month)) else Null)
    ensures Add3(a, b, c) == Null <==> !BuysFresh(merged, k)
    ensures BuysFresh(merged, k) ==> Add3(a, b, c) == Num(FreshSumOf(merged, k, month))
  {
    var x, y, z := CategoryAmount(merged, k, VEGETABLES, month), CategoryAmount(merged, k, MEAT, month), CategoryAmount(merged, k, BEAN, month);
    var pa, pb, pc := Buys(merged, k, VEGETABLES), Buys(merged, k, MEAT), Buys(merged, k, BEAN);
    Add3Filled(a, b, c, x, y, z, pa, pb, pc);
    RollUp(Add3(a, b, c), BuysFresh(merged, k), FreshSumOf(merged, k, month), pa, pb, pc, x, y, z);
  }

  lemma SalesLookup(merged: seq<Row>, k: Cell, category: string, month: string)
    requires k != Null
    ensures Lookup(SalesTable(merged, category, month), k)
            == if Buys(merged, k, category) then Num(CategoryAmount(merged, k, category, month)) else Null
  {
    SalesCell(merged, k, category, month);
  }

  lemma RollUp(t: Cell, all: bool, sum: real, pa: bool, pb: bool, pc: bool, x: real, y: real, z: real)
    requires t == Null <==> !(pa && pb && pc)
    requires pa && pb && pc ==> t == Num(x + y + z)
    requires all == (pa && pb && pc) && sum == x + y + z
    ensures t == Null <==> !all
    ensures all ==> t == Num(sum)
  {
  }

  /** Customer `k` has rows of all three fresh categories. */
  predicate BuysFresh(rows: seq<Row>, k: Cell) {
    Buys(rows, k, VEGETABLES) && Buys(rows, k, MEAT) && Buys(rows, k, BEAN)
  }

  /** The sum of the three fresh category amounts of one month. */
  function FreshSumOf(rows: seq<Row>, k: Cell, month: string): real {
    CategoryAmount(rows, k, VEGETABLES, month) + CategoryAmount(rows, k, MEAT, month) + CategoryAmount(rows, k, BEAN, month)
  }

  /** The 生鲜 roll-up cells of row `i` before `fillna`, as `a + b + c` over
      the three merged sales columns leaves them: missing unless the customer
      has rows of all three fresh categories, and otherwise the sum of the
      three category amounts of that month. */
  lemma AssembledFresh(merged: seq<Row>, i: int)
    requires 0 <= i < |PivotCustomers(merged)|
    ensures |Assembled(merged).rows| == |PivotCustomers(merged)|
    ensures var a := Assembled(merged).rows[i]; var k := PivotCustomers(merged)[i];
      && (Get(a, FRESH_THIS) == Null <==> !BuysFresh(merged, k))
      && (Get(a, FRESH_LAST) == Null <==> !BuysFresh(merged, k))
      && (BuysFresh(merged, k) ==> Get(a, FRESH_THIS) == Num(FreshSumOf(merged, k, THIS)))
      && (BuysFresh(merged, k) ==> Get(a, FRESH_LAST) == Num(FreshSumOf(merged, k, LAST)))
  {
    var k := PivotCustomers(merged)[i];
    JoinedRow(merged, i);
    AssembledRow(merged, i);
    var a := Assembled(merged).rows[i];
    FreshSum(merged, k, THIS, Get(a, FRESH_THIS));
    FreshSum(merged, k, LAST, Get(a, FRESH_LAST));
  }

  /** `fillna(0)` of a roll-up cell as `AssembledFresh` gives it is `FreshTotal`. */
  lemma FilledFresh(merged: seq<Row>, k: Cell, month: string, t: Cell)
    requires t == Null <==> !BuysFresh(merged, k)
    requires BuysFresh(merged, k) ==> t == Num(FreshSumOf(merged, k, month))
    ensures t.Num? || t == Null
    ensures FillCell(t) == Num(FreshTotal(merged, k, month))
  {
  }

  /** The fresh roll-up columns and their ratio: after `fillna(0)` the
      roll-up is `FreshTotal`. */
  lemma ReportFresh(merged: seq<Row>, i: int)
    requires 0 <= i < |PivotCustomers(merged)|
    ensures |CustomerDiffTable(merged).rows| == |PivotCustomers(merged)|
    ensures var r := CustomerDiffTable(merged).rows[i]; var k := PivotCustomers(merged)[i];
      && Get(r, FRESH_THIS) == Num(FreshTotal(merged, k, THIS))
      && Get(r, FRESH_LAST) == Num(FreshTotal(merged, k, LAST))
      && Get(r, FRESH_RATIO) == Num(CalculateRatio(FreshTotal(merged, k, THIS), FreshTotal(merged, k, LAST)))
  {
    var k := PivotCustomers(merged)[i];
    AssembledColumns(merged);
    AssembledRow(merged, i);
    AssembledFresh(merged, i);
    var a := Assembled(merged).rows[i];
    FilledFresh(merged, k, THIS, Get(a, FRESH_THIS));
    FilledFresh(merged, k, LAST, Get(a, FRESH_LAST));
    FinalCell(merged, i, FRESH_THIS);
    FinalCell(merged, i, FRESH_LAST);
    FinalCell(merged, i, FRESH_RATIO);
    FilledRatio(Get(a, FRESH_THIS), Get(a, FRESH_LAST));
  }

  /** The canonical columns are the key, the merged columns and the derived
      ones. */
  lemma OrderNames()
    ensures forall c :: c in ORDER <==> c == CUSTOMER || c in JOINED || Derived(c)
  {
  }

  /** A category column that the report does not name keeps the customer's
      pivot total of that category over both months. */
  lemma ReportCategory(merged: seq<Row>, i: int, c: string)
    requires 0 <= i < |PivotCustomers(merged)|
    requires c in Categories(merged) || c in FRESH_CATEGORIES
    requires c !in ORDER
    ensures |CustomerDiffTable(merged).rows| == |PivotCustomers(merged)|
    ensures Get(CustomerDiffTable(merged).rows[i], c) == Num(CategoryTotal(merged, PivotCustomers(merged)[i], c))
  {
    OrderNames();
    AssembledColumns(merged);
    JoinedRow(merged, i);
    AssembledRow(merged, i);
    FinalCell(merged, i, c);
  }

  // ---------------------------------------------------- report column order

  /** A column that `_reorder_columns` puts after the canonical ones. */
  predicate Unordered(c: string) {
    c !in ORDER
  }

  /** The categories of `cats` that are not yet among `columns`, in order. */
  function Absent(cats: seq<string>, columns: seq<string>): (r: seq<string>)
    ensures forall c :: c in r <==> c in cats && c !in columns
  {
    Filter(cats, c => c !in columns)
  }

  lemma {:induction false} AbsentExtensional(cats: seq<string>, a: seq<string>, b: seq<string>)
    requires forall c :: c in cats ==> (c in a <==> c in b)
    ensures Absent(cats, a) == Absent(cats, b)
  {
    if cats != [] {
      AbsentExtensional(cats[1..], a, b);
    }
  }

  /** Adding the missing fresh categories appends them in list order. */
  lemma {:induction false} WithCategoriesColumns(f: Frame, cats: seq<string>)
    requires NoDuplicates(cats)
    ensures WithCategories(f, cats).columns == f.columns + Absent(cats, f.columns)
    decreases |cats|
  {
    if cats != [] {
      NoDuplicatesEnds(cats);
      var g := WithCategory(f, cats[0]);
      var head := if cats[0] in f.columns then [] else [cats[0]];
      WithCategoryColumns(f, cats[0]);
      WithCategoriesColumns(g, cats[1..]);
      AbsentExtensional(cats[1..], g.columns, f.columns);
      AbsentCons(cats, f.columns);
      AppendAssoc(f.columns, head, Absent(cats[1..], f.columns));
    }
  }

  lemma WithCategoryColumns(f: Frame, c: string)
    ensures WithCategory(f, c).columns == f.columns + (if c in f.columns then [] else [c])
  {
  }

  lemma AbsentCons(cats: seq<string>, columns: seq<string>)
    requires cats != []
    ensures Absent(cats, columns) == (if cats[0] in columns then [] else [cats[0]]) + Absent(cats[1..], columns)
  {
  }

  lemma AppendAssoc(a: seq<string>, b: seq<string>, c: seq<string>)
    ensures (a + b) + c == a + (b + c)
  {
  }

  lemma FreshCategoriesApart()
    ensures NoDuplicates(FRESH_CATEGORIES) && CUSTOMER !in FRESH_CATEGORIES
    ensures forall c :: c in FRESH_CATEGORIES ==> Unordered(c)
  {
  }

  /** The pivot's columns: the key, the sorted categories, then the fresh
      categories it lacked. */
  lemma PivotColumns(merged: seq<Row>)
    ensures PivotTable(merged).columns == [CUSTOMER] + Categories(merged) + Absent(FRESH_CATEGORIES, Categories(merged))
  {
    FreshCategoriesApart();
    WithCategoriesColumns(PivotBase(merged), FRESH_CATEGORIES);
    AbsentExtensional(FRESH_CATEGORIES, [CUSTOMER] + Categories(merged), Categories(merged));
  }

  /** Assigning or merging a canonical column keeps the other columns, in
      order. */
  lemma CanonicalAppended(before: seq<string>, after: seq<string>, name: string)
    requires name in ORDER
    requires after == if name in before then before else before + [name]
    ensures Filter(after, Unordered) == Filter(before, Unordered)
  {
    if name !in before {
      FilterAppend(before, [name], Unordered);
    }
  }

  lemma AddCanonical(columns: seq<string>, names: seq<string>)
    requires forall c :: c in names ==> c in ORDER
    ensures Filter(ConcatColumns(columns, names), Unordered) == Filter(columns, Unordered)
  {
    FilterAppend(columns, Filter(names, c => c !in columns), Unordered);
    FilterNone(Filter(names, c => c !in columns), Unordered);
  }

  lemma {:induction false} JoinSalesTail(f: Frame, categories: seq<string>, sales: map<string, SalesPair>)
    requires forall c :: c in categories ==> c in sales && sales[c].current.name in ORDER && sales[c].previous.name in ORDER
    ensures Filter(JoinSales(f, categories, sales).columns, Unordered) == Filter(f.columns, Unordered)
    decreases |categories|
  {
    if categories != [] {
      var c := categories[0];
      var g := Merge(f, sales[c].current);
      CanonicalAppended(f.columns, g.columns, sales[c].current.name);
      CanonicalAppended(g.columns, Merge(g, sales[c].previous).columns, sales[c].previous.name);
      assert forall d :: d in categories[1..] ==> d in categories;
      JoinSalesTail(JoinCategory(f, c, sales), categories[1..], sales);
    }
  }

  lemma SalesNameCanonical(c: string)
    requires c in FRESH_CATEGORIES
    ensures SalesName(THIS, c) in ORDER && SalesName(LAST, c) in ORDER
  {
    SalesNames();
  }

  lemma SalesDataCanonical(merged: seq<Row>)
    ensures var sd := SalesData(merged, FRESH_CATEGORIES);
      forall c :: c in FRESH_CATEGORIES ==> c in sd && sd[c].current.name in ORDER && sd[c].previous.name in ORDER
  {
    forall c | c in FRESH_CATEGORIES
      ensures c in SalesData(merged, FRESH_CATEGORIES)
      ensures SalesData(merged, FRESH_CATEGORIES)[c].current.name in ORDER
      ensures SalesData(merged, FRESH_CATEGORIES)[c].previous.name in ORDER
    {
      SalesDataAt(merged, FRESH_CATEGORIES, c);
      SalesNameCanonical(c);
    }
  }

  /** Every step after the pivot adds only canonical columns. */
  lemma JoinedTail(merged: seq<Row>)
    ensures Filter(Joined(merged).columns, Unordered) == Filter(PivotTable(merged).columns, Unordered)
  {
    var p := PivotTable(merged);
    var active := CalculateDailyActive(merged);
    var m1 := Merge(p, active.1);
    var m2 := Merge(m1, active.0);
    CanonicalAppended(p.columns, m1.columns, active.1.name);
    CanonicalAppended(m1.columns, m2.columns, active.0.name);
    SalesDataCanonical(merged);
    JoinSalesTail(m2, FRESH_CATEGORIES, SalesData(merged, FRESH_CATEGORIES));
  }

  lemma AssembledTail(merged: seq<Row>)
    ensures Filter(Assembled(merged).columns, Unordered) == Filter(Joined(merged).columns, Unordered)
  {
    var j := Joined(merged);
    var t1 := AssignColumn(j, FRESH_THIS, TotalsColumn(j, "本月新鲜蔬菜销售额", "本月鲜肉类销售额", "本月豆制品销售额"));
    CanonicalAppended(j.columns, t1.columns, FRESH_THIS);
    var t := WithTotals(j);
    CanonicalAppended(t1.columns, t.columns, FRESH_LAST);
    var w := WithSalesman(t, merged);
    CanonicalAppended(t.columns, w.columns, SALESMAN);
    AddCanonical(w.columns, RATIOS);
  }

  /** The pivot's non-canonical columns: its categories that are not
      canonical, then the fresh categories it lacked. */
  lemma PivotTail(merged: seq<Row>)
    ensures Filter(PivotTable(merged).columns, Unordered)
            == Filter(Categories(merged), Unordered) + Absent(FRESH_CATEGORIES, Categories(merged))
  {
    PivotColumns(merged);
    FreshCategoriesApart();
    KeyedTail(Categories(merged), Absent(FRESH_CATEGORIES, Categories(merged)));
  }

  lemma KeyedTail(cs: seq<string>, extra: seq<string>)
    requires forall c :: c in extra ==> Unordered(c)
    ensures Filter([CUSTOMER] + cs + extra, Unordered) == Filter(cs, Unordered) + extra
  {
    var keyed := [CUSTOMER] + cs;
    FilterAppend(keyed, extra, Unordered);
    FilterAppend([CUSTOMER], cs, Unordered);
    FilterAll(extra, Unordered);
    KeyCanonical();
    assert Filter(keyed, Unordered) == Filter(cs, Unordered);
  }

  lemma KeyCanonical()
    ensures Filter([CUSTOMER], Unordered) == []
  {
    assert !Unordered(CUSTOMER);
    assert [CUSTOMER][1..] == [];
  }

  /** After the seventeen canonical columns the report has the category
      columns `pivot_table` created that are not canonical, in ascending
      order, and then the fresh categories the pivot lacked, in list
      order: the frame order `_reorder_columns` keeps for the rest. */
  lemma ReportColumnOrder(merged: seq<Row>)
    ensures |CustomerDiffTable(merged).columns| >= |ORDER|
    ensures CustomerDiffTable(merged).columns[|ORDER|..]
            == Filter(Categories(merged), Unordered) + Absent(FRESH_CATEGORIES, Categories(merged))
    ensures SortedBy(Filter(Categories(merged), Unordered), StringLe)
  {
    var columns := Assembled(merged).columns;
    var r := CustomerDiffTable(merged).columns;
    OrderNames();
    AssembledColumns(merged);
    FilterAll(ORDER, c => c in columns);
    assert r == ORDER + Filter(columns, c => c !in ORDER);
    assert r[|ORDER|..] == Filter(columns, c => c !in ORDER);
    FilterExtensional(columns, c => c !in ORDER, Unordered);
    AssembledTail(merged);
    JoinedTail(merged);
    PivotTail(merged);
    FilterSorted(Categories(merged), Unordered, StringLe);
  }

  /** The report's columns: the seventeen canonical ones first, in order,
      then the remaining category columns. */
  lemma ReportColumns(merged: seq<Row>)
    ensures |CustomerDiffTable(merged).columns| >= |ORDER|
    ensures CustomerDiffTable(merged).columns[..|ORDER|] == ORDER
    ensures forall c :: c in CustomerDiffTable(merged).columns <==> c in ORDER || c in Categories(merged) || c in FRESH_CATEGORIES
  {
    var columns := Assembled(merged).columns;
    OrderNames();
    AssembledColumns(merged);
    FilterAll(ORDER, c => c in columns);
    var r := CustomerDiffTable(merged).columns;
    assert r == ORDER + Filter(columns, c => c !in ORDER);
  }

  /** `fillna(0)` leaves no cell of the report missing. */
  lemma ReportFilled(merged: seq<Row>)
    ensures forall i, c :: 0 <= i < |CustomerDiffTable(merged).rows| && c in CustomerDiffTable(merged).columns ==>
              Get(CustomerDiffTable(merged).rows[i], c) != Null
  {
  }

  /** `get_customer_diff` fails exactly when no merged row has a shipment
      time, since the date label needs the latest one. */
  lemma CustomerDiffFails(last: Frame, current: Frame)
    ensures CustomerDiffOf(last, current).Err? <==> forall x :: x in MergeOrder(last, current).rows ==> !Get(x, TIME).Time?
  {
  }

  /** The date label is `MM月DD日` of the latest shipment time. */
  lemma CustomerDiffLabel(last: Frame, current: Frame)
    requires CustomerDiffOf(last, current).Ok?
    ensures var t := LatestShipment(MergeOrder(last, current).rows).value;
      && CustomerDiffOf(last, current).value.latestDate == DateLabel(t)
      && CustomerDiffOf(last, current).value.data == CustomerDiffTable(MergeOrder(last, current).rows)
      && forall x :: x in MergeOrder(last, current).rows && Get(x, TIME).Time? ==> TimeLe(Get(x, TIME).t, t)
  {
  }

  /** For a valid date the label has the two-digit month at 0..2 and the
      two-digit day at 3..5. */
  lemma DateLabelDigits(t: Timestamp)
    requires ValidDate(t.date)
    ensures |DateLabel(t)| == 6
    ensures var s := DateLabel(t);
      && s[2] == '月' && s[5] == '日'
      && IsDigit(s[0]) && IsDigit(s[1]) && IsDigit(s[3]) && IsDigit(s[4])
      && ParseNat(s[..2]) == t.date.month && ParseNat(s[3..5]) == t.date.day
  {
    ZeroPadDigits(t.date.month, 2);
    ZeroPadDigits(t.date.day, 2);
    var m := ZeroPad(t.date.month, 2);
    var d := ZeroPad(t.date.day, 2);
    assert Pow10(2) == 100;
    assert DateLabel(t) == m + "月" + d + "日";
    assert DateLabel(t)[..2] == m;
    assert DateLabel(t)[3..5] == d;
  }
}
