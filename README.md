# Sales report processors of sczy_data_report_backend, modelled in Dafny

The backend turns order exports (rows of 客户名称 customer, 业务员 salesman,
发货时间 shipment time, 实际金额 amount, 一级分类 category, 线路名称 route)
into Excel reports. This project models the computations in Dafny and proves
what they promise:

- **The daily report** (`DailyPivot`, `DailyReport`, `DailyReportFacts`).
  Each period's frame (current, compare, an optional extra one) is filtered by
  the sheet's filter options. It is pivoted into a 日活 table (distinct
  customers per row key and shipment time) and a 金额 table (summed amounts),
  each with a 平均值 column. The row keys of all periods are united. The sheet
  then gets one column per period and metric, and a difference column and a
  ratio column comparing the current period with each other period. Five sheet
  configurations make up the report.
- **The newer fresh-food ratio report** (`FreshFoodRatio`,
  `FreshFoodRatioFacts`). Last month's and this month's orders are merged.
  The result is a per-customer table of daily-active counts and of the sales of
  新鲜蔬菜, 鲜肉类 and 豆制品 and of their 生鲜 sum, month by month, with
  percentage-change ratios. Its header is the latest shipment date.
- **The legacy fresh-food ratio report** (`LegacyFreshFood`,
  `LegacyFreshFoodFacts`). The same report is built from per-month pivot
  tables merged into a customer list. Its ratios are per order day, and it is
  sorted by this month's fresh sales.
- **The shared helpers** (`BaseExcel`, `FreshCommon`, `ColumnOrder`):
  - column validation;
  - header stripping;
  - numeric coercion;
  - condition filtering;
  - the month merge;
  - the left merges;
  - `fillna(0)`;
  - the canonical column order.
- **The download file name rule of the task centre** (`TaskCenter`). The
  clock's `YYYYMMDDHHMMSS` stamp is joined onto a requested or suggested name,
  and the extension is kept.

Generic pieces model the Python and pandas behaviour the processors rely on:

- `Cells`: the cell values, dates, timestamps and their order;
- `SeqUtil`: masks, `unique()`, sums;
- `Numbers`: round-half-even `round`, `str(int)`, `{:02d}`, `float(str)`;
- `Text`: `str.strip`, `in` on strings;
- `Sorting`: `sort_values`.

**How the model is written**
- Data frames are values: a `Frame` is a column list plus rows, and a row maps
  column names to cells.
- Where the source updates a frame that its caller also holds, the frame is a
  `DataFrame` object that a method modifies. This happens in
  `clean_numeric_column` and in the legacy `merge_order_data`.
- Loops in the source are methods with loop invariants, proved against the
  function that specifies them. Expressions are functions.
- Missing values (`NaN`, `NaT`, `None`) are the cell `Null`.
- Numbers are exact reals.

## Model

| member | source | states |
|---|---|---|
| BaseExcel.DataFrame.constructor | app/processors/utils/base_excel_processor.py:86-100 | A mutable frame holds exactly the frame it was created from. |
| BaseExcel.MissingColumns | app/processors/utils/base_excel_processor.py:41 | The missing list is exactly the required columns absent from the header, in required order. |
| BaseExcel.ValidateColumns | app/processors/utils/base_excel_processor.py:27-45 | An empty requirement passes. Otherwise validation passes iff no required column is missing. |
| BaseExcel.ReadExcelFile | app/processors/utils/base_excel_processor.py:47-84 | A missing file fails with FileNotFound. The header is stripped. The read succeeds iff the file exists and the stripped header holds every required column; otherwise it fails with MissingRequiredColumns. On success the rows are unchanged. |
| BaseExcel.PaddedHeaderAccepted | app/processors/utils/base_excel_processor.py:72-77 | Required names padded with white space in the header still pass validation. |
| BaseExcel.AssignColumn | app/processors/utils/base_excel_processor.py:98 | `df[name] = values` overwrites an existing column where it stands or appends a new one. The assigned column holds the values and every other cell is kept. |
| BaseExcel.CleanedNumeric | app/processors/utils/base_excel_processor.py:97-98 | An absent column changes nothing. Otherwise only that column changes, and each cell becomes `to_numeric(errors='coerce').fillna(0)` of the old cell. |
| BaseExcel.CleanedNumericValues | app/processors/utils/base_excel_processor.py:98 | After cleaning, an existing column holds numbers only: numbers stay, numeric text is parsed, anything else becomes 0. |
| BaseExcel.CleanNumericColumn | app/processors/utils/base_excel_processor.py:86-100 | The method updates the caller's frame in place and returns that same object, whose new contents are `CleanedNumeric` of the old ones. |
| BaseExcel.MeetsAllIff | app/processors/utils/base_excel_processor.py:131-143 | A row passes all conditions iff it passes each condition whose column exists. |
| BaseExcel.FilterStep | app/processors/utils/base_excel_processor.py:131-143 | One loop pass narrows the rows meeting the earlier conditions to those meeting one more. |
| BaseExcel.FilterDataMembers | app/processors/utils/base_excel_processor.py:118-146 | The filtered rows are an order-preserving subsequence of the input, and a row is kept iff it meets every applicable condition. |
| BaseExcel.FilterData | app/processors/utils/base_excel_processor.py:118-146 | `filter_data` keeps exactly the rows meeting every condition on an existing column, in order. A value condition is `==`, a callable is applied, and the columns are unchanged. |
| BaseExcel.FilterDataSkipsAbsent | app/processors/utils/base_excel_processor.py:132-134 | Conditions on absent columns keep every row. |
| Cells.DateLeTotalOrder | app/processors/fresh_food_ratio/processor.py:74 | Chronological order on dates is reflexive, transitive and total. |
| Cells.TimeLeTotalOrder | app/processors/fresh_food_ratio/processor.py:74 | Chronological order on timestamps is reflexive, transitive and total. |
| ColumnOrder.Reorder | app/processors/fresh_food_ratio/processor.py:243-250 | The result is the canonical columns the frame has, in canonical order, followed by the frame's other columns in their order. |
| ColumnOrder.ReorderPermutation | app/processors/excel_processor.py:227-235 | Without repeated names, the reordered columns are a permutation of the frame's columns. |
| ColumnOrder.ReorderCanonicalFirst | app/processors/excel_processor.py:227-235 | The canonical columns form a prefix of the result. |
| Numbers.RoundedUnits | app/processors/daily_report/processor.py:130 | The result is an integer within one half of x·10^places. |
| Numbers.RoundError | app/processors/daily_report/processor.py:130 | `round(x, p)` is within half a unit of the p-th decimal place. |
| Numbers.RoundExact | app/processors/daily_report/processor.py:132 | Rounding a value that already has at most p decimals leaves it unchanged. |
| Numbers.RoundInteger | app/processors/daily_report/processor.py:132 | Rounding an integer leaves it unchanged. |
| Numbers.NatToString | app/processors/daily_report/processor.py:209 | `str(n)` is non-empty and consists of digits only. |
| Numbers.ParseNatToString | app/processors/daily_report/processor.py:209 | `str(n)` reads back as n. |
| Numbers.ZeroPad | app/processors/daily_report/processor.py:213 | `{n:0Wd}` is at least W characters long. |
| Numbers.ZeroPadDigits | app/crawlers/utils/task_center.py:33 | A number below 10^W pads to exactly W digits that read back as the number. |
| Numbers.ParseDecimal | app/processors/utils/base_excel_processor.py:98 | A successful `float(s)` of a text cell read at least one digit. |
| Numbers.ParseDecimalOfDigits | app/processors/utils/base_excel_processor.py:98 | A string of digits parses to its value. |
| Numbers.ParseDecimalOfNegated | app/processors/utils/base_excel_processor.py:98 | A minus sign followed by digits parses to the negated value. |
| Numbers.ParseDecimalOfInt | app/processors/utils/base_excel_processor.py:98 | `str(n)` of any integer parses back to n. |
| Text.Strip | app/processors/utils/base_excel_processor.py:73 | `str.strip()` gives a slice of s with no white space at either end. |
| Text.StripEmpty | app/processors/fresh_food_ratio/processor.py:71 | A string strips to "" iff all its characters are white space. |
| Text.StripClean | app/processors/utils/base_excel_processor.py:73 | A string with no white space at either end is unchanged by stripping. |
| Text.StripIdempotent | app/processors/utils/base_excel_processor.py:73 | Stripping twice is stripping once. |
| Text.StripPadded | app/processors/utils/base_excel_processor.py:73 | White-space padding on both sides of a clean name strips away. |
| Text.ContainsHasChars | app/processors/daily_report/processor.py:342-343 | Every character of a substring occurs in the string. |
| Sorting.SortBySorted | app/processors/fresh_food_ratio/processor.py:74 | Under a total preorder the sort's output is sorted and is a permutation (same multiset) of the input. |
| Sorting.SortByTimeDescending | app/processors/fresh_food_ratio/processor.py:74 | `sort_values('发货时间', ascending=False)` is a permutation of the rows with latest times first and missing times last. |
| Sorting.SortByValueDescending | app/processors/excel_processor.py:376 | `sort_values(col, ascending=False)` on a numeric column is a permutation of the rows in descending order of the column. |
| SeqUtil.Filter | app/processors/utils/base_excel_processor.py:143 | `df[mask]` holds exactly the elements meeting the predicate, each of them meets it, and it is no longer than the input. |
| SeqUtil.FilterIsSubsequence | app/processors/utils/base_excel_processor.py:143 | Filtering never reorders or invents elements. |
| SeqUtil.FilterFilter | app/processors/utils/base_excel_processor.py:131-143 | Filtering twice is filtering once by the conjunction. |
| SeqUtil.Distinct | app/processors/excel_processor.py:128 | `unique()` holds the same elements without repeats and is no longer than the input. |
| SeqUtil.DistinctCount | app/processors/fresh_food_ratio/processor.py:95-96 | `nunique()` is the size of the set of values. |
| SeqUtil.SumOfFilter | app/processors/excel_processor.py:175-180 | A sum over filtered rows is the sum over all rows with the rejected ones counted as 0. |
| SeqUtil.SumOfSingle | app/processors/daily_report/processor.py:135-141 | Summing an indicator over a duplicate-free sequence picks out the one matching element. |
| FreshCommon.Tagged | app/processors/fresh_food_ratio/processor.py:63-64 | `df['月份'] = month` tags every row with the month and keeps every other cell. |
| FreshCommon.ConcatColumns | app/processors/fresh_food_ratio/processor.py:67 | `pd.concat` has exactly the columns of either frame. |
| FreshCommon.MergeOrder | app/processors/fresh_food_ratio/processor.py:48-80 | The merge is a latest-first permutation of the tagged rows of both months that name a customer. |
| FreshCommon.MergeOrderMonths | app/processors/fresh_food_ratio/processor.py:60-74 | No order is lost, invented or moved to the other month: as multisets, each month's merged rows are that month's tagged rows with a customer. |
| FreshCommon.PeriodRows | app/processors/fresh_food_ratio/processor.py:92-93 | `df[df['月份'] == month]` keeps exactly the rows of that month. |
| FreshCommon.Customers | app/processors/excel_processor.py:128 | `unique()` of 客户名称 gives each row's customer, once. |
| FreshCommon.GroupCustomers | app/processors/fresh_food_ratio/processor.py:193 | The groups of `groupby('客户名称')` are exactly the present customers, each once. |
| FreshCommon.CustomerRows | app/processors/fresh_food_ratio/processor.py:143 | `df[df['客户名称'] == k]` keeps exactly customer k's rows. |
| FreshCommon.FirstRow | app/processors/fresh_food_ratio/processor.py:146 | The result is the position of customer k's first row, or the length when k has none. |
| FreshCommon.FirstSalesman | app/processors/fresh_food_ratio/processor.py:143-147 | `.iloc[0]['业务员']` is the salesman of customer k's first row, and is None iff k has no row. |
| FreshCommon.FirstSalesmanIsLatest | app/processors/fresh_food_ratio/processor.py:137-146 | In rows sorted latest first, no row of the customer is later than its first row. |
| FreshCommon.CategoryRows | app/processors/fresh_food_ratio/processor.py:161 | `df[df['一级分类'] == category]` keeps exactly that category's rows. |
| FreshCommon.CustomerAmountAbsent | app/processors/excel_processor.py:175-187 | A customer with no rows totals 0. |
| FreshCommon.JoinTable | app/processors/fresh_food_ratio/processor.py:292-298 | A left merge on 客户名称 keeps the rows in order and adds the column. Each row gets its customer's value, or missing when the table lacks the customer. |
| FreshCommon.FillNa | app/processors/fresh_food_ratio/processor.py:325 | `fillna(0)` turns every missing cell of a column into 0, changes nothing else, and leaves no missing cell. |
| FreshCommon.Latest | app/processors/fresh_food_ratio/processor.py:271 | The latest timestamp is in the list and no timestamp is later; it is None only for an empty list. |
| FreshCommon.LatestShipment | app/processors/fresh_food_ratio/processor.py:271 | `df['发货时间'].max()` is a row's time and no row's time is later; it is None (NaT) iff no row has a time. |
| FreshFoodRatio.CalculateRatioBound | app/processors/fresh_food_ratio/processor.py:208-221 | A zero baseline gives 0; against a nonzero baseline the ratio is within 0.005 of the exact percentage change. |
| FreshFoodRatio.CalculateRatioExamples | app/processors/fresh_food_ratio/processor.py:219-221 | Worked values: a zero baseline gives 0, 120 against 100 gives 20.0 and 80 against 100 gives -20.0. |
| FreshFoodRatio.CalculateRatioUnchanged | app/processors/fresh_food_ratio/processor.py:219-221 | Equal values give a ratio of 0. |
| FreshFoodRatio.OrderDays | app/processors/fresh_food_ratio/processor.py:95-96 | The number of distinct shipment dates of one month, with a missing time counting as one value; 0 iff the month has no rows. |
| FreshFoodRatio.CalculateOrderDays | app/processors/fresh_food_ratio/processor.py:82-101 | The result is (last month's, this month's) number of distinct shipment dates. |
| FreshFoodRatio.ActiveCount | app/processors/fresh_food_ratio/processor.py:193 | The number of distinct present timestamps of one customer's rows in one month. |
| FreshFoodRatio.CalculateDailyActive | app/processors/fresh_food_ratio/processor.py:182-206 | Both tables, 上月日活 and 本月日活, have the same customers, and hold a customer's distinct shipment times of that month (0 for a month without its rows). |
| FreshFoodRatio.CategoryAmountSplit | app/processors/fresh_food_ratio/processor.py:164 | A customer's two monthly amounts of a category add up to its two-month total. |
| FreshFoodRatio.SalesTable | app/processors/fresh_food_ratio/processor.py:161-177 | A month's sales table holds exactly the customers with a row of the category, each with its amount in that month (0 if none). |
| FreshFoodRatio.CalculateSalesData | app/processors/fresh_food_ratio/processor.py:149-180 | The result is the pair of tables `上月…销售额` and `本月…销售额`, both over the same customers. |
| FreshFoodRatio.Categories | app/processors/fresh_food_ratio/processor.py:118 | The 一级分类 values present in the rows, each once, in ascending order, as `pivot_table` sorts the column labels it creates. |
| FreshFoodRatio.PivotCustomers | app/processors/fresh_food_ratio/processor.py:117 | The pivot index holds exactly the customers with a categorised row, each once. |
| FreshFoodRatio.PivotBaseShaped | app/processors/fresh_food_ratio/processor.py:113-122 | After `pivot_table(...).reset_index()` each customer has one row, and each category column holds the customer's two-month total of that category. |
| FreshFoodRatio.PivotTable | app/processors/fresh_food_ratio/processor.py:103-130 | One row per pivot customer. Each category column, and each fresh column added when missing, holds the customer's total (0 for an added column). |
| FreshFoodRatio.CreatePivotTableBase | app/processors/fresh_food_ratio/processor.py:124-127 | The loop that adds missing fresh columns yields `PivotTable`. |
| FreshFoodRatio.LatestSalesman | app/processors/fresh_food_ratio/processor.py:132-147 | The salesman of the customer's first merged row; '' when the customer has no row. |
| FreshFoodRatio.CollectSalesData | app/processors/fresh_food_ratio/processor.py:280-286 | The loop fills `sales_data` with each fresh category's pair of tables. |
| FreshFoodRatio.MergeSalesData | app/processors/fresh_food_ratio/processor.py:296-298 | The loop merges this month's and then last month's table of each category, in category order. |
| FreshFoodRatio.GetCustomerDiff | app/processors/fresh_food_ratio/processor.py:252-334 | Run on frames already read, the steps in source order equal `CustomerDiffOf`. |
| FreshFoodRatioFacts.MergeRow | app/processors/fresh_food_ratio/processor.py:292 | One left merge on one row: the new column holds the table's value for the row's customer, or missing. |
| FreshFoodRatioFacts.JoinedRow | app/processors/fresh_food_ratio/processor.py:289-298 | After the eight merges, row i is the i-th customer's pivot row with its daily-active and sales values looked up (missing where a table lacks the customer). |
| FreshFoodRatioFacts.TotalsRow | app/processors/fresh_food_ratio/processor.py:301-302 | The 生鲜 columns are the sums of the three category columns, and nothing else changes. |
| FreshFoodRatioFacts.RatiosRow | app/processors/fresh_food_ratio/processor.py:308-322 | Each ratio column is `calculate_ratio` of its two columns, and nothing else changes. |
| FreshFoodRatioFacts.AssembledRow | app/processors/fresh_food_ratio/processor.py:289-322 | Row i before `fillna` in terms of the merged rows: the roll-ups add up the category cells, the salesman is looked up, and the ratios compare the cells. |
| FreshFoodRatioFacts.FinalCell | app/processors/fresh_food_ratio/processor.py:325-328 | A cell of the final table is the filled cell of the same column before `fillna` and the reordering. |
| FreshFoodRatioFacts.SalesCell | app/processors/fresh_food_ratio/processor.py:297-298 | A sales cell is missing iff the customer has no row of the category, and `fillna(0)` then gives the amount, which is 0. |
| FreshFoodRatioFacts.AssembledFresh | app/processors/fresh_food_ratio/processor.py:301-302 | Before `fillna`, pivot row i's 本月生鲜销售额 and 上月生鲜销售额 cells are missing (NaN) iff its customer lacks a row of one of the three fresh categories; otherwise each is the sum of that month's three category amounts. |
| FreshFoodRatioFacts.ReportKey | app/processors/fresh_food_ratio/processor.py:305 | Report row i belongs to the i-th pivot customer, and its 业务员 is the salesman of that customer's first (latest) row, 0 where missing (`fillna(0)`). |
| FreshFoodRatioFacts.ReportActive | app/processors/fresh_food_ratio/processor.py:292-293 | The daily-active columns hold the customer's distinct shipment times in each month, and their ratio. |
| FreshFoodRatioFacts.ReportVegetables | app/processors/fresh_food_ratio/processor.py:311-313 | The 新鲜蔬菜 columns hold the customer's monthly amounts (0 without a row) and their ratio. |
| FreshFoodRatioFacts.ReportMeat | app/processors/fresh_food_ratio/processor.py:314-316 | The 鲜肉类 columns hold the customer's monthly amounts (0 without a row) and their ratio. |
| FreshFoodRatioFacts.ReportBean | app/processors/fresh_food_ratio/processor.py:317-319 | The 豆制品 columns hold the customer's monthly amounts (0 without a row) and their ratio. |
| FreshFoodRatioFacts.ReportFresh | app/processors/fresh_food_ratio/processor.py:301-325 | After `fillna(0)` the 生鲜 columns hold `FreshTotal` of each month (the three-category sum, or 0 when a category is missing) and their ratio. |
| FreshFoodRatioFacts.ReportCategory | app/processors/fresh_food_ratio/processor.py:114-122 | A category column the report does not name keeps the customer's two-month pivot total. |
| FreshFoodRatioFacts.ReportColumns | app/processors/fresh_food_ratio/processor.py:233-250 | The report's columns are the seventeen canonical ones first, in order, then the remaining category columns. |
| FreshFoodRatioFacts.ReportColumnOrder | app/processors/fresh_food_ratio/processor.py:113-126 | Past the seventeen canonical columns, the report holds the non-canonical categories in ascending order, then the fresh categories that no row had, in `FRESH_CATEGORIES` order. |
| FreshFoodRatioFacts.ReportFilled | app/processors/fresh_food_ratio/processor.py:325 | No cell of the report is missing. |
| FreshFoodRatioFacts.CustomerDiffFails | app/processors/fresh_food_ratio/processor.py:271 | `get_customer_diff` fails iff no merged row has a shipment time (`NaT.strftime`). |
| FreshFoodRatioFacts.CustomerDiffLabel | app/processors/fresh_food_ratio/processor.py:271 | The label is `MM月DD日` of the latest shipment time. |
| FreshFoodRatioFacts.DateLabelDigits | app/processors/fresh_food_ratio/processor.py:271 | For a valid date the label holds the two-digit month and the two-digit day. |
| LegacyFreshFood.ValidateColumns | app/processors/excel_processor.py:25-31 | Validation fails iff some required column is missing. |
| LegacyFreshFood.ReadExcelFile | app/processors/excel_processor.py:33-57 | A missing file fails. The header is stripped, and a header without every required column fails. 实际金额 is coerced to numbers with 0 for unparsable cells, and the other cells are unchanged. |
| LegacyFreshFood.MergeOrderData | app/processors/excel_processor.py:59-79 | 月份 is written into the caller's two frames. Two distinct frames are tagged 上月 and 本月; the same frame passed twice ends up tagged 本月. The result is the merge of the tagged months. |
| LegacyFreshFood.GetLatestSalesman | app/processors/excel_processor.py:81-110 | The loop yields `LatestSalesmen`. |
| LegacyFreshFood.LatestSalesmenMembers | app/processors/excel_processor.py:96-106 | An entry exists iff its customer is listed and has a record, and it names the salesman of that customer's first record. |
| LegacyFreshFood.LatestSalesmenFirstRow | app/processors/excel_processor.py:100-102 | An entry names the salesman of its customer's first merged row. |
| LegacyFreshFood.LatestSalesmenAll | app/processors/excel_processor.py:96-106 | When every customer has a record there is one entry per customer, in order. |
| LegacyFreshFood.CustomerRowsHead | app/processors/excel_processor.py:98-102 | A customer's first record is its first row. |
| LegacyFreshFood.SalesmanOfIndex | app/processors/excel_processor.py:133 | The merge on 客户名称 brings in the i-th entry's salesman for the i-th customer. |
| LegacyFreshFood.PivotBase | app/processors/excel_processor.py:123-136 | The result is an error iff there are no rows; otherwise 客户名称 and 业务员 columns with one row per customer. |
| LegacyFreshFood.PivotBaseRow | app/processors/excel_processor.py:128-133 | Row i is the i-th customer with the salesman of its first (latest) row. |
| LegacyFreshFood.CreatePivotTableBase | app/processors/excel_processor.py:123-136 | The method computes `PivotBase`. |
| LegacyFreshFood.DaysOf | app/processors/excel_processor.py:146 | The number of distinct calendar dates among present shipment times; at most the number of rows, and 0 iff no row has a time. |
| LegacyFreshFood.CalculateOrderDays | app/processors/excel_processor.py:112-121 | The result is each month's number of distinct shipment dates; 0 iff none of its rows has a time. |
| LegacyFreshFood.DaysTable | app/processors/excel_processor.py:151-156 | One entry per customer of the scoped rows, holding its number of distinct dates. |
| LegacyFreshFood.AmountTable | app/processors/excel_processor.py:175-180 | One entry per customer of the scoped rows, holding its total 实际金额. |
| LegacyFreshFood.CalculateDailyActiveData | app/processors/excel_processor.py:138-165 | The result is (上月总日活, 本月总日活) over each month's rows; a customer's days are at most its rows. |
| LegacyFreshFood.CalculateSalesData | app/processors/excel_processor.py:167-189 | The result is (上月…销售额, 本月…销售额) of one category, named as in the source. |
| LegacyFreshFood.FreshRows | app/processors/excel_processor.py:277-278 | `isin(fresh_categories)` keeps exactly the rows of the three fresh categories. |
| LegacyFreshFood.FreshSalesData | app/processors/excel_processor.py:280-292 | The 上月/本月生鲜销售额 tables are named as in the source. |
| LegacyFreshFood.DataDictNames | app/processors/excel_processor.py:295-306 | `data_dict` holds ten tables named after the metric columns in order, with distinct names. |
| LegacyFreshFood.MergeDataToPivot | app/processors/excel_processor.py:197-205 | The loop merges each non-empty table in turn and skips empty ones. |
| LegacyFreshFood.MergedTablesRow | app/processors/excel_processor.py:201-203 | The merges keep the rows and their customers, and each column ends as the last non-empty table named after it sets it. |
| LegacyFreshFood.CellAfterNamed | app/processors/excel_processor.py:201-203 | With distinct names a table's column holds the customer's value when the table is non-empty, and keeps its cell otherwise. |
| LegacyFreshFood.ColumnsAfterNamed | app/processors/excel_processor.py:201-203 | A table's column is present after the merges iff it was before or the table is non-empty. |
| LegacyFreshFood.ColumnsAfterUnnamed | app/processors/excel_processor.py:201-203 | Merges never add a column no table is named after. |
| LegacyFreshFood.CoerceNumericColumns | app/processors/excel_processor.py:311-321 | The coercion loop yields `Coerced(f, NUMERIC)`. |
| LegacyFreshFood.CoercedRow | app/processors/excel_processor.py:319-321 | The coercion keeps columns and rows, turns each listed column the frame has into numbers, and leaves every other cell. |
| LegacyFreshFood.CalculateRatioInverse | app/processors/excel_processor.py:191-195 | A nonzero baseline grown by the ratio percent gives the current value back. |
| LegacyFreshFood.CalculateRatioSign | app/processors/excel_processor.py:191-195 | Against a positive baseline the ratio is positive iff the value grew, and 0 iff it is unchanged. |
| LegacyFreshFood.CalculateRatioExamples | app/processors/excel_processor.py:193-195 | Worked values, unrounded: 120/100 gives 20, x/0 gives 0, 80/100 gives -20, 150/200 gives -25. |
| LegacyFreshFood.FinishPivot | app/processors/excel_processor.py:308-373 | Merges, coercion, ratios, `fillna` and reordering in source order yield `Finished`. |
| LegacyFreshFood.GetCustomerDiff | app/processors/excel_processor.py:237-389 | Run on frames already read, the steps in source order equal `CustomerDiffOf`. |
| LegacyFreshFoodFacts.ApplyRatiosNamed | app/processors/excel_processor.py:325-367 | Each ratio column holds the ratio of the row's pre-ratio cells: no ratio reads a column written before it. |
| LegacyFreshFoodFacts.CompletedMetric | app/processors/excel_processor.py:308-373 | A metric column is present iff its table is non-empty, and holds the customer's value (0 when the table lacks it). |
| LegacyFreshFoodFacts.CompletedRatio | app/processors/excel_processor.py:325-370 | A ratio column is always present and never missing: this month's per-day value of its metric against last month's. |
| LegacyFreshFoodFacts.CompletedColumns | app/processors/excel_processor.py:308-373 | The columns are the key, 业务员, the five ratios and the non-empty metrics, each once, in canonical order. |
| LegacyFreshFoodFacts.DataDictValues | app/processors/excel_processor.py:262-306 | The tables of `data_dict` are the day counts and amounts of each month, over the merged rows, one category's rows or the fresh ones. |
| LegacyFreshFoodFacts.FreshRollUp | app/processors/excel_processor.py:277-292 | The fresh amount is the sum of the three category amounts. |
| LegacyFreshFoodFacts.ReportMetric | app/processors/excel_processor.py:295-321 | In the report, metric j of customer i is present iff its table is non-empty, and holds the customer's value (0 if absent). |
| LegacyFreshFoodFacts.ReportRatio | app/processors/excel_processor.py:325-367 | Ratio q of customer i is `calculate_ratio` of this month's and last month's values, each divided by that month's order days (0 without days). |
| LegacyFreshFoodFacts.ReportKey | app/processors/excel_processor.py:128-133 | The key is the i-th customer and the 业务员 is that of its first, latest merged row, 0 where missing (`fillna(0)`). |
| LegacyFreshFoodFacts.ReportColumns | app/processors/excel_processor.py:207-235 | The report's columns are the key, 业务员, the ratios and each metric whose table is non-empty, once each, in canonical order. |
| LegacyFreshFoodFacts.DataDictMeaning | app/processors/excel_processor.py:262-306 | For customer k, the ten tables hold its order days per month, its amounts of each fresh category per month, and its fresh amounts per month. |
| LegacyFreshFoodFacts.DataDictPresence | app/processors/excel_processor.py:151-292 | A table of `data_dict` is empty iff its scope (the merged rows of its month, and of its category) is empty. |
| LegacyFreshFoodFacts.FreshThisColumn | app/processors/excel_processor.py:287-292 | The 本月生鲜销售额 column is present iff this month has a fresh-category row. |
| LegacyFreshFoodFacts.CustomerDiffErrors | app/processors/excel_processor.py:256-376 | The report fails with NoCustomers iff no merged row exists, and with NoFreshSalesColumn iff rows exist but this month has no fresh row. It succeeds otherwise. |
| LegacyFreshFoodFacts.CustomerDiffReport | app/processors/excel_processor.py:370-381 | A successful report has the finished frame's rows permuted into descending 本月生鲜销售额 order, one per customer, and the day of the latest shipment. |
| DailyPivot.FilterDataByOptions | app/processors/daily_report/processor.py:152-187 | No options return the data itself. Otherwise the result is an order-preserving subsequence keeping exactly the rows passing every option on an existing key: listed values kept, or dropped when `reverse`. |
| DailyPivot.ApplyOptions | app/processors/daily_report/processor.py:169-185 | The option loop yields `OptionsFiltered`. |
| DailyPivot.OptionStep | app/processors/daily_report/processor.py:174-183 | One more option narrows the filtered prefix, and an option on a missing key is skipped. |
| DailyPivot.OptionsFilteredFacts | app/processors/daily_report/processor.py:164-187 | The option filter is an AND of the options, skips absent keys and keeps order. |
| DailyPivot.PivotRow | app/processors/daily_report/processor.py:120-141 | A pivot row has one value per time column. |
| DailyPivot.RowAverage | app/processors/daily_report/processor.py:128-132 | Both branches of 平均值 are the row mean rounded to two places. |
| DailyPivot.PivotOf | app/processors/daily_report/processor.py:120-147 | The index holds exactly the present keys and the columns exactly the present times. Cells are the aggregates, and 平均值 is the rounded mean over the time columns. |
| DailyPivot.PivotData | app/processors/daily_report/processor.py:105-150 | Empty data gives two empty tables. Otherwise the two tables share index and times; data with no pivotable row fails (`iloc[:, 0]`). |
| DailyPivot.ActiveCell | app/processors/daily_report/processor.py:120-126 | A 日活 cell is the number of distinct present customers with that key and time. |
| DailyPivot.MoneyCell | app/processors/daily_report/processor.py:135-141 | A 金额 cell is the sum of the amounts of the rows with that key and time. |
| DailyPivot.AbsentCombination | app/processors/daily_report/processor.py:125 | A key and time without rows get 0 in both tables (`fill_value=0`). |
| DailyPivot.AmountSwap | app/processors/daily_report/processor.py:145 | Summing a key's cells time by time or row by row gives the same total. |
| DailyPivot.MoneyRowTotal | app/processors/daily_report/processor.py:135-145 | A key's 金额 cells add up to the key's total amount. |
| DailyPivot.PivotMoneyAverage | app/processors/daily_report/processor.py:143-147 | A key's 金额 平均值 is its period total over the number of shipment-time columns, rounded to two places. |
| DailyPivot.MinDate | app/processors/daily_report/processor.py:204 | `dates.min()` is a date of the list and no date is earlier. |
| DailyPivot.MaxDate | app/processors/daily_report/processor.py:205 | `dates.max()` is a date of the list and no date is later. |
| DailyPivot.DateRangeDescription | app/processors/daily_report/processor.py:189-215 | The label is "" for empty data or no time column. |
| DailyPivot.DateRangeShape | app/processors/daily_report/processor.py:207-215 | The label is "D日" for one day, "MM.DD-DD" when the first and last month are equal, and "MM.DD-MM.DD" otherwise. |
| DailyPivot.DateRangeAlphabet | app/processors/daily_report/processor.py:209-215 | A label has only digits, '.', '-' and '日', so it never contains '活' or '金'. |
| DailyPivot.DateRangeLength | app/processors/daily_report/processor.py:213-215 | For valid dates the multi-day labels have 8 or 11 characters. |
| DailyPivot.GatherIndexes | app/processors/daily_report/processor.py:229-241 | The first loop yields the non-empty indexes of the present periods, in order. |
| DailyPivot.AllPartsMembers | app/processors/daily_report/processor.py:231-241 | A key is gathered iff some table of some period has it. |
| DailyPivot.UnionMembers | app/processors/daily_report/processor.py:248-250 | The union fold has no repeats and holds exactly the gathered keys. |
| DailyPivot.UnionIndexes | app/processors/daily_report/processor.py:247-250 | The union loop yields `Union`. |
| DailyPivot.CollectedKeysMembers | app/processors/daily_report/processor.py:229-266 | The key universe has no repeats and holds exactly the keys of every non-empty table. |
| DailyPivot.KeyOfKeyRow | app/processors/daily_report/processor.py:253-263 | A key frame row reads back as its key. |
| DailyPivot.CollectionFields | app/processors/daily_report/processor.py:217-266 | The result is the union of the keys of all non-empty tables, without repeats, as a frame over the row fields; no rows when all are empty. |
| DailyReport.AssignAll | app/processors/daily_report/processor.py:336-337 | A run of assignments keeps the rows and every unassigned cell, and adds exactly the new names. |
| DailyReport.AssignColumns | app/processors/daily_report/processor.py:336-337 | The assignment loop yields `AssignAll`. |
| DailyReport.MetricValues | app/processors/daily_report/processor.py:302-333 | A period column gives each key row the table's 平均值 for its key, or 0 when the key is absent. |
| DailyReport.CollectMetricValues | app/processors/daily_report/processor.py:304-313 | The row loop yields `MetricValues`. |
| DailyReport.GatherStep | app/processors/daily_report/processor.py:288-333 | One more period extends the gathered columns and labels. |
| DailyReport.MetricNames | app/processors/daily_report/processor.py:342-343 | Over a date label, `'日活' in col` and `'金额' in col` tell the two metric columns apart. |
| DailyReport.GatherCounts | app/processors/daily_report/processor.py:296-333 | There are never more 日活 columns, nor more 金额 columns, than date labels: each present period adds at most one of each and one label. |
| DailyReport.CompareAgainst | app/processors/daily_report/processor.py:354-364 | The difference column is current minus other. The ratio is current/other - 1 rounded to four places, NaN when other is 0. Every other column is kept. |
| DailyReport.CompareData | app/processors/daily_report/processor.py:268-422 | `get_compare_data` keeps one row per key row. |
| DailyReport.Descriptions | app/processors/daily_report/processor.py:296-298 | Period i's label comes from the stored unfiltered frame of that period. |
| DailyReport.PeriodPivots | app/processors/daily_report/processor.py:450-452 | There are three pivots, with the extra one absent iff there is no extra period. |
| DailyReport.CompareSheet | app/processors/daily_report/processor.py:424-472 | A sheet carries its name and the title `name(发货日期<label of the filtered current period>)`. |
| DailyReport.Preprocess | app/processors/daily_report/processor.py:80-103 | Columns are kept. After 实际金额 is cleaned (`clean_numeric_column`), a row remains iff it has a customer and a shipment time, in the original order, and every remaining 实际金额 is a number. |
| DailyReport.Collect | app/processors/daily_report/processor.py:518-529 | A run of sheets succeeds iff every sheet does, with the sheets in order. |
| DailyReport.CollectFirstError | app/processors/daily_report/processor.py:518-529 | A failed run's error is that of its first failed sheet. |
| DailyReport.Sheets | app/processors/daily_report/processor.py:518-529 | One sheet per configuration, in order, under the configured names. |
| DailyReport.SheetsConfigFields | app/processors/daily_report/processor.py:509-516 | There are five configurations, each grouping by at least one field. |
| DailyReport.DailyReport | app/processors/daily_report/processor.py:474-533 | A successful report has five sheets, named as the configured sheets, in order. |
| DailyReport.ReportResults | app/processors/daily_report/processor.py:494-529 | The report is the run of the configured sheets over the preprocessed periods. |
| DailyReport.AddPeriod | app/processors/daily_report/processor.py:289-333 | One loop pass adds the label and a column for each non-empty table, as `Extend` says. |
| DailyReport.FilterPeriods | app/processors/daily_report/processor.py:443-447 | Every period is filtered, and a missing extra period stays missing. |
| DailyReport.DailyReportProcessor.CollectColumns | app/processors/daily_report/processor.py:283-333 | The first loop yields the gathered columns and labels read from the stored frames. |
| DailyReport.DailyReportProcessor.GetCompareData | app/processors/daily_report/processor.py:268-422 | The method computes `CompareData` with the stored labels. |
| DailyReport.DailyReportProcessor.GetCompareSheet | app/processors/daily_report/processor.py:424-472 | The method stores the unfiltered frames and computes `CompareSheet`. |
| DailyReport.DailyReportProcessor.ProcessDailyReport | app/processors/daily_report/processor.py:474-533 | The method computes `DailyReport`. |
| DailyReport.DailyReportProcessor.BuildSheets | app/processors/daily_report/processor.py:518-529 | The loop yields the sheets in order, or the error of the first failing sheet. |
| DailyReportFacts.PeriodNameInjective | app/processors/daily_report/processor.py:315-332 | Two period columns share a name iff they are the same metric under the same label. |
| DailyReportFacts.CompareNameInjective | app/processors/daily_report/processor.py:355-359 | Comparison columns share a name iff they are the same kind, metric and label. |
| DailyReportFacts.AssignAllLast | app/processors/daily_report/processor.py:336-337 | After the assignments a cell holds the last assignment's value for its column, or its old value. |
| DailyReportFacts.CompareMetricColumns | app/processors/daily_report/processor.py:346-381 | One metric's comparisons add exactly their difference and ratio columns. |
| DailyReportFacts.CompareMetricValues | app/processors/daily_report/processor.py:346-381 | The first column is compared against the second and the third, under the second and third labels by list position. |
| DailyReportFacts.GatherAbsent | app/processors/daily_report/processor.py:289-290 | An absent period (`{}`) adds nothing. |
| DailyReportFacts.TwoPeriodRow | app/processors/daily_report/processor.py:268-422 | With two full periods, each row holds each period's 平均值 for its key (0 if absent), their difference and their ratio. |
| DailyReportFacts.ThreePeriodRow | app/processors/daily_report/processor.py:268-422 | With three full periods and distinct labels, the current period is also compared with the extra one, under the extra label. |
| DailyReportFacts.ThreeLabelsRow | app/processors/daily_report/processor.py:268-422 | With three full periods and any labels, each period column holds the value of the last period with its label, and both comparisons (under the compare and the extra label) read current minus those columns. |
| DailyReportFacts.ExtraSharesCurrentLabel | app/processors/daily_report/processor.py:336-364 | When the extra period's label equals the current one (two single-day "D日" labels), the extra values replace the current ones: the compare comparison holds extra minus compare, and the extra comparison 0. |
| DailyReportFacts.ExtraSharesCompareLabel | app/processors/daily_report/processor.py:336-364 | When the extra period's label equals the compare one, the extra values replace the compare ones, and the comparison under that label holds current minus extra. |
| DailyReportFacts.KeyedAverage | app/processors/daily_report/processor.py:304-313 | Row i of the key frame reads back as key i, so a period column holds the period's 平均值 for key i. |
| DailyReportFacts.RatioOfZero | app/processors/daily_report/processor.py:363 | A compare value of 0 leaves the ratio empty. |
| DailyReportFacts.RatioIsRelativeChange | app/processors/daily_report/processor.py:362-364 | Away from 0 the ratio is within half a unit of the fourth place of `a / b - 1`. |
| DailyReportFacts.RatioExample | app/processors/daily_report/processor.py:362-364 | 1000 against 800 gives 0.25. |
| DailyReportFacts.OnlyCurrent | app/processors/daily_report/processor.py:340 | With only the current period there is nothing to compare: the sheet is the key frame plus that period's two columns. |
| DailyReportFacts.OnlyCurrentColumns | app/processors/daily_report/processor.py:340 | The sheet then gains no difference or ratio column. |
| DailyReportFacts.SelfComparison | app/processors/daily_report/processor.py:356-364 | A value against itself gives difference 0 and ratio 0, or empty at 0. |
| DailyReportFacts.SameLabelRow | app/processors/daily_report/processor.py:336-364 | Two periods with the same label share columns: the compare values overwrite the current ones, so the difference is 0 and the ratio 0 (empty at 0). |
| TaskCenter.StampRoundTrip | app/crawlers/utils/task_center.py:33 | The stamp of a valid clock reading is 14 digits that read back as that reading. |
| TaskCenter.TimestampedFilename | app/crawlers/utils/task_center.py:22-34 | The name is the base, `_` and the stamp, each recoverable from the result. |
| TaskCenter.LastIndexOf | app/crawlers/utils/task_center.py:183 | None iff the character is absent; otherwise an index holding it with none after. |
| TaskCenter.StemExtension | app/crawlers/utils/task_center.py:193-194 | For a name with a dot, `rsplit(".",1)[0]` + "." + `split(".")[-1]` is the name, and the extension has no dot. |
| TaskCenter.ExtensionOfJoin | app/crawlers/utils/task_center.py:193-194 | `stem.ext` with a dotless ext splits back into stem and ext. |
| TaskCenter.NamedWithExtension | app/crawlers/utils/task_center.py:179-185 | A requested name with a dotted suggested name gives `name_stamp.ext`, keeping the suggested extension. |
| TaskCenter.UnnamedWithExtension | app/crawlers/utils/task_center.py:190-196 | Without a requested name, `stem.ext` gives `stem_stamp.ext`, and cutting the stamp out gives the suggested name back. |
| TaskCenter.TrailingDot | app/crawlers/utils/task_center.py:182-196 | A suggested name ending in a dot gives `name_stamp.` with a requested name, and `stem_stamp` without one. |
| TaskCenter.FinalFilenameStamped | app/crawlers/utils/task_center.py:178-201 | The final name is never empty and always carries `_` and the stamp, followed by nothing or a dot, so the fallback at 200-201 never fires. |
| TaskCenter.FinalFilenameParts | app/crawlers/utils/task_center.py:412-435 | The final name (also at the duplicate 412-435) is a base, `_`, the stamp and a tail that is empty or starts with a dot. |

## Left out

- Reading files is not modelled. `pd.read_excel`, `Path.exists` and `pd.to_datetime` become parameters: the file-exists flag, the header and typed rows. `clean_datetime_column` is taken as already applied, since datetime parsing is outside the model.
- Logging, the HTTP API, configuration, the service and entry wrappers and `process` (which only reads and preprocesses) are left out. They compute nothing the reports depend on.
- The clock is a parameter: `FinalFilename` takes the stamp string, and `Stamp` turns a `Timestamp` into it. `StampRoundTrip` holds for four-digit years only.
- The browser download, polling and clicks of the task centre are left out. Only the file-name rule is modelled.
- Floating point is modelled as exact reals. `round` is round-half-even on exact values, not on binary doubles.
- `Numbers.ParseDecimal` covers signed decimal text only. Exponents, `inf`, `nan` and surrounding white space are out of scope.
- `sort_values` is unstable quicksort in pandas. The model uses a stable insertion sort, and no lemma relies on the order of ties.
- The row order of `pivot_table` and `Index.union` (sorted in pandas) is not modelled: rows are in order of first appearance. Lemmas state membership, not order, for these.
- DailyPivot.PivotOf: the 发货时间 columns are in order of first appearance, not sorted as `pivot_table` sorts them; no cell value and no 平均值 depends on that order. The category columns of the fresh-food report are sorted (`FreshFoodRatio.Categories`).
- Category values are text cells only. Non-text 一级分类 values are not grouped as categories.
- `merge` suffixes (`_x`, `_y`) for clashing column names are not modelled. No merge in the core can clash, and the lemmas prove the names distinct.
- `LegacyFreshFood.CalculateDailyActiveData`: the unused all-months pivot at `excel_processor.py:143-148` is not computed, since its result is discarded.
- `LegacyFreshFood.CalculateDailyActiveData`: its day-count parameters are unused, as in the source.
- `LegacyFreshFood.GetCustomerDiff` takes frames already read, and a `.str.strip()` on a non-text customer column (a pandas error) is not raised.
- `FreshFoodRatio.GetCustomerDiff` takes frames already read, and the same `.str` error is not raised.
- `DailyReport.CompareData` states only the row count. Its contents are stated for full periods: `DailyReportFacts.TwoPeriodRow` and `DailyReportFacts.SameLabelRow` for two, `DailyReportFacts.ThreeLabelsRow` for three under any labels. Sheets with an empty period beside a full one are modelled as written but have no lemma of their own.
- `DailyReport.Preprocess`: the `clean_datetime_column` step of `_preprocess_data` is taken as already applied; the time column is expected to hold timestamps or missing values already.
- `DailyPivot.DateRangeDescription` assumes the time column already holds timestamps; `pd.to_datetime` at line 203 is not modelled.
