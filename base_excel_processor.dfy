/** The shared spreadsheet helpers: frames of rows, the required-column
    check, reading a header, numeric clean-up of a column and filtering rows
    by per-column conditions. */
module BaseExcel {
  import opened Cells
  import opened SeqUtil
  import opened Numbers
  import opened Text

  /** The columns of the order export that the processors read. */
  const CUSTOMER := "客户名称"
  const SALESMAN := "业务员"
  const TIME := "发货时间"
  const AMOUNT := "实际金额"
  const CATEGORY := "一级分类"
  const ROUTE := "线路名称"

  /** One spreadsheet row: column name to cell. A column the row does not
      hold reads as a missing value. */
  type Row = map<string, Cell>

  /** A table: its column names in order and its rows in order. */
  datatype Frame = Frame(columns: seq<string>, rows: seq<Row>)

  function Get(r: Row, c: string): Cell {
    if c in r then r[c] else Null
  }

  predicate IsEmpty(f: Frame) {
    |f.rows| == 0
  }

  /** A frame object whose columns its owner overwrites in place. */
  class DataFrame {
    var columns: seq<string>
    var rows: seq<Row>

    constructor (f: Frame)
      ensures View() == f
    {
      columns := f.columns;
      rows := f.rows;
    }

    function View(): Frame
      reads this
    {
      Frame(columns, rows)
    }
  }

  // ---------------------------------------------------------------- columns

  /** The required columns that the header lacks, in required order. */
  function MissingColumns(required: seq<string>, columns: seq<string>): (m: seq<string>)
    ensures forall c :: c in m <==> c in required && c !in columns
    ensures IsSubsequence(m, required)
  {
    FilterIsSubsequence(required, c => c !in columns);
    Filter(required, c => c !in columns)
  }

  /** `validate_columns`: an empty requirement always passes; otherwise the
      check passes exactly when no required column is missing. */
  function ValidateColumns(required: seq<string>, columns: seq<string>): (ok: bool)
    ensures ok <==> forall c :: c in required ==> c in columns
  {
    if |required| == 0 then true
    else
      var missing := MissingColumns(required, columns);
      assert missing != [] ==> missing[0] in missing;
      |missing| == 0
  }

  datatype ReadError = FileNotFound(path: string) | MissingRequiredColumns(path: string)

  /** The column step of `read_excel_file`: a missing file fails, the header
      names are stripped of surrounding white space, and the stripped
      header must hold every required column. The cells arrive already keyed
      by the stripped names. */
  function ReadExcelFile(required: seq<string>, path: string, fileExists: bool,
                         header: seq<string>, rows: seq<Row>): (r: Result<Frame, ReadError>)
    ensures !fileExists ==> r == Err(FileNotFound(path))
    ensures r.Ok? <==> fileExists && forall c :: c in required ==> c in Map(header, Strip)
    ensures r.Err? && fileExists ==> r == Err(MissingRequiredColumns(path))
    ensures r.Ok? ==> r.value.rows == rows && |r.value.columns| == |header|
    ensures r.Ok? ==> forall i :: 0 <= i < |header| ==> r.value.columns[i] == Strip(header[i])
  {
    if !fileExists then Err(FileNotFound(path))
    else
      var columns := Map(header, Strip);
      if !ValidateColumns(required, columns) then Err(MissingRequiredColumns(path))
      else Ok(Frame(columns, rows))
  }

  /** A header whose required names are padded with white space still
      passes column validation. */
  lemma PaddedHeaderAccepted(required: seq<string>, path: string, pre: string, post: string, rows: seq<Row>)
    requires forall k :: 0 <= k < |pre| ==> IsSpace(pre[k])
    requires forall k :: 0 <= k < |post| ==> IsSpace(post[k])
    requires forall i :: 0 <= i < |required| ==> required[i] != [] && !IsSpace(required[i][0]) && !IsSpace(required[i][|required[i]| - 1])
    ensures ReadExcelFile(required, path, true, Map(required, c => pre + c + post), rows).Ok?
  {
    var header := Map(required, c => pre + c + post);
    forall c | c in required
      ensures c in Map(header, Strip)
    {
      var i :| 0 <= i < |required| && required[i] == c;
      StripPadded(pre, c, post);
      assert Map(header, Strip)[i] == c;
    }
  }

  // ------------------------------------------------------ column assignment

  /** `df[name] = values`: an existing column is overwritten where it stands,
      a new one is appended after the others. */
  function AssignColumn(f: Frame, name: string, values: seq<Cell>): (r: Frame)
    requires |values| == |f.rows|
    ensures r.columns == if name in f.columns then f.columns else f.columns + [name]
    ensures |r.rows| == |f.rows|
    ensures forall i :: 0 <= i < |f.rows| ==> Get(r.rows[i], name) == values[i]
    ensures forall i, c :: 0 <= i < |f.rows| && c != name ==> Get(r.rows[i], c) == Get(f.rows[i], c)
  {
    Frame(if name in f.columns then f.columns else f.columns + [name],
          seq(|f.rows|, i requires 0 <= i < |f.rows| => f.rows[i][name := values[i]]))
  }

  // ---------------------------------------------------------------- numbers

  /** `pandas.to_numeric(errors='coerce')` followed by `fillna(0)` on one
      cell: numbers stay, numeric text is parsed, everything else is 0. */
  function ToNumber(c: Cell): real {
    match c
    case Num(x) => x
    case Text(s) => (match ParseDecimal(s) case Some(x) => x case None => 0.0)
    case _ => 0.0
  }

  /** The value a cell adds to a `sum`: missing values add nothing. */
  function Amount(c: Cell): real {
    if c.Num? then c.x else 0.0
  }

  /** The frame after `clean_numeric_column(df, col)`. */
  function CleanedNumeric(f: Frame, col: string): (r: Frame)
    ensures r.columns == f.columns && |r.rows| == |f.rows|
    ensures col !in f.columns ==> r == f
    ensures col in f.columns ==> forall i :: 0 <= i < |f.rows| ==>
              Get(r.rows[i], col) == Num(ToNumber(Get(f.rows[i], col)))
              && forall c :: c != col ==> Get(r.rows[i], c) == Get(f.rows[i], c)
  {
    if col in f.columns then Frame(f.columns, Map(f.rows, (r: Row) => r[col := Num(ToNumber(Get(r, col)))]))
    else f
  }

  /** The cleaned column holds numbers only: numbers are kept, text that is
      not a number and missing values become 0. */
  lemma CleanedNumericValues(f: Frame, col: string, i: int)
    requires col in f.columns && 0 <= i < |f.rows|
    ensures Get(f.rows[i], col).Num? ==> Get(CleanedNumeric(f, col).rows[i], col) == Get(f.rows[i], col)
    ensures Get(f.rows[i], col) == Null ==> Get(CleanedNumeric(f, col).rows[i], col) == Num(0.0)
    ensures Get(f.rows[i], col).Text? && ParseDecimal(Get(f.rows[i], col).s).None? ==>
              Get(CleanedNumeric(f, col).rows[i], col) == Num(0.0)
  {
  }

  /** `clean_numeric_column`: overwrites the column of the given frame in
      place and returns that same frame; an absent column changes nothing. */
  method CleanNumericColumn(df: DataFrame, col: string) returns (same: DataFrame)
    modifies df
    ensures same == df
    ensures df.View() == CleanedNumeric(old(df.View()), col)
  {
    if col in df.columns {
      df.rows := Map(df.rows, (r: Row) => r[col := Num(ToNumber(Get(r, col)))]);
    }
    same := df;
  }

  // -------------------------------------------------------------- filtering

  /** One `filter_data` condition: a value the cell must equal, or a test
      applied to the cell. */
  datatype Condition = Equals(value: Cell) | Satisfies(test: Cell -> bool)

  /** `series == value` is false on missing cells; `series.apply(test)`
      sees every cell. */
  predicate Holds(cond: Condition, c: Cell) {
    match cond
    case Equals(v) => c != Null && c == v
    case Satisfies(test) => test(c)
  }

  /** A condition on a column the frame does not have is skipped. */
  predicate Applies(cond: (string, Condition), columns: seq<string>, r: Row) {
    cond.0 !in columns || Holds(cond.1, Get(r, cond.0))
  }

  predicate MeetsAll(conds: seq<(string, Condition)>, columns: seq<string>, r: Row) {
    if conds == [] then true
    else MeetsAll(conds[..|conds| - 1], columns, r) && Applies(conds[|conds| - 1], columns, r)
  }

  lemma {:induction false} MeetsAllIff(conds: seq<(string, Condition)>, columns: seq<string>, r: Row)
    ensures MeetsAll(conds, columns, r) <==> forall i :: 0 <= i < |conds| ==> Applies(conds[i], columns, r)
  {
    if conds != [] {
      var init := conds[..|conds| - 1];
      MeetsAllIff(init, columns, r);
      assert forall i :: 0 <= i < |init| ==> init[i] == conds[i];
    }
  }

  /** Applying one more condition to the rows meeting the earlier ones
      gives the rows meeting all of them. */
  lemma FilterStep(rows: seq<Row>, conds: seq<(string, Condition)>, i: int, columns: seq<string>)
    requires 0 <= i < |conds|
    ensures conds[i].0 in columns ==>
              Filter(Filter(rows, r => MeetsAll(conds[..i], columns, r)), r => Holds(conds[i].1, Get(r, conds[i].0)))
              == Filter(rows, r => MeetsAll(conds[..i + 1], columns, r))
    ensures conds[i].0 !in columns ==>
              Filter(rows, r => MeetsAll(conds[..i], columns, r)) == Filter(rows, r => MeetsAll(conds[..i + 1], columns, r))
  {
    var before := conds[..i];
    var after := conds[..i + 1];
    assert after[..i] == before && after[i] == conds[i];
    if conds[i].0 in columns {
      FilterFilter(rows, r => MeetsAll(before, columns, r), r => Holds(conds[i].1, Get(r, conds[i].0)),
                   r => MeetsAll(after, columns, r));
    } else {
      FilterExtensional(rows, r => MeetsAll(before, columns, r), r => MeetsAll(after, columns, r));
    }
  }

  lemma FilterDataMembers(rows: seq<Row>, conds: seq<(string, Condition)>, columns: seq<string>)
    ensures IsSubsequence(Filter(rows, r => MeetsAll(conds, columns, r)), rows)
    ensures forall r :: r in Filter(rows, r => MeetsAll(conds, columns, r)) <==>
              r in rows && forall i :: 0 <= i < |conds| ==> Applies(conds[i], columns, r)
  {
    FilterIsSubsequence(rows, r => MeetsAll(conds, columns, r));
    forall r | true
      ensures MeetsAll(conds, columns, r) <==> forall i :: 0 <= i < |conds| ==> Applies(conds[i], columns, r)
    {
      MeetsAllIff(conds, columns, r);
    }
  }

  /** `filter_data`: the rows meeting every applicable condition, in their
      original order; the columns are untouched. */
  method FilterData(df: Frame, conditions: seq<(string, Condition)>) returns (result: Frame)
    ensures result.columns == df.columns
    ensures result.rows == Filter(df.rows, r => MeetsAll(conditions, df.columns, r))
    ensures IsSubsequence(result.rows, df.rows)
    ensures forall r :: r in result.rows <==>
              r in df.rows && forall i :: 0 <= i < |conditions| ==> Applies(conditions[i], df.columns, r)
  {
    result := df;
    FilterAll(df.rows, r => MeetsAll(conditions[..0], df.columns, r));
    var i := 0;
    while i < |conditions|
      invariant 0 <= i <= |conditions|
      invariant result.columns == df.columns
      invariant result.rows == Filter(df.rows, r => MeetsAll(conditions[..i], df.columns, r))
    {
      var (column, condition) := conditions[i];
      FilterStep(df.rows, conditions, i, df.columns);
      if column in result.columns {
        result := Frame(result.columns, Filter(result.rows, r => Holds(condition, Get(r, column))));
      }
      i := i + 1;
    }
    assert conditions[..i] == conditions;
    FilterDataMembers(df.rows, conditions, df.columns);
  }

  /** With no conditions, or only conditions on absent columns, every row
      is kept. */
  lemma FilterDataSkipsAbsent(df: Frame, conditions: seq<(string, Condition)>)
    requires forall i :: 0 <= i < |conditions| ==> conditions[i].0 !in df.columns
    ensures Filter(df.rows, r => MeetsAll(conditions, df.columns, r)) == df.rows
  {
    forall r | r in df.rows
      ensures MeetsAll(conditions, df.columns, r)
    {
      MeetsAllIff(conditions, df.columns, r);
    }
    FilterAll(df.rows, r => MeetsAll(conditions, df.columns, r));
  }
}
