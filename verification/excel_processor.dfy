/** The spreadsheet loader and profiler of utils/excel_processor.py.

    The parser (`pd.read_excel`) is not modelled: its output is an input here, a
    `RawTable` of headers, one dtype tag per column and rows of cells. */
module ExcelProcessor {
  import opened Text
  import opened Results

  /** One cell as pandas holds it: a number, a text, +/-infinity, or missing (NaN/None/NaT). */
  datatype Cell = Num(value: real) | Str(text: string) | Inf(negative: bool) | Missing

  /** The dtypes the source tells apart: a numpy number, datetime64, and object. */
  datatype Dtype = Numeric | Datetime | Object

  /** A column header as the parser returns it: a text or an integer. */
  datatype Header = TextHeader(text: string) | IntHeader(number: int)

  /** The parser's DataFrame, before cleaning. */
  datatype RawTable = RawTable(headers: seq<Header>, dtypes: seq<Dtype>, rows: seq<seq<Cell>>)

  /** A DataFrame whose column names are texts. */
  datatype Table = Table(columns: seq<string>, dtypes: seq<Dtype>, rows: seq<seq<Cell>>)

  predicate Rectangular(width: nat, rows: seq<seq<Cell>>) {
    forall i :: 0 <= i < |rows| ==> |rows[i]| == width
  }

  /** What the parser guarantees: one dtype per header, every row as wide as the
      header row, and a numeric column holds only numbers, infinities and NaN. */
  predicate RawWellFormed(raw: RawTable) {
    && |raw.dtypes| == |raw.headers|
    && Rectangular(|raw.headers|, raw.rows)
    && forall i, j :: 0 <= i < |raw.rows| && 0 <= j < |raw.headers| && raw.dtypes[j] == Numeric ==>
         raw.rows[i][j].Num? || raw.rows[i][j].Inf? || raw.rows[i][j].Missing?
  }

  /** One dtype per column and every row as wide as the column list. */
  predicate Shaped(t: Table) {
    |t.dtypes| == |t.columns| && Rectangular(|t.columns|, t.rows)
  }

  /** A shaped table whose numeric columns hold numbers only. */
  predicate WellFormed(t: Table) {
    && Shaped(t)
    && forall i, j :: 0 <= i < |t.rows| && 0 <= j < |t.columns| && t.dtypes[j] == Numeric ==> t.rows[i][j].Num?
  }

  /** A cell that the cleaning step replaces. */
  predicate Blank(c: Cell) {
    c.Inf? || c.Missing?
  }

  /** No cell is infinite and no cell is missing. */
  predicate Clean(t: Table) {
    forall i, j :: 0 <= i < |t.rows| && 0 <= j < |t.rows[i]| ==> !Blank(t.rows[i][j])
  }

  /** Pandas' `df[column]`, by position. */
  function Column(t: Table, j: nat): (col: seq<Cell>)
    requires Shaped(t) && j < |t.columns|
    ensures |col| == |t.rows|
    ensures forall i :: 0 <= i < |t.rows| ==> col[i] == t.rows[i][j]
  {
    seq(|t.rows|, i requires 0 <= i < |t.rows| => t.rows[i][j])
  }

  /** No column name occurs twice (pandas' `df[name]` is a single column only then). */
  predicate DistinctNames(columns: seq<string>) {
    forall a, b :: 0 <= a < b < |columns| ==> columns[a] != columns[b]
  }

  // ---------------------------------------------------------------------------
  // process_excel_file

  const ErrorPrefix: string := "Excel faylı emal edilə bilmədi: "

  /** `replace([inf, -inf], nan)` followed by `fillna("")`, on one cell. */
  function CleanCell(c: Cell): Cell {
    if Blank(c) then Str("") else c
  }

  /** `columns.astype(str)` on one header. */
  function HeaderText(h: Header): string {
    match h
    case TextHeader(s) => s
    case IntHeader(n) => IntToString(n)
  }

  /** Column `j` holds a cell that `fillna("")` overwrites. */
  predicate HasBlank(rows: seq<seq<Cell>>, j: nat) {
    exists i :: 0 <= i < |rows| && j < |rows[i]| && Blank(rows[i][j])
  }

  /** The dtype pandas gives a column after `fillna("")`: writing the empty
      string into a number or datetime column turns it into an object column. */
  function FilledDtype(d: Dtype, filled: bool): Dtype {
    if filled then Object else d
  }

  /** The three cleaning steps of `process_excel_file`. */
  function Normalise(raw: RawTable): Table {
    Table(
      seq(|raw.headers|, j requires 0 <= j < |raw.headers| => HeaderText(raw.headers[j])),
      seq(|raw.dtypes|, j requires 0 <= j < |raw.dtypes| => FilledDtype(raw.dtypes[j], HasBlank(raw.rows, j))),
      seq(|raw.rows|, i requires 0 <= i < |raw.rows| =>
        seq(|raw.rows[i]|, j requires 0 <= j < |raw.rows[i]| => CleanCell(raw.rows[i][j]))))
  }

  /** `process_excel_file`: `parsed` is what `pd.read_excel` produced, or the
      message of the exception it raised. A parse failure becomes a failure whose
      message starts with the fixed prefix; a parsed table is cleaned: same rows and
      column order, no infinite or missing cell left, each blank cell turned into
      the empty text and every other cell kept, names turned into texts; a column
      without a blank cell keeps its dtype and one with a blank cell becomes an
      object column. */
  function ProcessExcelFile(parsed: Result<RawTable>): (r: Result<Table>)
    ensures r.Success? <==> parsed.Success?
    ensures r.Failure? ==> r.error == ErrorPrefix + parsed.error
    ensures r.Success? ==>
      var raw, t := parsed.value, r.value;
      && Clean(t)
      && |t.rows| == |raw.rows|
      && |t.columns| == |raw.headers|
      && (forall j :: 0 <= j < |raw.headers| ==> t.columns[j] == HeaderText(raw.headers[j]))
      && (forall i :: 0 <= i < |raw.rows| ==> |t.rows[i]| == |raw.rows[i]|)
      && (forall i, j :: 0 <= i < |raw.rows| && 0 <= j < |raw.rows[i]| ==>
            t.rows[i][j] == (if Blank(raw.rows[i][j]) then Str("") else raw.rows[i][j]))
      && |t.dtypes| == |raw.dtypes|
      && (forall j :: 0 <= j < |raw.dtypes| && !HasBlank(raw.rows, j) ==> t.dtypes[j] == raw.dtypes[j])
      && (forall j :: 0 <= j < |raw.dtypes| && HasBlank(raw.rows, j) ==> t.dtypes[j] == Object)
    ensures r.Success? && RawWellFormed(parsed.value) ==> WellFormed(r.value)
  {
    match parsed
    case Failure(e) => Failure(ErrorPrefix + e)
    case Success(raw) => Success(Normalise(raw))
  }

  /** Every failure of `process_excel_file` carries the fixed prefix. */
  lemma FailureHasPrefix(parsed: Result<RawTable>)
    requires ProcessExcelFile(parsed).Failure?
    ensures |ErrorPrefix| <= |ProcessExcelFile(parsed).error|
    ensures ProcessExcelFile(parsed).error[..|ErrorPrefix|] == ErrorPrefix
  {
  }

  /** An integer header reads back as the same integer. */
  lemma IntHeaderRoundTrip(n: int)
    ensures ParseInt(HeaderText(IntHeader(n))) == n
  {
    IntToStringRoundTrip(n);
  }

  // ---------------------------------------------------------------------------
  // get_column_statistics

  /** Pandas' `count()`: the cells that are not missing (an infinity counts). */
  function NonNullCount(col: seq<Cell>): nat {
    if col == [] then 0
    else NonNullCount(col[..|col| - 1]) + (if col[|col| - 1].Missing? then 0 else 1)
  }

  /** Pandas' `isnull().sum()`. */
  function NullCount(col: seq<Cell>): nat {
    if col == [] then 0
    else NullCount(col[..|col| - 1]) + (if col[|col| - 1].Missing? then 1 else 0)
  }

  /** Pandas' `nunique()`: the distinct values that are not missing. */
  function UniqueCount(col: seq<Cell>): nat {
    |set c | c in col && !c.Missing?|
  }

  /** Every cell is counted once, as null or as non-null. */
  lemma {:induction false} CountsAddUp(col: seq<Cell>)
    ensures NonNullCount(col) + NullCount(col) == |col|
  {
    if col != [] {
      CountsAddUp(col[..|col| - 1]);
    }
  }

  /** A clean column has no null cell. */
  lemma {:induction false} CleanColumnHasNoNulls(col: seq<Cell>)
    requires forall i :: 0 <= i < |col| ==> !Blank(col[i])
    ensures NullCount(col) == 0 && NonNullCount(col) == |col|
  {
    if col != [] {
      CleanColumnHasNoNulls(col[..|col| - 1]);
    }
  }

  /** The entry `get_column_statistics` makes for one column. The mean, std, min
      and max keys are present exactly when `hasNumericSummary` holds. */
  datatype ColumnStats = ColumnStats(
    dataType: Dtype,
    nonNullCount: nat,
    nullCount: nat,
    uniqueValues: nat,
    hasNumericSummary: bool)

  /** The statistics of column `j`. */
  function StatsOf(t: Table, j: nat): ColumnStats
    requires Shaped(t) && j < |t.columns|
  {
    var col := Column(t, j);
    ColumnStats(t.dtypes[j], NonNullCount(col), NullCount(col), UniqueCount(col), t.dtypes[j] == Numeric)
  }

  /** `get_column_statistics`: one entry per column; for each, the non-null and
      null counts add up to the row count, and the numeric keys appear exactly for
      numeric columns. */
  method GetColumnStatistics(t: Table) returns (stats: map<string, ColumnStats>)
    requires Shaped(t)
    requires DistinctNames(t.columns)
    ensures stats.Keys == set j | 0 <= j < |t.columns| :: t.columns[j]
    ensures forall j :: 0 <= j < |t.columns| ==>
      var s := stats[t.columns[j]];
      && s.dataType == t.dtypes[j]
      && s.nullCount == NullCount(Column(t, j))
      && s.nonNullCount + s.nullCount == |t.rows|
      && s.uniqueValues == UniqueCount(Column(t, j))
      && (s.hasNumericSummary <==> t.dtypes[j] == Numeric)
  {
    stats := map[];
    var k := 0;
    while k < |t.columns|
      invariant 0 <= k <= |t.columns|
      invariant stats.Keys == set j | 0 <= j < k :: t.columns[j]
      invariant forall j :: 0 <= j < k ==> stats[t.columns[j]] == StatsOf(t, j)
    {
      var col := Column(t, k);
      var entry := ColumnStats(t.dtypes[k], NonNullCount(col), NullCount(col), UniqueCount(col), false);
      if t.dtypes[k] == Numeric {
        entry := entry.(hasNumericSummary := true);
      }
      stats := stats[t.columns[k] := entry];
      k := k + 1;
    }
    forall j | 0 <= j < |t.columns|
      ensures stats[t.columns[j]].nonNullCount + stats[t.columns[j]].nullCount == |t.rows|
    {
      CountsAddUp(Column(t, j));
    }
  }

  // ---------------------------------------------------------------------------
  // detect_column_types

  /** The four labels of `detect_column_types`. */
  datatype ColumnType = NumericType | DateType | CategoricalType | TextType

  /** The kind's text in the returned dictionary. */
  function TypeName(c: ColumnType): string {
    match c
    case NumericType => "numeric"
    case DateType => "date"
    case CategoricalType => "categorical"
    case TextType => "text"
  }

  /** The classification rule, first match wins; the distinctness test compares
      with the row count times 0.5, as the source does. The labels it gives are:
      numeric exactly for numeric columns, date exactly for datetime columns,
      categorical exactly for the remaining columns with fewer than half as many
      distinct values as rows, and text for the rest. */
  function ClassifyColumn(d: Dtype, unique: nat, rows: nat): (r: ColumnType)
    ensures r == NumericType <==> d == Numeric
    ensures r == DateType <==> d == Datetime
    ensures r == CategoricalType <==> d == Object && 2 * unique < rows
    ensures r == TextType <==> d == Object && 2 * unique >= rows
  {
    if d == Numeric then NumericType
    else if d == Datetime then DateType
    else
      assert d == Object;
      HalfRule(unique, rows);
      assert (unique as real) < (rows as real) * 0.5 <==> 2 * unique < rows;
      if (unique as real) < (rows as real) * 0.5 then CategoricalType else TextType
  }

  /** The source's `nunique() < len(df) * 0.5`, exact on unbounded numbers, is
      `2 * nunique() < len(df)`. */
  lemma HalfRule(unique: nat, rows: nat)
    ensures (unique as real) < (rows as real) * 0.5 <==> 2 * unique < rows
  {
    assert (2 * unique) as real == 2.0 * (unique as real);
  }

  /** `detect_column_types`: one kind per column, the one the rule gives. */
  method DetectColumnTypes(t: Table) returns (types: map<string, ColumnType>)
    requires Shaped(t)
    requires DistinctNames(t.columns)
    ensures types.Keys == set j | 0 <= j < |t.columns| :: t.columns[j]
    ensures forall j :: 0 <= j < |t.columns| ==>
      types[t.columns[j]] == ClassifyColumn(t.dtypes[j], UniqueCount(Column(t, j)), |t.rows|)
  {
    types := map[];
    var k := 0;
    while k < |t.columns|
      invariant 0 <= k <= |t.columns|
      invariant types.Keys == set j | 0 <= j < k :: t.columns[j]
      invariant forall j :: 0 <= j < k ==>
        types[t.columns[j]] == ClassifyColumn(t.dtypes[j], UniqueCount(Column(t, j)), |t.rows|)
    {
      var kind: ColumnType;
      if t.dtypes[k] == Numeric {
        kind := NumericType;
      } else if t.dtypes[k] == Datetime {
        kind := DateType;
      } else if (UniqueCount(Column(t, k)) as real) < (|t.rows| as real) * 0.5 {
        kind := CategoricalType;
      } else {
        kind := TextType;
      }
      types := types[t.columns[k] := kind];
      k := k + 1;
    }
  }
}
