/** The query-to-chart selector of utils/visualization.py.

    A chart is described by a `ChartSpec`: its kind, the columns it binds and,
    for bar and pie charts, the aggregated series. Drawing the figure is not
    modelled. */
module Visualization {
  import opened Text
  import opened Results
  import opened ExcelProcessor

  datatype ChartKind = Histogram | Line | Bar | Pie | Scatter

  /** Bar `means` pair each category with the mean of the value column over its
      rows; pie `counts` pair each value with the number of rows holding it. */
  datatype ChartSpec =
    | HistogramChart(column: string, title: string)
    | LineChart(x: string, y: string, title: string)
    | BarChart(category: string, value: string, means: seq<(Cell, real)>, title: string)
    | PieChart(column: string, counts: seq<(Cell, nat)>, title: string)
    | ScatterChart(x: string, y: string, title: string)

  function KindOf(c: ChartSpec): ChartKind {
    match c
    case HistogramChart(_, _) => Histogram
    case LineChart(_, _, _) => Line
    case BarChart(_, _, _, _) => Bar
    case PieChart(_, _, _) => Pie
    case ScatterChart(_, _, _) => Scatter
  }

  // ---------------------------------------------------------------------------
  // Choosing the kind

  const HistogramWords: seq<string> := ["histoqram", "paylanma"]
  const LineWords: seq<string> := ["xətti", "trend"]
  const BarWords: seq<string> := ["sütun", "bar"]
  const PieWords: seq<string> := ["pasta", "dairə"]

  /** The dispatch of `create_visualization`: lower-case the query, then test the
      keyword pairs in order; scatter when none occurs. */
  function ChartKindFor(query: string): ChartKind {
    var q := Lower(query);
    if Contains(q, "histoqram") || Contains(q, "paylanma") then Histogram
    else if Contains(q, "xətti") || Contains(q, "trend") then Line
    else if Contains(q, "sütun") || Contains(q, "bar") then Bar
    else if Contains(q, "pasta") || Contains(q, "dairə") then Pie
    else Scatter
  }

  /** The same priority written as an explicit ordered list of (kind, keywords) rules. */
  const ChartRules: seq<(ChartKind, seq<string>)> :=
    [(Histogram, HistogramWords), (Line, LineWords), (Bar, BarWords), (Pie, PieWords)]

  /** The kind of the first rule one of whose keywords occurs in `q`, else `default`. */
  function FirstMatchingRule(rules: seq<(ChartKind, seq<string>)>, q: string, default: ChartKind): ChartKind {
    if rules == [] then default
    else if HasAny(q, rules[0].1) then rules[0].0
    else FirstMatchingRule(rules[1..], q, default)
  }

  lemma HasAnyOfPair(q: string, a: string, b: string)
    ensures HasAny(q, [a, b]) <==> Contains(q, a) || Contains(q, b)
  {
    if Contains(q, a) {
      assert a in [a, b];
    }
    if Contains(q, b) {
      assert b in [a, b];
    }
  }

  /** The if/elif chain of `create_visualization` is the ordered rule list:
      histogram, then line, then bar, then pie, and scatter by default. */
  lemma ChartKindIsFirstMatchingRule(query: string)
    ensures ChartKindFor(query) == FirstMatchingRule(ChartRules, Lower(query), Scatter)
  {
    var q := Lower(query);
    HasAnyOfPair(q, "histoqram", "paylanma");
    HasAnyOfPair(q, "xətti", "trend");
    HasAnyOfPair(q, "sütun", "bar");
    HasAnyOfPair(q, "pasta", "dairə");
    var rules := ChartRules;
    assert rules[0] == (Histogram, HistogramWords) && rules[1..] == [(Line, LineWords), (Bar, BarWords), (Pie, PieWords)];
    var rest := rules[1..];
    assert rest[1..] == [(Bar, BarWords), (Pie, PieWords)];
    var rest2 := rest[1..];
    assert rest2[1..] == [(Pie, PieWords)];
    var rest3 := rest2[1..];
    assert rest3[1..] == [];
    assert FirstMatchingRule(rest3, q, Scatter) == if HasAny(q, PieWords) then Pie else Scatter;
    assert FirstMatchingRule(rest2, q, Scatter) == if HasAny(q, BarWords) then Bar else FirstMatchingRule(rest3, q, Scatter);
    assert FirstMatchingRule(rest, q, Scatter) == if HasAny(q, LineWords) then Line else FirstMatchingRule(rest2, q, Scatter);
  }

  /** The priority order spelled out: a histogram keyword always wins, and a
      query without any keyword gives a scatter plot. */
  lemma ChartPriority(query: string)
    ensures var q := Lower(query);
      && (ChartKindFor(query) == Histogram <==> HasAny(q, HistogramWords))
      && (ChartKindFor(query) == Line <==> !HasAny(q, HistogramWords) && HasAny(q, LineWords))
      && (ChartKindFor(query) == Bar <==>
            !HasAny(q, HistogramWords) && !HasAny(q, LineWords) && HasAny(q, BarWords))
      && (ChartKindFor(query) == Pie <==>
            !HasAny(q, HistogramWords) && !HasAny(q, LineWords) && !HasAny(q, BarWords) && HasAny(q, PieWords))
      && (ChartKindFor(query) == Scatter <==>
            !HasAny(q, HistogramWords) && !HasAny(q, LineWords) && !HasAny(q, BarWords) && !HasAny(q, PieWords))
  {
    var q := Lower(query);
    HasAnyOfPair(q, "histoqram", "paylanma");
    HasAnyOfPair(q, "xətti", "trend");
    HasAnyOfPair(q, "sütun", "bar");
    HasAnyOfPair(q, "pasta", "dairə");
  }

  /** Matching ignores case: a query and its lower-case form choose the same kind. */
  lemma ChartKindIgnoresCase(query: string)
    ensures ChartKindFor(Lower(query)) == ChartKindFor(query)
  {
    LowerIdempotent(query);
  }

  // ---------------------------------------------------------------------------
  // Choosing the columns

  /** The positions in `[from, |dtypes|)` whose dtype is `d`, in table order:
      `df.select_dtypes(...).columns`. */
  function IndicesOf(dtypes: seq<Dtype>, d: Dtype, from: nat): (r: seq<nat>)
    requires from <= |dtypes|
    decreases |dtypes| - from
    ensures forall k :: 0 <= k < |r| ==> from <= r[k] < |dtypes| && dtypes[r[k]] == d
    ensures forall k, l :: 0 <= k < l < |r| ==> r[k] < r[l]
  {
    if from == |dtypes| then []
    else (if dtypes[from] == d then [from] else []) + IndicesOf(dtypes, d, from + 1)
  }

  /** No column of dtype `d` is missed: every one from `from` on is listed. */
  lemma {:induction false} IndicesOfComplete(dtypes: seq<Dtype>, d: Dtype, from: nat, j: nat)
    requires from <= j < |dtypes| && dtypes[j] == d
    ensures j in IndicesOf(dtypes, d, from)
    decreases j - from
  {
    if j == from {
      assert IndicesOf(dtypes, d, from)[0] == j;
    } else {
      IndicesOfComplete(dtypes, d, from + 1, j);
    }
  }

  /** Some column has dtype `d`. */
  predicate HasColumnOf(dtypes: seq<Dtype>, d: Dtype) {
    exists j :: 0 <= j < |dtypes| && dtypes[j] == d
  }

  /** At least two columns have dtype `d`. */
  predicate HasTwoColumnsOf(dtypes: seq<Dtype>, d: Dtype) {
    exists i, j :: 0 <= i < j < |dtypes| && dtypes[i] == d && dtypes[j] == d
  }

  /** `a` is the first column of dtype `d` in table order. */
  predicate IsFirstOf(dtypes: seq<Dtype>, d: Dtype, a: int) {
    0 <= a < |dtypes| && dtypes[a] == d && forall j :: 0 <= j < a ==> dtypes[j] != d
  }

  /** `a` and `b` are the first and the second column of dtype `d`. */
  predicate AreFirstTwoOf(dtypes: seq<Dtype>, d: Dtype, a: int, b: int) {
    IsFirstOf(dtypes, d, a) && a < b < |dtypes| && dtypes[b] == d && forall j :: a < j < b ==> dtypes[j] != d
  }

  lemma {:induction false} HasColumnListed(dtypes: seq<Dtype>, d: Dtype)
    requires HasColumnOf(dtypes, d)
    ensures |IndicesOf(dtypes, d, 0)| >= 1
  {
    var j :| 0 <= j < |dtypes| && dtypes[j] == d;
    IndicesOfComplete(dtypes, d, 0, j);
  }

  lemma {:induction false} HasTwoColumnsListed(dtypes: seq<Dtype>, d: Dtype)
    requires HasTwoColumnsOf(dtypes, d)
    ensures |IndicesOf(dtypes, d, 0)| >= 2
  {
    var r := IndicesOf(dtypes, d, 0);
    var i, j :| 0 <= i < j < |dtypes| && dtypes[i] == d && dtypes[j] == d;
    IndicesOfComplete(dtypes, d, 0, i);
    IndicesOfComplete(dtypes, d, 0, j);
    var ki :| 0 <= ki < |r| && r[ki] == i;
    var kj :| 0 <= kj < |r| && r[kj] == j;
    assert ki != kj;
  }

  /** Some column has dtype `d` exactly when `select_dtypes` finds one. */
  lemma {:induction false} IndicesOfNonEmpty(dtypes: seq<Dtype>, d: Dtype)
    ensures |IndicesOf(dtypes, d, 0)| >= 1 <==> HasColumnOf(dtypes, d)
  {
    var r := IndicesOf(dtypes, d, 0);
    if HasColumnOf(dtypes, d) {
      HasColumnListed(dtypes, d);
    }
    if |r| >= 1 {
      assert 0 <= r[0] < |dtypes| && dtypes[r[0]] == d;
    }
  }

  /** Two columns have dtype `d` exactly when `select_dtypes` finds two. */
  lemma {:induction false} IndicesOfTwo(dtypes: seq<Dtype>, d: Dtype)
    ensures |IndicesOf(dtypes, d, 0)| >= 2 <==> HasTwoColumnsOf(dtypes, d)
  {
    var r := IndicesOf(dtypes, d, 0);
    if HasTwoColumnsOf(dtypes, d) {
      HasTwoColumnsListed(dtypes, d);
    }
    if |r| >= 2 {
      assert r[0] < r[1] && dtypes[r[0]] == d && dtypes[r[1]] == d;
    }
  }

  /** No column of dtype `d` lies before the `n`-th listed one and after the one
      listed before it. */
  lemma {:induction false} NoneSkipped(dtypes: seq<Dtype>, d: Dtype, n: nat, j: nat)
    requires n < |IndicesOf(dtypes, d, 0)|
    requires j < IndicesOf(dtypes, d, 0)[n] && (n == 0 || IndicesOf(dtypes, d, 0)[n - 1] < j)
    ensures dtypes[j] != d
  {
    if dtypes[j] == d {
      IndicesOfComplete(dtypes, d, 0, j);
      assert false;
    }
  }

  /** The first position `select_dtypes` lists is the first column of dtype `d`. */
  lemma {:induction false} IndicesOfFirst(dtypes: seq<Dtype>, d: Dtype)
    requires |IndicesOf(dtypes, d, 0)| >= 1
    ensures IsFirstOf(dtypes, d, IndicesOf(dtypes, d, 0)[0])
  {
    var r := IndicesOf(dtypes, d, 0);
    forall j | 0 <= j < r[0] ensures dtypes[j] != d {
      NoneSkipped(dtypes, d, 0, j);
    }
  }

  /** The first two positions `select_dtypes` lists are the first two columns of dtype `d`. */
  lemma {:induction false} IndicesOfFirstTwo(dtypes: seq<Dtype>, d: Dtype)
    requires |IndicesOf(dtypes, d, 0)| >= 2
    ensures AreFirstTwoOf(dtypes, d, IndicesOf(dtypes, d, 0)[0], IndicesOf(dtypes, d, 0)[1])
  {
    var r := IndicesOf(dtypes, d, 0);
    IndicesOfFirst(dtypes, d);
    forall j | r[0] < j < r[1] ensures dtypes[j] != d {
      NoneSkipped(dtypes, d, 1, j);
    }
  }

  // ---------------------------------------------------------------------------
  // Aggregation: `groupby().mean()` and `value_counts()`

  /** The distinct keys of `s` that are not missing, each once, in the order
      they are first seen (pandas drops missing keys when grouping and counting). */
  function DistinctKeys(s: seq<Cell>): (r: seq<Cell>)
    ensures forall x :: x in r <==> x in s && !x.Missing?
    ensures forall a, b :: 0 <= a < b < |r| ==> r[a] != r[b]
  {
    if s == [] then []
    else
      var d := DistinctKeys(s[..|s| - 1]);
      assert s == s[..|s| - 1] + [s[|s| - 1]];
      if s[|s| - 1].Missing? || s[|s| - 1] in d then d else d + [s[|s| - 1]]
  }

  /** How many elements of `s` equal `x`. */
  function Occurrences(s: seq<Cell>, x: Cell): (n: nat)
    ensures n > 0 <==> x in s
    ensures n <= |s|
  {
    if s == [] then 0
    else
      assert s == s[..|s| - 1] + [s[|s| - 1]];
      Occurrences(s[..|s| - 1], x) + (if s[|s| - 1] == x then 1 else 0)
  }

  /** The total of `values[i]` over the rows whose key is `k`. */
  function GroupSum(keys: seq<Cell>, values: seq<real>, k: Cell): real
    requires |keys| == |values|
  {
    if keys == [] then 0.0
    else GroupSum(keys[..|keys| - 1], values[..|values| - 1], k)
         + (if keys[|keys| - 1] == k then values[|values| - 1] else 0.0)
  }

  /** `df.groupby(category)[value].mean()`: one entry per category that is
      not missing. */
  function GroupMeans(keys: seq<Cell>, values: seq<real>): (r: seq<(Cell, real)>)
    requires |keys| == |values|
  {
    var d := DistinctKeys(keys);
    seq(|d|, i requires 0 <= i < |d| =>
      (d[i], GroupSum(keys, values, d[i]) / (Occurrences(keys, d[i]) as real)))
  }

  /** `df[column].value_counts()` over the distinct values `d`. */
  function Slices(d: seq<Cell>, col: seq<Cell>): (r: seq<(Cell, nat)>)
    ensures |r| == |d|
    ensures forall i :: 0 <= i < |d| ==> r[i].0 == d[i]
  {
    if d == [] then []
    else Slices(d[..|d| - 1], col) + [(d[|d| - 1], Occurrences(col, d[|d| - 1]))]
  }

  /** `df[column].value_counts()`: one slice per distinct value that is not
      missing. */
  function ValueCounts(col: seq<Cell>): seq<(Cell, nat)> {
    Slices(DistinctKeys(col), col)
  }

  /** The total of the slice sizes. */
  function SliceTotal(slices: seq<(Cell, nat)>): nat {
    if slices == [] then 0 else SliceTotal(slices[..|slices| - 1]) + slices[|slices| - 1].1
  }

  /** The number of cells of `col` whose value is among `d`, counting through `d`. */
  function CountThrough(d: seq<Cell>, col: seq<Cell>): nat {
    if d == [] then 0 else CountThrough(d[..|d| - 1], col) + Occurrences(col, d[|d| - 1])
  }

  lemma {:induction false} SliceTotalIsCountThrough(d: seq<Cell>, col: seq<Cell>)
    ensures SliceTotal(Slices(d, col)) == CountThrough(d, col)
  {
    if d != [] {
      var r := Slices(d, col);
      assert r[..|r| - 1] == Slices(d[..|d| - 1], col);
      SliceTotalIsCountThrough(d[..|d| - 1], col);
    }
  }

  /** Adding one cell to the column adds one to the count through `d` when the
      cell's value is among `d` (each value of `d` being listed once). */
  lemma {:induction false} CountThroughStep(d: seq<Cell>, col: seq<Cell>, x: Cell)
    requires forall a, b :: 0 <= a < b < |d| ==> d[a] != d[b]
    ensures CountThrough(d, col + [x]) == CountThrough(d, col) + (if x in d then 1 else 0)
  {
    if d != [] {
      var p := d[..|d| - 1];
      assert (col + [x])[..|col + [x]| - 1] == col;
      CountThroughStep(p, col, x);
      assert x in d <==> x in p || x == d[|d| - 1];
      assert x == d[|d| - 1] ==> x !in p;
    }
  }

  /** Every row whose value is not missing is counted in exactly one slice. */
  lemma {:induction false} CountThroughDistinct(col: seq<Cell>)
    ensures CountThrough(DistinctKeys(col), col) == NonNullCount(col)
  {
    if col != [] {
      var p := col[..|col| - 1];
      var x := col[|col| - 1];
      assert col == p + [x];
      var d := DistinctKeys(p);
      CountThroughDistinct(p);
      CountThroughStep(d, p, x);
      if !x.Missing? && x !in d {
        assert (d + [x])[..|d|] == d;
        assert Occurrences(p, x) == 0;
        assert CountThrough(d + [x], col) == CountThrough(d, col) + Occurrences(col, x);
      }
    }
  }

  /** The pie slices add up to the number of cells that are not missing
      (pandas' `count()`). */
  lemma ValueCountsTotal(col: seq<Cell>)
    ensures SliceTotal(ValueCounts(col)) == NonNullCount(col)
  {
    SliceTotalIsCountThrough(DistinctKeys(col), col);
    CountThroughDistinct(col);
  }

  /** Each distinct value of the column has exactly one slice, whose size is the
      number of rows holding it, and nothing else has a slice. */
  lemma ValueCountsAreCounts(col: seq<Cell>)
    ensures var r := ValueCounts(col);
      && (forall a, b :: 0 <= a < b < |r| ==> r[a].0 != r[b].0)
      && (forall x :: (exists i :: 0 <= i < |r| && r[i].0 == x) <==> x in col && !x.Missing?)
      && (forall i :: 0 <= i < |r| ==> r[i].1 == Occurrences(col, r[i].0) && r[i].1 > 0)
  {
    var d := DistinctKeys(col);
    var r := ValueCounts(col);
    SlicesCount(d, col);
    forall x | x in col && !x.Missing? ensures exists i :: 0 <= i < |r| && r[i].0 == x {
      assert x in d;
      var i :| 0 <= i < |d| && d[i] == x;
      assert r[i].0 == x;
    }
  }

  lemma {:induction false} SlicesCount(d: seq<Cell>, col: seq<Cell>)
    ensures forall i :: 0 <= i < |d| ==> Slices(d, col)[i].1 == Occurrences(col, d[i])
  {
    if d != [] {
      SlicesCount(d[..|d| - 1], col);
    }
  }

  /** Each category of the bar chart appears once, every category of the column
      appears, and its bar is the mean of the value column over its rows: the bar
      times the number of those rows is their total. */
  lemma GroupMeansAreMeans(keys: seq<Cell>, values: seq<real>)
    requires |keys| == |values|
    ensures var r := GroupMeans(keys, values);
      && (forall a, b :: 0 <= a < b < |r| ==> r[a].0 != r[b].0)
      && (forall x :: (exists i :: 0 <= i < |r| && r[i].0 == x) <==> x in keys && !x.Missing?)
      && (forall i :: 0 <= i < |r| ==>
            Occurrences(keys, r[i].0) > 0 &&
            r[i].1 * (Occurrences(keys, r[i].0) as real) == GroupSum(keys, values, r[i].0))
  {
    GroupMeansKeys(keys, values);
    GroupMeansValues(keys, values);
  }

  lemma GroupMeansKeys(keys: seq<Cell>, values: seq<real>)
    requires |keys| == |values|
    ensures var r := GroupMeans(keys, values);
      && (forall a, b :: 0 <= a < b < |r| ==> r[a].0 != r[b].0)
      && (forall x :: (exists i :: 0 <= i < |r| && r[i].0 == x) <==> x in keys && !x.Missing?)
  {
    var d := DistinctKeys(keys);
    var r := GroupMeans(keys, values);
    forall x | x in keys && !x.Missing? ensures exists i :: 0 <= i < |r| && r[i].0 == x {
      assert x in d;
      var i :| 0 <= i < |d| && d[i] == x;
      assert r[i].0 == x;
    }
  }

  lemma GroupMeansValues(keys: seq<Cell>, values: seq<real>)
    requires |keys| == |values|
    ensures var r := GroupMeans(keys, values);
      forall i :: 0 <= i < |r| ==>
        Occurrences(keys, r[i].0) > 0 &&
        r[i].1 * (Occurrences(keys, r[i].0) as real) == GroupSum(keys, values, r[i].0)
  {
    var d := DistinctKeys(keys);
    var r := GroupMeans(keys, values);
    forall i | 0 <= i < |r|
      ensures Occurrences(keys, r[i].0) > 0
      ensures r[i].1 * (Occurrences(keys, r[i].0) as real) == GroupSum(keys, values, r[i].0)
    {
      assert r[i].0 == d[i] && d[i] in d;
    }
  }


  lemma DistinctKeysOfAAB(a: Cell, b: Cell)
    requires a != b && !a.Missing? && !b.Missing?
    ensures DistinctKeys([a, a, b]) == [a, b]
  {
    assert [a][..0] == [];
    assert [a, a][..1] == [a];
    assert [a, a, b][..2] == [a, a];
    assert DistinctKeys([a]) == [a];
    assert DistinctKeys([a, a]) == [a];
  }

  /** The bars of a key column whose distinct keys are `a` and then `b`. */
  lemma GroupMeansOfTwoKeys(keys: seq<Cell>, values: seq<real>, a: Cell, b: Cell)
    requires |keys| == |values| && DistinctKeys(keys) == [a, b]
    ensures GroupMeans(keys, values) ==
      [(a, GroupSum(keys, values, a) / (Occurrences(keys, a) as real)),
       (b, GroupSum(keys, values, b) / (Occurrences(keys, b) as real))]
  {
  }

  /** The slices of the distinct values `x` and then `y`. */
  lemma SlicesOfTwo(x: Cell, y: Cell, col: seq<Cell>)
    ensures Slices([x, y], col) == [(x, Occurrences(col, x)), (y, Occurrences(col, y))]
  {
    assert [x, y][..1] == [x] && [x][..0] == [];
  }

  /** Two rows of category `a` and one of `b` give two bars: the mean of the
      two `a` values, and the `b` value. */
  lemma GroupMeansOfAAB(a: Cell, b: Cell, u: real, v: real, w: real)
    requires a != b && !a.Missing? && !b.Missing?
    ensures GroupMeans([a, a, b], [u, v, w]) == [(a, (u + v) / 2.0), (b, w)]
  {
    DistinctKeysOfAAB(a, b);
    GroupMeansOfTwoKeys([a, a, b], [u, v, w], a, b);
    OccurrencesOfAAB(a, b);
    GroupSumsOfAAB(a, b, u, v, w);
    assert (u + v) / (2 as real) == (u + v) / 2.0 && w / (1 as real) == w;
  }

  lemma OccurrencesOfAAB(a: Cell, b: Cell)
    requires a != b
    ensures Occurrences([a, a, b], a) == 2 && Occurrences([a, a, b], b) == 1
  {
    var keys := [a, a, b];
    assert keys[..2] == [a, a] && keys[..2][..1] == [a] && [a][..0] == [];
    assert Occurrences([a], a) == 1 && Occurrences([a, a], a) == 2;
    assert Occurrences([a], b) == 0 && Occurrences([a, a], b) == 0;
  }

  lemma GroupSumsOfAAB(a: Cell, b: Cell, u: real, v: real, w: real)
    requires a != b
    ensures GroupSum([a, a, b], [u, v, w], a) == u + v && GroupSum([a, a, b], [u, v, w], b) == w
  {
    var keys, values := [a, a, b], [u, v, w];
    assert keys[..2] == [a, a] && keys[..2][..1] == [a] && [a][..0] == [];
    assert values[..2] == [u, v] && values[..2][..1] == [u] && [u][..0] == [];
    assert GroupSum([], [], b) == 0.0;
    assert GroupSum([a], [u], a) == u;
    assert GroupSum([a], [u], b) == GroupSum([], [], b) + 0.0;
    assert GroupSum([a, a], [u, v], a) == u + v && GroupSum([a, a], [u, v], b) == 0.0;
  }

  /** Rows (A, 10), (A, 20), (B, 5) give the bars A = 15 and B = 5. */
  lemma GroupMeansExample()
    ensures GroupMeans([Str("A"), Str("A"), Str("B")], [10.0, 20.0, 5.0]) == [(Str("A"), 15.0), (Str("B"), 5.0)]
  {
    GroupMeansOfAAB(Str("A"), Str("B"), 10.0, 20.0, 5.0);
  }

  /** A row whose category is missing gets no bar: rows (missing, u) and
      (a, w) give the single bar a = w. */
  lemma MissingKeyGetsNoBar(a: Cell, u: real, w: real)
    requires !a.Missing?
    ensures GroupMeans([Missing, a], [u, w]) == [(a, w)]
  {
    MissingThenKey(a);
    var keys, values := [Missing, a], [u, w];
    assert keys[..1] == [Missing] && [Missing][..0] == [];
    assert values[..1] == [u] && [u][..0] == [];
    assert Occurrences([Missing], a) == 0 && Occurrences(keys, a) == 1;
    assert GroupSum([Missing], [u], a) == 0.0;
    assert GroupSum(keys, values, a) == w;
    var r := GroupMeans(keys, values);
    assert |r| == 1 && r[0] == (a, w / 1.0);
  }

  /** A missing cell gets no slice: the column missing, x gives the single
      slice x = 1. */
  lemma MissingValueGetsNoSlice(x: Cell)
    requires !x.Missing?
    ensures ValueCounts([Missing, x]) == [(x, 1)]
  {
    MissingThenKey(x);
    var col := [Missing, x];
    assert col[..1] == [Missing] && [Missing][..0] == [];
    assert Occurrences([Missing], x) == 0 && Occurrences(col, x) == 1;
    assert [x][..0] == [];
  }

  lemma MissingThenKey(a: Cell)
    requires !a.Missing?
    ensures DistinctKeys([Missing, a]) == [a]
  {
    assert [Missing, a][..1] == [Missing] && [Missing][..0] == [];
    assert DistinctKeys([Missing]) == [];
  }

  /** The column x, x, y gives the slices x = 2 and y = 1. */
  lemma ValueCountsOfXXY(x: Cell, y: Cell)
    requires x != y && !x.Missing? && !y.Missing?
    ensures ValueCounts([x, x, y]) == [(x, 2), (y, 1)]
  {
    DistinctKeysOfAAB(x, y);
    OccurrencesOfAAB(x, y);
    SlicesOfTwo(x, y, [x, x, y]);
  }

  // ---------------------------------------------------------------------------
  // The five builders

  const HistogramError: string := "Histoqram üçün rəqəmsal sütunlar tələb olunur"
  const LineError: string := "Xətti qrafik üçün ən azı iki rəqəmsal sütun tələb olunur"
  const BarError: string := "Sütun qrafiki üçün həm kateqoriyal, həm də rəqəmsal sütunlar tələb olunur"
  const PieError: string := "Pasta diaqramı üçün kateqoriyal sütunlar tələb olunur"
  const ScatterError: string := "Nöqtəli qrafik üçün ən azı iki rəqəmsal sütun tələb olunur"

  /** The values of numeric column `j`. */
  function NumberColumn(t: Table, j: nat): (values: seq<real>)
    requires WellFormed(t) && j < |t.columns| && t.dtypes[j] == Numeric
    ensures |values| == |t.rows|
  {
    seq(|t.rows|, i requires 0 <= i < |t.rows| => t.rows[i][j].value)
  }

  function CreateHistogram(t: Table): Result<ChartSpec>
    requires Shaped(t)
  {
    var numeric := IndicesOf(t.dtypes, Numeric, 0);
    if |numeric| == 0 then Failure(HistogramError)
    else
      var c := t.columns[numeric[0]];
      Success(HistogramChart(c, c + " sütununun paylanması"))
  }

  function CreateLinePlot(t: Table): Result<ChartSpec>
    requires Shaped(t)
  {
    var numeric := IndicesOf(t.dtypes, Numeric, 0);
    if |numeric| < 2 then Failure(LineError)
    else
      var x, y := t.columns[numeric[0]], t.columns[numeric[1]];
      Success(LineChart(x, y, y + " - " + x + " asılılığı"))
  }

  function CreateBarPlot(t: Table): Result<ChartSpec>
    requires WellFormed(t)
  {
    var categorical := IndicesOf(t.dtypes, Object, 0);
    var numeric := IndicesOf(t.dtypes, Numeric, 0);
    if |categorical| == 0 || |numeric| == 0 then Failure(BarError)
    else
      var c, v := categorical[0], numeric[0];
      var means := GroupMeans(Column(t, c), NumberColumn(t, v));
      Success(BarChart(t.columns[c], t.columns[v], means,
                       t.columns[c] + " üzrə " + t.columns[v] + " orta dəyərləri"))
  }

  function CreatePieChart(t: Table): Result<ChartSpec>
    requires Shaped(t)
  {
    var categorical := IndicesOf(t.dtypes, Object, 0);
    if |categorical| == 0 then Failure(PieError)
    else
      var c := categorical[0];
      Success(PieChart(t.columns[c], ValueCounts(Column(t, c)), t.columns[c] + " sütununun paylanması"))
  }

  function CreateScatterPlot(t: Table): Result<ChartSpec>
    requires Shaped(t)
  {
    var numeric := IndicesOf(t.dtypes, Numeric, 0);
    if |numeric| < 2 then Failure(ScatterError)
    else
      var x, y := t.columns[numeric[0]], t.columns[numeric[1]];
      Success(ScatterChart(x, y, y + " - " + x + " əlaqəsi"))
  }

  /** The builder of kind `k`. */
  function CreateChart(t: Table, k: ChartKind): Result<ChartSpec>
    requires WellFormed(t)
  {
    match k
    case Histogram => CreateHistogram(t)
    case Line => CreateLinePlot(t)
    case Bar => CreateBarPlot(t)
    case Pie => CreatePieChart(t)
    case Scatter => CreateScatterPlot(t)
  }

  /** `create_visualization` on a cleaned table (every table the application
      keeps has gone through `ProcessExcelFile`): the builder of the kind the
      query selects. */
  function CreateVisualization(t: Table, query: string): Result<ChartSpec>
    requires WellFormed(t) && Clean(t)
  {
    CreateChart(t, ChartKindFor(query))
  }

  /** The column requirement of each kind. */
  predicate Supports(k: ChartKind, dtypes: seq<Dtype>) {
    match k
    case Histogram => HasColumnOf(dtypes, Numeric)
    case Line => HasTwoColumnsOf(dtypes, Numeric)
    case Bar => HasColumnOf(dtypes, Object) && HasColumnOf(dtypes, Numeric)
    case Pie => HasColumnOf(dtypes, Object)
    case Scatter => HasTwoColumnsOf(dtypes, Numeric)
  }

  function ErrorFor(k: ChartKind): string {
    match k
    case Histogram => HistogramError
    case Line => LineError
    case Bar => BarError
    case Pie => PieError
    case Scatter => ScatterError
  }

  /** The histogram fails with its own message exactly when no column is numeric. */
  lemma HistogramFailure(t: Table)
    requires Shaped(t)
    ensures var r := CreateHistogram(t);
      && (r.Failure? <==> !HasColumnOf(t.dtypes, Numeric))
      && (r.Failure? ==> r.error == HistogramError)
      && (r.Success? ==> r.value.HistogramChart?)
  {
    IndicesOfNonEmpty(t.dtypes, Numeric);
  }

  /** A histogram binds the first numeric column. */
  lemma HistogramBinding(t: Table)
    requires Shaped(t) && CreateHistogram(t).Success?
    ensures exists a :: IsFirstOf(t.dtypes, Numeric, a) && CreateHistogram(t).value.column == t.columns[a]
  {
    IndicesOfFirst(t.dtypes, Numeric);
  }

  /** The line plot fails with its own message exactly when fewer than two
      columns are numeric. */
  lemma LinePlotFailure(t: Table)
    requires Shaped(t)
    ensures var r := CreateLinePlot(t);
      && (r.Failure? <==> !HasTwoColumnsOf(t.dtypes, Numeric))
      && (r.Failure? ==> r.error == LineError)
      && (r.Success? ==> r.value.LineChart?)
  {
    IndicesOfTwo(t.dtypes, Numeric);
  }

  /** A line plot has the first numeric column as x and the second as y. */
  lemma LinePlotBinding(t: Table)
    requires Shaped(t) && CreateLinePlot(t).Success?
    ensures var c := CreateLinePlot(t).value;
      exists a, b :: AreFirstTwoOf(t.dtypes, Numeric, a, b) && c.x == t.columns[a] && c.y == t.columns[b]
  {
    IndicesOfFirstTwo(t.dtypes, Numeric);
  }

  /** The scatter plot fails with its own message exactly when fewer than two
      columns are numeric. */
  lemma ScatterPlotFailure(t: Table)
    requires Shaped(t)
    ensures var r := CreateScatterPlot(t);
      && (r.Failure? <==> !HasTwoColumnsOf(t.dtypes, Numeric))
      && (r.Failure? ==> r.error == ScatterError)
      && (r.Success? ==> r.value.ScatterChart?)
  {
    IndicesOfTwo(t.dtypes, Numeric);
  }

  /** A scatter plot has the first numeric column as x and the second as y. */
  lemma ScatterPlotBinding(t: Table)
    requires Shaped(t) && CreateScatterPlot(t).Success?
    ensures var c := CreateScatterPlot(t).value;
      exists a, b :: AreFirstTwoOf(t.dtypes, Numeric, a, b) && c.x == t.columns[a] && c.y == t.columns[b]
  {
    IndicesOfFirstTwo(t.dtypes, Numeric);
  }

  /** The bar chart fails with its own message exactly when there is no object
      column or no numeric column. */
  lemma BarPlotFailure(t: Table)
    requires WellFormed(t)
    ensures var r := CreateBarPlot(t);
      && (r.Failure? <==> !HasColumnOf(t.dtypes, Object) || !HasColumnOf(t.dtypes, Numeric))
      && (r.Failure? ==> r.error == BarError)
      && (r.Success? ==> r.value.BarChart?)
  {
    IndicesOfNonEmpty(t.dtypes, Numeric);
    IndicesOfNonEmpty(t.dtypes, Object);
  }

  /** A bar chart binds the first object column and the first numeric column and
      reports the group means of the latter by the former. */
  lemma BarPlotBinding(t: Table)
    requires WellFormed(t) && CreateBarPlot(t).Success?
    ensures var c := CreateBarPlot(t).value;
      exists a, b :: IsFirstOf(t.dtypes, Object, a) && IsFirstOf(t.dtypes, Numeric, b)
        && c.category == t.columns[a] && c.value == t.columns[b]
        && c.means == GroupMeans(Column(t, a), NumberColumn(t, b))
  {
    IndicesOfFirst(t.dtypes, Numeric);
    IndicesOfFirst(t.dtypes, Object);
  }

  /** The pie chart fails with its own message exactly when no column is of
      object dtype. */
  lemma PieChartFailure(t: Table)
    requires Shaped(t)
    ensures var r := CreatePieChart(t);
      && (r.Failure? <==> !HasColumnOf(t.dtypes, Object))
      && (r.Failure? ==> r.error == PieError)
      && (r.Success? ==> r.value.PieChart?)
  {
    IndicesOfNonEmpty(t.dtypes, Object);
  }

  /** A pie chart binds the first object column and reports its value counts. */
  lemma PieChartBinding(t: Table)
    requires Shaped(t) && CreatePieChart(t).Success?
    ensures var c := CreatePieChart(t).value;
      exists a :: IsFirstOf(t.dtypes, Object, a) && c.column == t.columns[a] && c.counts == ValueCounts(Column(t, a))
  {
    IndicesOfFirst(t.dtypes, Object);
  }

  /** A table with one object column and one numeric column supports a bar chart
      over that pair but no line plot. */
  lemma OneOfEachColumn(t: Table)
    requires WellFormed(t) && t.dtypes == [Object, Numeric]
    ensures CreateLinePlot(t) == Failure(LineError)
    ensures CreateBarPlot(t).Success?
    ensures CreateBarPlot(t).value.category == t.columns[0] && CreateBarPlot(t).value.value == t.columns[1]
  {
    var numeric := IndicesOf(t.dtypes, Numeric, 0);
    assert IndicesOf(t.dtypes, Numeric, 2) == [];
    assert IndicesOf(t.dtypes, Numeric, 1) == [1];
    assert numeric == [1];
    assert IndicesOf(t.dtypes, Object, 2) == [];
    assert IndicesOf(t.dtypes, Object, 1) == [];
    assert IndicesOf(t.dtypes, Object, 0) == [0];
  }

  /** Each builder makes a chart of its own kind, or fails with its own message
      exactly when the table lacks the columns the kind needs. */
  lemma CreateChartOutcome(t: Table, k: ChartKind)
    requires WellFormed(t)
    ensures var r := CreateChart(t, k);
      && (r.Success? ==> KindOf(r.value) == k)
      && (r.Failure? <==> !Supports(k, t.dtypes))
      && (r.Failure? ==> r.error == ErrorFor(k))
  {
    match k
    case Histogram => HistogramFailure(t);
    case Line => LinePlotFailure(t);
    case Bar => BarPlotFailure(t);
    case Pie => PieChartFailure(t);
    case Scatter => ScatterPlotFailure(t);
  }

  /** The chart has the kind the query asks for, or the call fails with that
      kind's own message exactly when the table lacks the columns the kind needs:
      a failed check never falls back to another kind. */
  lemma CreateVisualizationOutcome(t: Table, query: string)
    requires WellFormed(t) && Clean(t)
    ensures var r, k := CreateVisualization(t, query), ChartKindFor(query);
      && (r.Success? ==> KindOf(r.value) == k)
      && (r.Failure? <==> !Supports(k, t.dtypes))
      && (r.Failure? ==> r.error == ErrorFor(k))
  {
    CreateChartOutcome(t, ChartKindFor(query));
  }

  /** Matching ignores case: the query and its lower-case form give the same chart. */
  lemma CreateVisualizationIgnoresCase(t: Table, query: string)
    requires WellFormed(t) && Clean(t)
    ensures CreateVisualization(t, Lower(query)) == CreateVisualization(t, query)
  {
    ChartKindIgnoresCase(query);
  }
}
