/** The prompt builders and the reply post-processor of utils/chatgpt_utils.py.
    The request to the chat service itself is not modelled: its reply is an input. */
module ChatGptUtils {
  import opened Text
  import opened ExcelProcessor

  // ---------------------------------------------------------------------------
  // process_visualization_request

  /** Words in a reply that call for a chart. */
  const ChartRequestWords: seq<string> :=
    ["vizualizasiya", "qrafik", "diaqram", "histoqram", "pasta", "xətti", "sütun"]

  /** The text appended to a reply that calls for a chart. */
  const Marker: string := " visualization"

  /** `process_visualization_request`: the reply calls for a chart exactly when
      its lower-case form holds one of the words; such a reply gets the marker
      appended and any other reply comes back unchanged. */
  function ProcessVisualizationRequest(response: string): (r: (string, bool))
    ensures r.1 <==> HasAny(Lower(response), ChartRequestWords)
    ensures r.1 ==> r.0 == response + Marker
    ensures !r.1 ==> r.0 == response
  {
    var needsViz := HasAny(Lower(response), ChartRequestWords);
    if needsViz then (response + Marker, true) else (response, false)
  }

  /** A reply flagged as needing a chart carries the word "visualization", the
      marker the chat page looks for. */
  lemma MarkedReplyHasMarker(response: string)
    ensures ProcessVisualizationRequest(response).1 ==>
              Contains(ProcessVisualizationRequest(response).0, "visualization")
  {
    if ProcessVisualizationRequest(response).1 {
      assert Marker == " " + "visualization";
      ContainsSuffix(response + " ", "visualization");
      assert response + Marker == response + " " + "visualization";
    }
  }

  /** Processing a processed reply again gives the same verdict: the marker
      neither hides a request nor creates one. */
  lemma ProcessVisualizationRequestStable(response: string)
    ensures var r := ProcessVisualizationRequest(response);
      ProcessVisualizationRequest(r.0).1 == r.1
  {
    var r := ProcessVisualizationRequest(response);
    if r.1 {
      LowerAppend(response, Marker);
      HasAnyExtend(Lower(response), Lower(Marker), ChartRequestWords);
    }
  }

  lemma HasAnyExtend(a: string, b: string, words: seq<string>)
    requires HasAny(a, words)
    ensures HasAny(a + b, words)
  {
    var k :| k in words && Contains(a, k);
    ContainsWithin([], a, b, k);
    assert [] + a + b == a + b;
  }

  // ---------------------------------------------------------------------------
  // prepare_system_message

  const NumericLabel: string := " (rəqəmsal): "
  const TextLabel: string := " (mətn): "
  const UniqueSuffix: string := " unikal dəyər"

  /** The tag of a column's info line: numeric exactly for numeric dtypes. */
  function KindLabel(d: Dtype): string {
    if d == Numeric then NumericLabel else TextLabel
  }

  /** The info line of column `j`: its name, its tag and its distinct-value count. */
  function ColumnInfoLine(t: Table, j: nat): string
    requires Shaped(t) && j < |t.columns|
  {
    t.columns[j] + KindLabel(t.dtypes[j]) + NatToString(UniqueCount(Column(t, j))) + UniqueSuffix
  }

  /** The info lines of all columns, in column order. */
  function ColumnInfo(t: Table): (lines: seq<string>)
    requires Shaped(t)
    ensures |lines| == |t.columns|
  {
    seq(|t.columns|, j requires 0 <= j < |t.columns| => ColumnInfoLine(t, j))
  }

  const Intro: string := "Sən Excel məlumatlarını analiz edən Azərbaycan dilində chatbot-san. \nMəlumatlar haqqında məlumat:\n"
  const RowCountLabel: string := "Ümumi sətir sayı: "
  const ColumnCountLabel: string := "Sütun sayı: "
  const Instructions: string :=
    "\n\nSənin vəzifən:\n"
    + "1. İstifadəçinin sualını başa düşmək\n"
    + "2. Məlumatları analiz etmək\n"
    + "3. Azərbaycan dilində cavab vermək\n"
    + "4. Lazım olduqda vizualizasiya təklif etmək\n\n"
    + "Cavablarını aşağıdakı formatlarda verə bilərsən:\n"
    + "- Sadə mətn cavabı\n"
    + "- Statistik məlumatlar\n"
    + "- Vizualizasiya təklifi (vizualizasiya açar sözü ilə)\n"
    + "- Xülasə\n\n"
    + "Əgər sualı başa düşməsən, istifadəçidən daha aydın soruşmağını xahiş et."

  /** The line stating the row count. */
  function RowCountLine(rows: nat): string {
    RowCountLabel + NatToString(rows)
  }

  /** The line stating the column count. */
  function ColumnCountLine(cols: nat): string {
    ColumnCountLabel + NatToString(cols)
  }

  /** The column lines, joined by newlines, and the instructions after them. */
  function ColumnsTail(info: seq<string>): string {
    "\n- Sütunlar:\n" + Join(info, "\n") + Instructions
  }

  /** The system message for a table with `rows` rows, `cols` columns and the
      given info lines. */
  function SystemMessage(rows: nat, cols: nat, info: seq<string>): string {
    Intro + "- " + RowCountLine(rows) + "\n- " + ColumnCountLine(cols) + ColumnsTail(info)
  }

  /** `prepare_system_message`: collects one info line per column, then fills
      the message template with the shape of the table. */
  method PrepareSystemMessage(t: Table) returns (message: string)
    requires Shaped(t)
    ensures message == SystemMessage(|t.rows|, |t.columns|, ColumnInfo(t))
  {
    var numRows := |t.rows|;
    var numCols := |t.columns|;
    var columnInfo: seq<string> := [];
    var k := 0;
    while k < |t.columns|
      invariant 0 <= k <= |t.columns|
      invariant |columnInfo| == k
      invariant forall j :: 0 <= j < k ==> columnInfo[j] == ColumnInfoLine(t, j)
    {
      var uniqueVals := UniqueCount(Column(t, k));
      var colInfo: string;
      if t.dtypes[k] == Numeric {
        colInfo := t.columns[k] + " (rəqəmsal): " + NatToString(uniqueVals) + " unikal dəyər";
      } else {
        colInfo := t.columns[k] + " (mətn): " + NatToString(uniqueVals) + " unikal dəyər";
      }
      columnInfo := columnInfo + [colInfo];
      k := k + 1;
    }
    assert columnInfo == ColumnInfo(t);
    message := SystemMessage(numRows, numCols, columnInfo);
  }

  /** Each info line reads back as the column's name, whether its dtype is
      numeric, and its number of distinct values. */
  lemma ColumnInfoLineReadsBack(t: Table, j: nat)
    requires Shaped(t) && j < |t.columns|
    ensures var line, name := ColumnInfoLine(t, j), t.columns[j];
      var tag := KindLabel(t.dtypes[j]);
      && line[..|name|] == name
      && (line[|name|..|name| + |NumericLabel|] == NumericLabel <==> t.dtypes[j] == Numeric)
      && ParseNat(line[|name| + |tag|..|line| - |UniqueSuffix|]) == UniqueCount(Column(t, j))
  {
    var line, name := ColumnInfoLine(t, j), t.columns[j];
    var tag := KindLabel(t.dtypes[j]);
    var digits := NatToString(UniqueCount(Column(t, j)));
    assert line == name + tag + digits + UniqueSuffix;
    assert line[..|name|] == name;
    assert line[|name| + |tag|..|line| - |UniqueSuffix|] == digits;
    NatToStringRoundTrip(UniqueCount(Column(t, j)));
    if t.dtypes[j] != Numeric {
      assert line[|name| + 2] == 'm';
      assert NumericLabel[2] == 'r';
    }
  }

  /** The system message holds every column's info line. */
  lemma SystemMessageListsColumns(t: Table, j: nat)
    requires Shaped(t) && j < |t.columns|
    ensures Contains(SystemMessage(|t.rows|, |t.columns|, ColumnInfo(t)), ColumnInfoLine(t, j))
  {
    var info := ColumnInfo(t);
    JoinContainsPart(info, "\n", j);
    var before := Intro + "- " + RowCountLine(|t.rows|) + "\n- " + ColumnCountLine(|t.columns|);
    InTail(before, "\n- Sütunlar:\n", Join(info, "\n"), Instructions, info[j]);
  }

  lemma InTail(a: string, b: string, c: string, d: string, k: string)
    requires Contains(c, k)
    ensures Contains(a + (b + c + d), k)
  {
    ContainsWithin(a + b, c, d, k);
    assert a + (b + c + d) == (a + b) + c + d;
  }

  /** `m[p..k]` is a run of digits ended by a newline that reads as `n`. */
  predicate NumberLineAt(m: string, p: nat, k: nat, n: nat) {
    && p <= k < |m|
    && IsDigits(m[p..k]) && m[k] == '\n' && ParseNat(m[p..k]) == n
  }

  /** `m` starts with `a`, then holds `rows` as a digit run ended by a newline,
      then, from that newline on, `b` and `cols` as another such run. As a digit
      run ends at the first newline, each number is read in one way only. */
  ghost predicate StatesCounts(m: string, a: string, rows: nat, b: string, cols: nat) {
    exists k: nat, q: nat, e: nat :: CountsAt(m, a, rows, k, b, cols, q, e)
  }

  /** `StatesCounts` with the positions where the first number ends, the second
      starts and the second ends. */
  predicate CountsAt(m: string, a: string, rows: nat, k: nat, b: string, cols: nat, q: nat, e: nat) {
    && |a| <= k && k + |b| == q && q <= e < |m|
    && m[..|a|] == a
    && NumberLineAt(m, |a|, k, rows)
    && m[k..q] == b
    && NumberLineAt(m, q, e, cols)
  }

  /** The system message states the row count and the column count: each
      follows its label as a run of digits ended by a newline, so it reads back
      as one number only. */
  lemma SystemMessageStatesShape(t: Table)
    requires Shaped(t)
    ensures StatesCounts(SystemMessage(|t.rows|, |t.columns|, ColumnInfo(t)),
                         Intro + "- " + RowCountLabel, |t.rows|, "\n- " + ColumnCountLabel, |t.columns|)
  {
    var rows, cols := |t.rows|, |t.columns|;
    var c := ColumnsTail(ColumnInfo(t));
    Regroup(Intro, "- ", RowCountLabel, NatToString(rows), "\n- ", ColumnCountLabel, NatToString(cols), c);
    TailStartsWithNewline("\n- Sütunlar:\n", Join(ColumnInfo(t), "\n"), Instructions);
    NatToStringRoundTrip(rows);
    NatToStringRoundTrip(cols);
    CountsReadBack(Intro + "- " + RowCountLabel, NatToString(rows), "\n- " + ColumnCountLabel, NatToString(cols), c, rows, cols);
  }

  /** The only counts the system message can be read as stating are the
      table's own. */
  lemma SystemMessageCountsAreExact(t: Table)
    requires Shaped(t)
    ensures forall rows: nat, cols: nat ::
      StatesCounts(SystemMessage(|t.rows|, |t.columns|, ColumnInfo(t)),
                   Intro + "- " + RowCountLabel, rows, "\n- " + ColumnCountLabel, cols)
      ==> rows == |t.rows| && cols == |t.columns|
  {
    var m := SystemMessage(|t.rows|, |t.columns|, ColumnInfo(t));
    var a, b := Intro + "- " + RowCountLabel, "\n- " + ColumnCountLabel;
    SystemMessageStatesShape(t);
    forall rows: nat, cols: nat | StatesCounts(m, a, rows, b, cols)
      ensures rows == |t.rows| && cols == |t.columns|
    {
      StatesCountsDetermined(m, a, b, rows, cols, |t.rows|, |t.columns|);
    }
  }

  /** A message states at most one pair of counts after the same texts. */
  lemma StatesCountsDetermined(m: string, a: string, b: string, r1: nat, c1: nat, r2: nat, c2: nat)
    requires StatesCounts(m, a, r1, b, c1) && StatesCounts(m, a, r2, b, c2)
    ensures r1 == r2 && c1 == c2
  {
    var k1: nat, q1: nat, e1: nat :| CountsAt(m, a, r1, k1, b, c1, q1, e1);
    var k2: nat, q2: nat, e2: nat :| CountsAt(m, a, r2, k2, b, c2, q2, e2);
    DigitRunEnd(m, |a|, k1, k2);
    DigitRunEnd(m, q1, e1, e2);
  }

  /** A digit run ended by a newline ends at the first newline. */
  lemma DigitRunEnd(m: string, p: nat, k1: nat, k2: nat)
    requires p <= k1 < |m| && p <= k2 < |m|
    requires IsDigits(m[p..k1]) && IsDigits(m[p..k2]) && m[k1] == '\n' && m[k2] == '\n'
    ensures k1 == k2
  {
    if k1 < k2 {
      assert false;
    } else if k2 < k1 {
      assert false;
    }
  }

  /** Two digit runs written between texts, the second text and the last
      starting with a newline, read back as their numbers. */
  lemma CountsReadBack(a: string, d1: string, b: string, d2: string, c: string, rows: nat, cols: nat)
    requires IsDigits(d1) && ParseNat(d1) == rows && IsDigits(d2) && ParseNat(d2) == cols
    requires |c| > 0 && c[0] == '\n' && |b| > 0 && b[0] == '\n'
    ensures StatesCounts(a + d1 + b + d2 + c, a, rows, b, cols)
  {
    var m := a + d1 + b + d2 + c;
    FiveSlices(a, d1, b, d2, c);
    var k := |a| + |d1|;
    var q, e := k + |b|, k + |b| + |d2|;
    assert NumberLineAt(m, |a|, k, rows) by {
      assert m[|a|..k] == d1;
    }
    assert NumberLineAt(m, q, e, cols) by {
      assert m[q..e] == d2;
    }
    assert m[k] == b[0] by {
      assert m[k] == m[k..q][0];
    }
    assert CountsAt(m, a, rows, k, b, cols, q, e);
  }

  lemma Regroup(x: string, y: string, l: string, d1: string, z: string, n: string, d2: string, c: string)
    ensures x + y + (l + d1) + z + (n + d2) + c == (x + y + l) + d1 + (z + n) + d2 + c
  {
  }

  lemma TailStartsWithNewline(h: string, j: string, i: string)
    requires |h| > 0 && h[0] == '\n'
    ensures |h + j + i| > 0 && (h + j + i)[0] == '\n'
  {
  }

  /** Where each of five concatenated pieces sits in the whole. */
  lemma FiveSlices(a: string, b: string, c: string, d: string, e: string)
    requires |e| > 0
    ensures var s := a + b + c + d + e;
      var p, k := |a|, |a| + |b|;
      var q, x := k + |c|, k + |c| + |d|;
      && x < |s|
      && s[..p] == a && s[p..k] == b && s[k..q] == c && s[q..x] == d && s[x] == e[0]
  {
    var s := a + b + c + d + e;
    assert s == a + (b + (c + (d + e)));
  }

  // ---------------------------------------------------------------------------
  // prepare_user_message

  const QueryPrefix: string := "İstifadəçi sualı: "
  const SampleHeading: string := "\n\nMəlumatların nümunəsi (ilk 5 sətir):\n"
  const Closing: string := "\n\nZəhmət olmasa, bu suala Azərbaycan dilində cavab ver və lazım olduqda vizualizasiya təklif et."

  /** `prepare_user_message`; `sample` stands for the rendered first five rows.
      The message starts with the prefix followed by the query verbatim, and
      carries the sample. */
  function PrepareUserMessage(query: string, sample: string): (m: string)
    ensures |QueryPrefix| + |query| <= |m|
    ensures m[..|QueryPrefix|] == QueryPrefix
    ensures m[|QueryPrefix|..|QueryPrefix| + |query|] == query
    ensures Contains(m, sample)
  {
    var m := QueryPrefix + query + SampleHeading + sample + Closing;
    assert m[..|QueryPrefix|] == QueryPrefix;
    assert m[|QueryPrefix|..|QueryPrefix| + |query|] == query;
    ContainsSelf(sample);
    ContainsWithin(QueryPrefix + query + SampleHeading, sample, Closing, sample);
    m
  }
}
