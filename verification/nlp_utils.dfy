/** The keyword-based query classifier and column extractor of utils/nlp_utils.py. */
module NlpUtils {
  import opened Text

  datatype QueryType = Summary | Statistics | Visualization | Unknown

  /** The label string `detect_query_type` returns. */
  function QueryTypeName(t: QueryType): string {
    match t
    case Summary => "summary"
    case Statistics => "statistics"
    case Visualization => "visualization"
    case Unknown => "unknown"
  }

  const SummaryWords: seq<string> := ["xülasə", "ümumi", "qısa", "məlumat"]
  const StatisticsWords: seq<string> := ["statistika", "orta", "minimum", "maksimum", "say"]
  const VisualizationWords: seq<string> := ["qrafik", "diaqram", "vizual", "göstər"]

  // ---------------------------------------------------------------------------
  // Column extraction

  /** Column `c` is named in the query, ignoring case. */
  predicate Mentions(query: string, c: string) {
    Contains(Lower(query), Lower(c))
  }

  /** The columns named in the query, in column order. */
  function MentionedColumns(query: string, columns: seq<string>): (r: seq<string>)
    ensures |r| <= |columns|
  {
    if columns == [] then []
    else
      var last := columns[|columns| - 1];
      MentionedColumns(query, columns[..|columns| - 1]) + (if Mentions(query, last) then [last] else [])
  }

  /** What `extract_columns_from_query` returns: the mentioned columns, or every
      column when none is mentioned. */
  function ExtractedColumns(query: string, columns: seq<string>): seq<string> {
    var m := MentionedColumns(query, columns);
    if m != [] then m else columns
  }

  /** `extract_columns_from_query`: scans the columns in order and keeps those
      named in the query. */
  method ExtractColumnsFromQuery(query: string, columns: seq<string>) returns (r: seq<string>)
    ensures r == ExtractedColumns(query, columns)
  {
    var mentioned: seq<string> := [];
    var i := 0;
    while i < |columns|
      invariant 0 <= i <= |columns|
      invariant mentioned == MentionedColumns(query, columns[..i])
    {
      assert columns[..i + 1][..i] == columns[..i];
      if Contains(Lower(query), Lower(columns[i])) {
        mentioned := mentioned + [columns[i]];
      }
      i := i + 1;
    }
    assert columns[..|columns|] == columns;
    if mentioned != [] {
      r := mentioned;
    } else {
      r := columns;
    }
  }

  /** A column is kept exactly when it is one of the columns and the query names it. */
  lemma {:induction false} MentionedColumnsMembership(query: string, columns: seq<string>, c: string)
    ensures c in MentionedColumns(query, columns) <==> c in columns && Mentions(query, c)
  {
    if columns != [] {
      var init := columns[..|columns| - 1];
      MentionedColumnsMembership(query, init, c);
      assert columns == init + [columns[|columns| - 1]];
    }
  }

  /** `a` is `b` with some elements removed, the rest kept in order. */
  predicate IsSubsequence(a: seq<string>, b: seq<string>)
    decreases |b|
  {
    if a == [] then true
    else if b == [] then false
    else (a[|a| - 1] == b[|b| - 1] && IsSubsequence(a[..|a| - 1], b[..|b| - 1]))
         || IsSubsequence(a, b[..|b| - 1])
  }

  /** The kept columns appear in their original order. */
  lemma {:induction false} MentionedColumnsInOrder(query: string, columns: seq<string>)
    ensures IsSubsequence(MentionedColumns(query, columns), columns)
  {
    if columns != [] {
      var init := columns[..|columns| - 1];
      var last := columns[|columns| - 1];
      var m := MentionedColumns(query, init);
      MentionedColumnsInOrder(query, init);
      if Mentions(query, last) {
        assert (m + [last])[..|m|] == m;
      } else {
        assert MentionedColumns(query, columns) == m;
      }
    }
  }

  /** The extraction is never empty when there is some column, and falls back to
      all columns exactly when no column is named. */
  lemma ExtractedColumnsFallback(query: string, columns: seq<string>)
    ensures columns != [] ==> ExtractedColumns(query, columns) != []
    ensures (forall c :: c in columns ==> !Mentions(query, c)) ==> ExtractedColumns(query, columns) == columns
    ensures (exists c :: c in columns && Mentions(query, c)) ==>
              forall c :: c in ExtractedColumns(query, columns) <==> c in columns && Mentions(query, c)
  {
    var m := MentionedColumns(query, columns);
    forall c ensures c in m <==> c in columns && Mentions(query, c) {
      MentionedColumnsMembership(query, columns, c);
    }
    if m != [] {
      assert m[0] in m;
    }
  }

  /** Extraction ignores the case of the query. */
  lemma ExtractedColumnsIgnoreCase(query: string, columns: seq<string>)
    ensures ExtractedColumns(Lower(query), columns) == ExtractedColumns(query, columns)
  {
    LowerIdempotent(query);
    assert forall c :: Mentions(Lower(query), c) == Mentions(query, c);
    MentionedSameFilter(Lower(query), query, columns);
  }

  lemma {:induction false} MentionedSameFilter(q1: string, q2: string, columns: seq<string>)
    requires forall c :: Mentions(q1, c) == Mentions(q2, c)
    ensures MentionedColumns(q1, columns) == MentionedColumns(q2, columns)
  {
    if columns != [] {
      MentionedSameFilter(q1, q2, columns[..|columns| - 1]);
    }
  }

  // ---------------------------------------------------------------------------
  // Query classification

  /** `detect_query_type`: the first keyword group that occurs in the query
      (tested as written, without lower-casing) decides the type. */
  function DetectQueryType(query: string, columns: seq<string>): (r: (QueryType, seq<string>))
    ensures r.0 == Summary <==> HasAny(query, SummaryWords)
    ensures r.0 == Statistics <==> !HasAny(query, SummaryWords) && HasAny(query, StatisticsWords)
    ensures r.0 == Unknown <==>
              !HasAny(query, SummaryWords) && !HasAny(query, StatisticsWords) && !HasAny(query, VisualizationWords)
    ensures r.0 == Unknown ==> r.1 == []
    ensures r.0 == Summary ==> r.1 == columns
    ensures r.0 == Statistics || r.0 == Visualization ==> r.1 == ExtractedColumns(query, columns)
    ensures columns != [] ==> (r.1 == [] <==> r.0 == Unknown)
  {
    ExtractedColumnsFallback(query, columns);
    if HasAny(query, SummaryWords) then (Summary, columns)
    else if HasAny(query, StatisticsWords) then (Statistics, ExtractedColumns(query, columns))
    else if HasAny(query, VisualizationWords) then (Visualization, ExtractedColumns(query, columns))
    else (Unknown, [])
  }

  /** "qrafik" is a visualisation request. */
  lemma DetectQueryTypeLowerCase(columns: seq<string>)
    ensures DetectQueryType("qrafik", columns).0 == Visualization
  {
    var q := "qrafik";
    ContainsAt(q, "qrafik", 0);
    assert "qrafik" in VisualizationWords;
    // each word of the first two groups has a letter "qrafik" lacks
    assert !HasAny(q, SummaryWords) by {
      MissingCharRulesOut(q, "xülasə", 0);
      MissingCharRulesOut(q, "ümumi", 0);
      MissingCharRulesOut(q, "qısa", 1);
      MissingCharRulesOut(q, "məlumat", 0);
    }
    assert !HasAny(q, StatisticsWords) by {
      MissingCharRulesOut(q, "statistika", 0);
      MissingCharRulesOut(q, "orta", 0);
      MissingCharRulesOut(q, "minimum", 0);
      MissingCharRulesOut(q, "maksimum", 0);
      MissingCharRulesOut(q, "say", 0);
    }
  }

  /** Keyword tests are case-sensitive: the same word in capitals matches no group. */
  lemma DetectQueryTypeUpperCase(columns: seq<string>)
    ensures DetectQueryType("QRAFIK", columns) == (Unknown, [])
  {
    var q := "QRAFIK";
    // no keyword starts with a capital letter
    assert !HasAny(q, SummaryWords) by {
      forall k | k in SummaryWords ensures !Contains(q, k) {
        MissingCharRulesOut(q, k, 0);
      }
    }
    assert !HasAny(q, StatisticsWords) by {
      forall k | k in StatisticsWords ensures !Contains(q, k) {
        MissingCharRulesOut(q, k, 0);
      }
    }
    assert !HasAny(q, VisualizationWords) by {
      forall k | k in VisualizationWords ensures !Contains(q, k) {
        MissingCharRulesOut(q, k, 0);
      }
    }
  }

  // ---------------------------------------------------------------------------
  // Summary header and visualisation response

  const RowCountPrefix: string := "Ümumi sətir sayı: "
  const ColumnCountPrefix: string := "Sütun sayı: "

  /** The first two lines of `generate_summary`. */
  function SummaryHeader(rowCount: nat, columns: seq<string>): (lines: seq<string>)
    ensures |lines| == 2
  {
    [RowCountPrefix + NatToString(rowCount), ColumnCountPrefix + NatToString(|columns|)]
  }

  /** The header reads back as the row count and the number of columns passed in. */
  lemma SummaryHeaderStatesCounts(rowCount: nat, columns: seq<string>)
    ensures var lines := SummaryHeader(rowCount, columns);
      && lines[0][..|RowCountPrefix|] == RowCountPrefix
      && ParseNat(lines[0][|RowCountPrefix|..]) == rowCount
      && lines[1][..|ColumnCountPrefix|] == ColumnCountPrefix
      && ParseNat(lines[1][|ColumnCountPrefix|..]) == |columns|
  {
    var lines := SummaryHeader(rowCount, columns);
    assert lines[0][|RowCountPrefix|..] == NatToString(rowCount);
    assert lines[1][|ColumnCountPrefix|..] == NatToString(|columns|);
    NatToStringRoundTrip(rowCount);
    NatToStringRoundTrip(|columns|);
  }

  /** `generate_visualization_response`. */
  function GenerateVisualizationResponse(): (r: string)
    ensures Contains(r, "visualization")
  {
    var lead, marker := "Görsel təqdimat hazırlanır... ", "visualization";
    ContainsSuffix(lead, marker);
    lead + marker
  }
}
