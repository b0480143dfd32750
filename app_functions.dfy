/**
 * The dashboard helpers that compute something: the "YYYY-MM" prefix of a
 * date, and the recommendation page's share of negative answers per
 * (borough, ethnic group) pair.
 */
module AppFunctions {
  import opened Wrappers
  import opened Text
  import opened Frames
  import opened DateFormat
  import opened Measures
  import opened SurveyTable

  /* ---------------- Dates ---------------- */

  /** `convert_date_format`: `date_str[:7]`, the first seven characters. */
  function MonthPrefix(s: string): (r: string)
    ensures |s| >= 7 ==> |r| == 7
    ensures |s| < 7 ==> r == s
    ensures r <= s
  {
    Take(s, 7)
  }

  /** Taking the prefix twice is taking it once; a date that starts with a "YYYY-MM" label yields that label. */
  lemma MonthPrefixSpec(s: string, l: string, rest: string)
    ensures MonthPrefix(MonthPrefix(s)) == MonthPrefix(s)
    ensures IsMonthLabel(l) ==> MonthPrefix(l + rest) == l
  {
    TakeIdempotent(s, 7);
    if IsMonthLabel(l) {
      assert (l + rest)[..7] == l;
    }
  }

  /* ---------------- Recommendation percentages ---------------- */

  /** One result row: a (borough, ethnic group) pair and its percentage as an exact ratio. */
  datatype PercentRow = PercentRow(borough: string, ethnicity: string, percentage: Num)

  /** The frame the function returns: its column names and its rows. */
  datatype PercentTable = PercentTable(columns: seq<string>, rows: seq<PercentRow>)

  /** A ratio with a positive denominator whose value lies in [0, 100]. */
  predicate InPercentRange(p: Num)
  {
    p.Ratio? && p.den > 0 && 0.0 <= p.num <= 100.0 * p.den as real
  }

  /** `df[df[col] == v]`: the rows whose cell in `col` is `v`, in order. */
  function Where(rows: seq<Row>, col: string, v: string): (r: seq<Row>)
    ensures |r| <= |rows|
    ensures forall x :: x in r <==> x in rows && Get(x, col) == Str(v)
  {
    if rows == [] then []
    else
      var init := rows[..|rows| - 1];
      var last := rows[|rows| - 1];
      assert rows == init + [last];
      if Get(last, col) == Str(v) then Where(init, col, v) + [last] else Where(init, col, v)
  }

  /** Whether a row's answer to `question` is one of `values` (exact, case-sensitive). */
  predicate AnswerIsIn(x: Row, question: string, values: seq<string>)
  {
    Get(x, question).Str? && Get(x, question).s in values
  }

  /** `df[df[question].isin(values)]`: the rows whose answer is one of `values`, in order. */
  function AnswerIn(rows: seq<Row>, question: string, values: seq<string>): (r: seq<Row>)
    ensures |r| <= |rows|
    ensures forall x :: x in r <==> x in rows && AnswerIsIn(x, question, values)
  {
    if rows == [] then []
    else
      var init := rows[..|rows| - 1];
      var last := rows[|rows| - 1];
      assert rows == init + [last];
      if AnswerIsIn(last, question, values) then AnswerIn(init, question, values) + [last]
      else AnswerIn(init, question, values)
  }

  /**
   * `Where` keeps each matching row as often as the frame holds it, drops
   * every other row, and keeps the frame's order.
   */
  lemma {:induction false} WhereFilters(rows: seq<Row>, col: string, v: string)
    ensures forall x :: multiset(Where(rows, col, v))[x] == if Get(x, col) == Str(v) then multiset(rows)[x] else 0
    ensures IsSubsequence(Where(rows, col, v), rows)
  {
    if rows != [] {
      var init, last := rows[..|rows| - 1], rows[|rows| - 1];
      assert rows == init + [last];
      WhereFilters(init, col, v);
      if Get(last, col) == Str(v) {
        SubsequenceKeep(Where(init, col, v), init, last);
      } else {
        SubsequenceSkip(Where(init, col, v), init, last);
      }
    }
  }

  /** The same for `isin`: every row with an answer among `values`, as often as it occurs, in order. */
  lemma {:induction false} AnswerInFilters(rows: seq<Row>, question: string, values: seq<string>)
    ensures forall x :: (multiset(AnswerIn(rows, question, values))[x] ==
      if AnswerIsIn(x, question, values) then multiset(rows)[x] else 0)
    ensures IsSubsequence(AnswerIn(rows, question, values), rows)
  {
    if rows != [] {
      var init, last := rows[..|rows| - 1], rows[|rows| - 1];
      assert rows == init + [last];
      AnswerInFilters(init, question, values);
      if AnswerIsIn(last, question, values) {
        SubsequenceKeep(AnswerIn(init, question, values), init, last);
      } else {
        SubsequenceSkip(AnswerIn(init, question, values), init, last);
      }
    }
  }

  /**
   * Filtering and grouping commute: the rows of the filtered frame with key
   * `k` are as many as the rows with key `k` that pass the filter.
   */
  lemma {:induction false} AnswerInGroup(rows: seq<Row>, question: string, values: seq<string>, c1: string, c2: string, k: Key)
    ensures |RowsWithKey(AnswerIn(rows, question, values), c1, c2, k)| ==
      |AnswerIn(RowsWithKey(rows, c1, c2, k), question, values)|
  {
    if rows != [] {
      var init := rows[..|rows| - 1];
      var last := rows[|rows| - 1];
      AnswerInGroup(init, question, values, c1, c2, k);
      var a := AnswerIn(init, question, values);
      var g := RowsWithKey(init, c1, c2, k);
      if AnswerIsIn(last, question, values) {
        assert (a + [last])[..|a + [last]| - 1] == a;
      }
      if KeyOf(last, c1, c2) == Some(k) {
        assert (g + [last])[..|g + [last]| - 1] == g;
      }
    }
  }

  /** The rows the counts are taken over: all of them for "All", else those of the chosen ethnic group. */
  function Selected(rows: seq<Row>, ethnicColumn: string, ethnicGroup: string): seq<Row>
  {
    if ethnicGroup != "All" then Where(rows, ethnicColumn, ethnicGroup) else rows
  }

  /**
   * The row of one (borough, ethnic group) pair: `Disagree / Total * 100`,
   * where Total is the size of the pair's group and Disagree the size of the
   * pair's group in the filtered frame, 0 when absent (`fillna(0)`).
   */
  function PercentRowOf(g: Group, matching: seq<Row>, bc: string, ec: string): PercentRow
  {
    var disagree := |RowsWithKey(matching, bc, ec, g.key)|;
    PercentRow(g.key.0, g.key.1, Ratio((100 * disagree) as real, |g.rows|))
  }

  /** One row per (borough, ethnic group) pair of `rows`, in the order of the groups. */
  function PercentRows(rows: seq<Row>, question: string, values: seq<string>, bc: string, ec: string): seq<PercentRow>
  {
    var matching := AnswerIn(rows, question, values);
    var gs := GroupBy(rows, bc, ec);
    seq(|gs|, i requires 0 <= i < |gs| => PercentRowOf(gs[i], matching, bc, ec))
  }

  /** The (borough, ethnic group) pair of a result row. */
  function PairOf(r: PercentRow): Key
  {
    (r.borough, r.ethnicity)
  }

  /**
   * The rows for a frame: one per pair present, strictly ordered by pair,
   * each holding 100 times the share of the pair's rows whose answer is one
   * of `values`, which lies in [0, 100] and is 0 exactly when none is.
   */
  lemma PercentRowsSpec(rows: seq<Row>, question: string, values: seq<string>, bc: string, ec: string)
    ensures var out := PercentRows(rows, question, values, bc, ec);
      forall i, j :: 0 <= i < j < |out| ==> KeyLess(PairOf(out[i]), PairOf(out[j]))
    ensures var out := PercentRows(rows, question, values, bc, ec);
      forall k :: (exists i :: 0 <= i < |out| && PairOf(out[i]) == k) <==>
        (exists n :: 0 <= n < |rows| && KeyOf(rows[n], bc, ec) == Some(k))
    ensures var out := PercentRows(rows, question, values, bc, ec);
      forall i :: 0 <= i < |out| ==>
        var group := RowsWithKey(rows, bc, ec, PairOf(out[i]));
        out[i].percentage == Ratio((100 * |AnswerIn(group, question, values)|) as real, |group|)
    ensures var out := PercentRows(rows, question, values, bc, ec);
      forall i :: 0 <= i < |out| ==> InPercentRange(out[i].percentage)
    ensures var out := PercentRows(rows, question, values, bc, ec);
      forall i :: 0 <= i < |out| ==>
        (out[i].percentage.num == 0.0 <==>
         forall x :: x in RowsWithKey(rows, bc, ec, PairOf(out[i])) ==> !AnswerIsIn(x, question, values))
  {
    var matching := AnswerIn(rows, question, values);
    var gs := GroupBy(rows, bc, ec);
    GroupByMembers(rows, bc, ec);
    var out := PercentRows(rows, question, values, bc, ec);
    assert forall i :: 0 <= i < |out| ==> PairOf(out[i]) == gs[i].key;
    forall i | 0 <= i < |out|
      ensures var group := RowsWithKey(rows, bc, ec, PairOf(out[i]));
        out[i].percentage == Ratio((100 * |AnswerIn(group, question, values)|) as real, |group|)
      ensures InPercentRange(out[i].percentage)
      ensures out[i].percentage.num == 0.0 <==>
        forall x :: x in RowsWithKey(rows, bc, ec, PairOf(out[i])) ==> !AnswerIsIn(x, question, values)
    {
      var group := gs[i].rows;
      assert group == RowsWithKey(rows, bc, ec, gs[i].key);
      AnswerInGroup(rows, question, values, bc, ec, gs[i].key);
      var hits := AnswerIn(group, question, values);
      if hits != [] {
        assert hits[0] in hits;
      }
      if exists x :: x in group && AnswerIsIn(x, question, values) {
        var x :| x in group && AnswerIsIn(x, question, values);
        assert x in hits;
      }
    }
  }

  /**
   * `calculate_percentages_recpage`: an empty frame with the three columns
   * when the question is not a column; otherwise the rows of the chosen
   * ethnic group ("All" keeps every row), grouped by (borough, ethnic group).
   */
  function CalculatePercentages(t: Table, question: string, values: seq<string>, ethnicGroup: string,
                                bc: string, ec: string): (r: Result<PercentTable, RunError>)
    ensures question !in t.columns ==> r.Ok? && r.value.rows == []
    ensures r.Ok? ==> r.value.columns == [bc, ec, "Percentage"]
    ensures r.Err? <==> question in t.columns && (bc !in t.columns || ec !in t.columns)
  {
    if question !in t.columns then Ok(PercentTable([bc, ec, "Percentage"], []))
    else if ethnicGroup != "All" && ec !in t.columns then Err(KeyError(ec))
    else if bc !in t.columns then Err(KeyError(bc))
    else if ec !in t.columns then Err(KeyError(ec))
    else
      var rows := Selected(t.rows, ec, ethnicGroup);
      Ok(PercentTable([bc, ec, "Percentage"], PercentRows(rows, question, values, bc, ec)))
  }

  /**
   * The result for a present question: the rows `PercentRowsSpec` describes,
   * for the chosen ethnic group's rows; every row then names that group.
   */
  lemma CalculatePercentagesSpec(t: Table, question: string, values: seq<string>, ethnicGroup: string,
                                 bc: string, ec: string)
    requires CalculatePercentages(t, question, values, ethnicGroup, bc, ec).Ok?
    requires question in t.columns
    ensures CalculatePercentages(t, question, values, ethnicGroup, bc, ec).value.rows ==
      PercentRows(Selected(t.rows, ec, ethnicGroup), question, values, bc, ec)
    ensures ethnicGroup != "All" ==>
      var out := CalculatePercentages(t, question, values, ethnicGroup, bc, ec).value.rows;
      forall i :: 0 <= i < |out| ==> out[i].ethnicity == ethnicGroup
  {
    var rows := Selected(t.rows, ec, ethnicGroup);
    var out := PercentRows(rows, question, values, bc, ec);
    if ethnicGroup != "All" {
      var gs := GroupBy(rows, bc, ec);
      forall i | 0 <= i < |out| ensures out[i].ethnicity == ethnicGroup {
        var x := gs[i].rows[0];
        assert x in gs[i].rows;
        assert KeyOf(x, bc, ec) == Some(gs[i].key);
      }
    }
  }
}
