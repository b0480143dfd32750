/**
 * The first ward-level preprocessor. Survey rows are grouped by (borough,
 * month); for every question that is not one of the weighted questions the
 * answer counts of a group are weighted in place, stopping at the first answer
 * without a weight, and divided by the number of answers; the ethnicity
 * shares are appended; and finally five borough names are normalised.
 */
module WardLevel {
  import opened Wrappers
  import opened Text
  import opened PyDict
  import opened Frames
  import opened Config
  import opened DateFormat
  import opened Boroughs
  import opened Measures
  import opened SurveyTable

  /** The file the script reads. */
  const CsvFilePath: string := WardFile(UpperWardDir, "20_21")

  /** The borough column: "Borough" in the 2020-21 file, "BOROUGHNEIGHBOURHOODCODED" before. */
  function BoroughColumn(path: string): string
  {
    if Slice(path, -9, -4) == "20_21" then "Borough" else "BOROUGHNEIGHBOURHOODCODED"
  }

  /** The borough column depends only on the five characters before ".csv". */
  lemma BoroughColumnOfFile(dir: string, tag: string)
    requires |tag| == 5
    ensures BoroughColumn(WardFile(dir, tag)) ==
      if tag == "20_21" then "Borough" else "BOROUGHNEIGHBOURHOODCODED"
    ensures BoroughColumn(CsvFilePath) == "Borough"
  {
    TagBeforeCsv(dir + "PAS_ward_level_FY_", tag);
    TagBeforeCsv(UpperWardDir + "PAS_ward_level_FY_", "20_21");
  }

  /* ---------------- The weighting loop ---------------- */

  /** The position of the first answer without a weight in `w`, or the number of answers. */
  function FirstUnknown(vc: seq<(string, nat)>, w: map<string, real>): (k: nat)
    ensures k <= |vc|
    ensures forall i :: 0 <= i < k ==> vc[i].0 in w
    ensures k < |vc| ==> vc[k].0 !in w
  {
    if vc == [] || vc[0].0 !in w then 0
    else
      assert forall i :: 0 < i < |vc| ==> vc[1..][i - 1] == vc[i];
      1 + FirstUnknown(vc[1..], w)
  }

  /**
   * The counts after the loop `value_counts[ans] = value_counts[ans] *
   * weights.get(ans)`: the first answer without a weight makes the product
   * raise, which ends the loop, so it and every later answer keep their raw
   * count.
   */
  function WeightedCounts(vc: seq<(string, nat)>, w: map<string, real>): (c: seq<real>)
    ensures |c| == |vc|
  {
    var k := FirstUnknown(vc, w);
    seq(|vc|, i requires 0 <= i < |vc| =>
      if i < k then Times(vc[i].1, w[vc[i].0]) else vc[i].1 as real)
  }

  /** The weighting loop over the value counts, updating the counts in place. */
  method ApplyWeights(vc: seq<(string, nat)>, w: map<string, real>, counts: array<real>)
    requires counts.Length == |vc|
    modifies counts
    ensures forall i :: 0 <= i < FirstUnknown(vc, w) ==> counts[i] == old(counts[i]) * w[vc[i].0]
    ensures forall i :: FirstUnknown(vc, w) <= i < |vc| ==> counts[i] == old(counts[i])
  {
    var i := 0;
    while i < |vc|
      invariant 0 <= i <= FirstUnknown(vc, w)
      invariant forall k :: 0 <= k < i ==> counts[k] == old(counts[k]) * w[vc[k].0]
      invariant forall k :: i <= k < |vc| ==> counts[k] == old(counts[k])
    {
      if vc[i].0 !in w {
        break;
      }
      counts[i] := counts[i] * w[vc[i].0];
      i := i + 1;
    }
  }

  /**
   * "Total Proportion" under weight table `w`: the weighted counts summed,
   * over the number of answers; 0/0 (no answer at all in the group) gives
   * NaN.
   */
  function TotalProportion(col: seq<Cell>, w: map<string, real>): Num
  {
    var vc := ValueCounts(col);
    var summ := SumCounts(vc);
    if summ == 0 then NaN else Ratio(SumReals(WeightedCounts(vc, w)), summ)
  }

  /** Lines 60-69 for one group's answer column. */
  method WardTotalProportion(col: seq<Cell>, w: map<string, real>) returns (p: Num)
    ensures p == TotalProportion(col, w)
  {
    var vc := ValueCounts(col);
    var summ := SumCounts(vc);
    var counts := new real[|vc|](i requires 0 <= i < |vc| => vc[i].1 as real);
    ghost var raw := counts[..];
    assert raw == CountsAsReals(vc);
    ApplyWeights(vc, w, counts);
    assert counts[..] == WeightedCounts(vc, w) by {
      forall i | 0 <= i < |vc| ensures counts[i] == WeightedCounts(vc, w)[i] {
        assert raw[i] == CountsAsReals(vc)[i];
        TimesIsProduct(vc[i].1, WeightOf(w, vc[i].0));
      }
    }
    var total := SumReals(counts[..]);
    if summ == 0 {
      p := NaN;
    } else {
      p := Ratio(total, summ);
    }
  }

  /* ---------------- Properties of the proportion ---------------- */

  /**
   * The proportion is NaN exactly when the group has no answer, and otherwise
   * is over the number of answers and lies in [0, 1] for weights in [0, 1]:
   * each weighted or raw count is at most the raw count.
   */
  lemma TotalProportionBounds(col: seq<Cell>, w: map<string, real>)
    requires UnitWeights(w)
    ensures TotalProportion(col, w).NaN? <==> NonMissing(col) == 0
    ensures TotalProportion(col, w).Ratio? ==>
      InUnitInterval(TotalProportion(col, w)) && TotalProportion(col, w).den == NonMissing(col)
  {
    var vc := ValueCounts(col);
    ValueCountsShape(col);
    var wc := WeightedCounts(vc, w);
    WeightedCountsBelow(vc, w);
    SumRealsBetween(wc, CountsAsReals(vc));
    SumCountsAsReals(vc);
  }

  /** Weighting by a weight in [0, 1] never raises a count. */
  lemma WeightedCountsBelow(vc: seq<(string, nat)>, w: map<string, real>)
    requires UnitWeights(w)
    ensures forall i :: 0 <= i < |vc| ==> 0.0 <= WeightedCounts(vc, w)[i] <= CountsAsReals(vc)[i]
  {
    var wc := WeightedCounts(vc, w);
    var k := FirstUnknown(vc, w);
    forall i | 0 <= i < |vc| ensures 0.0 <= wc[i] <= CountsAsReals(vc)[i] {
      var c := vc[i].1 as real;
      assert CountsAsReals(vc)[i] == c;
      if i < k {
        TimesBounds(vc[i].1, w[vc[i].0]);
      } else {
        assert wc[i] == c;
      }
    }
  }


  /** With every answer weighted, the loop weights every count. */
  lemma {:induction false} WeightedCountsAllKnown(vc: seq<(string, nat)>, w: map<string, real>)
    requires forall i :: 0 <= i < |vc| ==> vc[i].0 in w
    ensures SumReals(WeightedCounts(vc, w)) == WeightedSum(vc, w)
  {
    if vc != [] {
      var init := vc[..|vc| - 1];
      WeightedCountsAllKnown(init, w);
      assert WeightedCounts(vc, w)[..|vc| - 1] == WeightedCounts(init, w);
    }
  }

  /**
   * When every answer of the group has a weight, the proportion is the mean
   * weight of the answers: the weights summed respondent by respondent, over
   * the number of answers.
   */
  lemma TotalProportionAllKnown(col: seq<Cell>, w: map<string, real>)
    requires forall a :: Str(a) in col ==> a in w
    requires NonMissing(col) > 0
    ensures TotalProportion(col, w) == Ratio(CellWeightSum(col, w), NonMissing(col))
  {
    var vc := ValueCounts(col);
    ValueCountsEntries(col);
    ValueCountsShape(col);
    forall i | 0 <= i < |vc| ensures vc[i].0 in w {
      assert HasKey(vc, vc[i].0);
    }
    WeightedCountsAllKnown(vc, w);
    ValueCountsWeighted(col, w);
  }

  /**
   * When the most frequent answer has no weight the loop stops before
   * weighting anything, so every count stays raw and the proportion is 1:
   * the number of answers over itself.
   */
  lemma TotalProportionMostFrequentUnknown(col: seq<Cell>, w: map<string, real>)
    requires NonMissing(col) > 0
    requires ValueCounts(col)[0].0 !in w
    ensures TotalProportion(col, w) == Ratio(NonMissing(col) as real, NonMissing(col))
  {
    var vc := ValueCounts(col);
    ValueCountsShape(col);
    assert WeightedCounts(vc, w) == CountsAsReals(vc);
    SumCountsAsReals(vc);
  }

  /**
   * An answer without a weight given by more than half of the respondents is
   * the most frequent one, so the proportion is 1 whatever the other answers.
   */
  lemma TotalProportionMajorityUnknown(col: seq<Cell>, w: map<string, real>, a: string)
    requires a !in w
    requires 2 * Count(col, a) > NonMissing(col)
    ensures TotalProportion(col, w) == Ratio(NonMissing(col) as real, NonMissing(col))
  {
    var vc := ValueCounts(col);
    ValueCountsEntries(col);
    ValueCountsShape(col);
    assert Str(a) in col;
    assert HasKey(vc, a);
    var m :| 0 <= m < |vc| && vc[m].0 == a;
    if m != 0 {
      SumCountsOfTwo(vc, 0, m);
      assert false;
    }
    TotalProportionMostFrequentUnknown(col, w);
  }

  /**
   * Two "Don't know" answers and one "Strongly disagree": the unweighted
   * "Don't know" comes first, so the proportion is 1 rather than 0.
   */
  lemma DontKnowExample()
    ensures TotalProportion([Str("Strongly disagree"), Str("Don't know"), Str("Don't know")], Weights) == Ratio(3.0, 3)
  {
    var col := [Str("Strongly disagree"), Str("Don't know"), Str("Don't know")];
    var two := [Str("Strongly disagree"), Str("Don't know")];
    assert col == two + [Str("Don't know")];
    assert two == [Str("Strongly disagree")] + [Str("Don't know")];
    assert Count(col, "Don't know") == 2;
    assert NonMissing(col) == 3;
    ExampleWeights();
    TotalProportionMajorityUnknown(col, Weights, "Don't know");
  }

  /* ---------------- The question x group loop ---------------- */

  /**
   * The row the loop body appends for one question and group, if any:
   * weighted questions are skipped, and a missing question or ethnicity
   * column raises a KeyError that is caught, so no row is appended.
   */
  function MeasureFor(q: string, columns: seq<string>, g: Group, w: map<string, real>): (r: Option<MeasureRow>)
    requires |g.rows| > 0 && UnitWeights(w)
    ensures r.Some? <==> q !in WeightedQuestions && q in columns && EthnicityColumn in columns
    ensures r.Some? ==> r.value.measure == q && r.value.borough == g.key.0 && r.value.date == g.key.1
    ensures r.Some? ==> r.value.total.NaN? || InUnitInterval(r.value.total)
  {
    if q in WeightedQuestions || q !in columns || EthnicityColumn !in columns then None
    else
      TotalProportionBounds(Column(g.rows, q), w);
      Some(MeasureRow(g.key.1, g.key.0, q, TotalProportion(Column(g.rows, q), w), EthnicShares(g.rows)))
  }

  predicate NonEmptyGroups(gs: seq<Group>)
  {
    forall j :: 0 <= j < |gs| ==> |gs[j].rows| > 0
  }

  /** What the loop body yields for one question, group by group. */
  function GroupOutputs(q: string, columns: seq<string>, gs: seq<Group>, w: map<string, real>): (os: seq<Option<MeasureRow>>)
    requires NonEmptyGroups(gs) && UnitWeights(w)
    ensures |os| == |gs|
  {
    seq(|gs|, j requires 0 <= j < |gs| => MeasureFor(q, columns, gs[j], w))
  }

  /** The rows appended for one question. */
  function QuestionRows(q: string, columns: seq<string>, gs: seq<Group>, w: map<string, real>): seq<MeasureRow>
    requires NonEmptyGroups(gs) && UnitWeights(w)
  {
    Somes(GroupOutputs(q, columns, gs, w))
  }

  /** The rows appended by the whole loop, question by question. */
  function WardRows(qs: seq<string>, columns: seq<string>, gs: seq<Group>, w: map<string, real>): seq<MeasureRow>
    requires NonEmptyGroups(gs) && UnitWeights(w)
  {
    if qs == [] then []
    else WardRows(qs[..|qs| - 1], columns, gs, w) + QuestionRows(qs[|qs| - 1], columns, gs, w)
  }

  /** The body of the inner loop: the `try` block for one question and group. */
  method MeasureStep(q: string, columns: seq<string>, g: Group, w: map<string, real>) returns (o: Option<MeasureRow>)
    requires |g.rows| > 0 && UnitWeights(w)
    ensures o == MeasureFor(q, columns, g, w)
  {
    if q in WeightedQuestions || q !in columns {
      return None;
    }
    var total := WardTotalProportion(Column(g.rows, q), w);
    if EthnicityColumn !in columns {
      return None;
    }
    o := Some(MeasureRow(g.key.1, g.key.0, q, total, EthnicShares(g.rows)));
  }

  lemma GroupOutputsSnoc(q: string, columns: seq<string>, gs: seq<Group>, w: map<string, real>, j: nat)
    requires NonEmptyGroups(gs) && UnitWeights(w) && j < |gs|
    ensures GroupOutputs(q, columns, gs[..j + 1], w) ==
      GroupOutputs(q, columns, gs[..j], w) + [MeasureFor(q, columns, gs[j], w)]
  {
    var a, b := GroupOutputs(q, columns, gs[..j + 1], w), GroupOutputs(q, columns, gs[..j], w);
    var c := b + [MeasureFor(q, columns, gs[j], w)];
    forall k | 0 <= k <= j ensures a[k] == c[k] {
      if k < j {
        assert gs[..j + 1][k] == gs[..j][k];
      } else {
        assert gs[..j + 1][k] == gs[j];
      }
    }
    assert a == c;
  }

  /** The inner loop of lines 51-95: the rows for one question, group by group. */
  method AggregateQuestion(q: string, columns: seq<string>, gs: seq<Group>, w: map<string, real>) returns (rows: seq<MeasureRow>)
    requires NonEmptyGroups(gs) && UnitWeights(w)
    ensures rows == QuestionRows(q, columns, gs, w)
  {
    rows := [];
    var j := 0;
    while j < |gs|
      invariant 0 <= j <= |gs|
      invariant rows == Somes(GroupOutputs(q, columns, gs[..j], w))
    {
      var o := MeasureStep(q, columns, gs[j], w);
      GroupOutputsSnoc(q, columns, gs, w, j);
      SomesSnoc(GroupOutputs(q, columns, gs[..j], w), o);
      if o.Some? {
        rows := rows + [o.value];
      }
      j := j + 1;
    }
    assert gs[..j] == gs;
  }

  /** Lines 51-95: for every question, for every group, append the row if one is produced. */
  method AggregateWard(qs: seq<string>, columns: seq<string>, gs: seq<Group>, w: map<string, real>) returns (results: seq<MeasureRow>)
    requires NonEmptyGroups(gs) && UnitWeights(w)
    ensures results == WardRows(qs, columns, gs, w)
  {
    results := [];
    var i := 0;
    while i < |qs|
      invariant 0 <= i <= |qs|
      invariant results == WardRows(qs[..i], columns, gs, w)
    {
      var rows := AggregateQuestion(qs[i], columns, gs, w);
      assert qs[..i + 1][..i] == qs[..i];
      results := results + rows;
      i := i + 1;
    }
    assert qs[..i] == qs;
  }

  /** A row is in the loop's output exactly when some question's outputs produce it. */
  lemma {:induction false} WardRowsMembers(qs: seq<string>, columns: seq<string>, gs: seq<Group>, w: map<string, real>, r: MeasureRow)
    requires NonEmptyGroups(gs) && UnitWeights(w)
    ensures r in WardRows(qs, columns, gs, w) <==>
      exists i :: 0 <= i < |qs| && Some(r) in GroupOutputs(qs[i], columns, gs, w)
  {
    if qs != [] {
      var init := qs[..|qs| - 1];
      WardRowsMembers(init, columns, gs, w, r);
      SomesMembers(GroupOutputs(qs[|qs| - 1], columns, gs, w), r);
      assert forall i :: 0 <= i < |init| ==> init[i] == qs[i];
    }
  }

  /** A row one question's outputs produce: its measure, its group and its proportion. */
  lemma QuestionOutputSpec(q: string, columns: seq<string>, gs: seq<Group>, w: map<string, real>, r: MeasureRow)
    requires NonEmptyGroups(gs) && UnitWeights(w)
    requires Some(r) in GroupOutputs(q, columns, gs, w)
    ensures r.measure == q && q !in WeightedQuestions && q in columns && EthnicityColumn in columns
    ensures r.total.NaN? || InUnitInterval(r.total)
    ensures exists j :: 0 <= j < |gs| && r.borough == gs[j].key.0 && r.date == gs[j].key.1
  {
    var os := GroupOutputs(q, columns, gs, w);
    var j :| 0 <= j < |os| && os[j] == Some(r);
    assert MeasureFor(q, columns, gs[j], w) == Some(r);
  }

  /**
   * Each of the loop's rows comes from a question of the list that is not
   * weighted and is a column, and from one of the groups, with a proportion
   * in [0, 1] or NaN; so none is produced without the ethnicity column.
   */
  lemma WardRowsSound(qs: seq<string>, columns: seq<string>, gs: seq<Group>, w: map<string, real>)
    requires NonEmptyGroups(gs) && UnitWeights(w)
    ensures forall r :: r in WardRows(qs, columns, gs, w) ==>
      r.measure in qs && r.measure !in WeightedQuestions && r.measure in columns
      && EthnicityColumn in columns && (r.total.NaN? || InUnitInterval(r.total))
      && exists j :: 0 <= j < |gs| && r.borough == gs[j].key.0 && r.date == gs[j].key.1
    ensures EthnicityColumn !in columns ==> WardRows(qs, columns, gs, w) == []
  {
    forall r | r in WardRows(qs, columns, gs, w)
      ensures r.measure in qs && r.measure !in WeightedQuestions && r.measure in columns
      ensures EthnicityColumn in columns
      ensures r.total.NaN? || InUnitInterval(r.total)
      ensures exists j :: 0 <= j < |gs| && r.borough == gs[j].key.0 && r.date == gs[j].key.1
    {
      WardRowsMembers(qs, columns, gs, w, r);
      var i :| 0 <= i < |qs| && Some(r) in GroupOutputs(qs[i], columns, gs, w);
      QuestionOutputSpec(qs[i], columns, gs, w, r);
    }
    if WardRows(qs, columns, gs, w) != [] {
      assert WardRows(qs, columns, gs, w)[0] in WardRows(qs, columns, gs, w);
    }
  }

  /** Every (question, group) pair that is not skipped contributes its row. */
  lemma WardRowsComplete(qs: seq<string>, columns: seq<string>, gs: seq<Group>, w: map<string, real>, i: nat, j: nat)
    requires NonEmptyGroups(gs) && UnitWeights(w)
    requires i < |qs| && j < |gs|
    requires qs[i] !in WeightedQuestions && qs[i] in columns && EthnicityColumn in columns
    ensures MeasureFor(qs[i], columns, gs[j], w).Some?
    ensures MeasureFor(qs[i], columns, gs[j], w).value in WardRows(qs, columns, gs, w)
  {
    var r := MeasureFor(qs[i], columns, gs[j], w).value;
    assert GroupOutputs(qs[i], columns, gs, w)[j] == Some(r);
    WardRowsMembers(qs, columns, gs, w, r);
  }

  /* ---------------- The whole script ---------------- */

  /** The results after the five `.loc` renames of the borough column; every other cell is kept. */
  function RenameRows(rows: seq<MeasureRow>): (r: seq<MeasureRow>)
    ensures |r| == |rows|
    ensures forall i :: 0 <= i < |rows| ==>
      r[i].date == rows[i].date && r[i].measure == rows[i].measure && r[i].total == rows[i].total &&
      r[i].shares == rows[i].shares && r[i].borough == NormaliseBorough(rows[i].borough)
  {
    seq(|rows|, i requires 0 <= i < |rows| => rows[i].(borough := NormaliseBorough(rows[i].borough)))
  }

  /** Renaming twice is renaming once. */
  lemma RenameRowsIdempotent(rows: seq<MeasureRow>)
    ensures RenameRows(RenameRows(rows)) == RenameRows(rows)
  {
    var once := RenameRows(rows);
    forall i | 0 <= i < |rows| ensures RenameRows(once)[i] == once[i] {
      NormaliseBoroughIdempotent(rows[i].borough);
    }
  }

  /**
   * What the script writes for a table read from `path`, looping over the
   * questions `qs`, or the exception it stops with.
   */
  function WardLevelOutput(path: string, qs: seq<string>, t: Table): Result<seq<MeasureRow>, RunError>
  {
    match ConvertMonthColumn(t)
    case Err(e) => Err(e)
    case Ok(t') =>
      var bc := BoroughColumn(path);
      if bc !in t'.columns then Err(KeyError(bc))
      else
        var gs := GroupBy(t'.rows, bc, MonthColumn);
        WeightsInUnitInterval();
        Ok(RenameRows(WardRows(qs, t'.columns, gs, Weights)))
  }

  /** Lines 98-103: the renames applied to the borough column of the results. */
  method RenameBoroughs(rows: seq<MeasureRow>) returns (out: seq<MeasureRow>)
    ensures out == RenameRows(rows)
  {
    var boroughs := new string[|rows|](i requires 0 <= i < |rows| => rows[i].borough);
    NormaliseBoroughColumn(boroughs);
    out := seq(|rows|, i requires 0 <= i < |rows| reads boroughs => rows[i].(borough := boroughs[i]));
  }

  /** The script from reading the table to the renamed results, over the configured questions. */
  method RunWardLevel(path: string, t: Table) returns (out: Result<seq<MeasureRow>, RunError>)
    ensures out == WardLevelOutput(path, QuestionCodes(), t)
  {
    var converted := ConvertMonthColumn(t);
    if converted.Err? {
      return Err(converted.error);
    }
    var t' := converted.value;
    var bc := BoroughColumn(path);
    if bc !in t'.columns {
      return Err(KeyError(bc));
    }
    var gs := GroupBy(t'.rows, bc, MonthColumn);
    WeightsInUnitInterval();
    var rows := AggregateWard(QuestionCodes(), t'.columns, gs, Weights);
    var renamed := RenameBoroughs(rows);
    out := Ok(renamed);
  }

  /** A group key's month is the month cell of one of the converted rows. */
  lemma GroupDateIsLabel(rows: seq<Row>, bc: string, j: nat)
    requires forall n :: 0 <= n < |rows| ==> Get(rows[n], MonthColumn).Str? && IsMonthLabel(Get(rows[n], MonthColumn).s)
    requires j < |GroupBy(rows, bc, MonthColumn)|
    ensures IsMonthLabel(GroupBy(rows, bc, MonthColumn)[j].key.1)
  {
    var gs := GroupBy(rows, bc, MonthColumn);
    GroupKeyIsRead(rows, bc, MonthColumn, j);
    var n :| 0 <= n < |rows| && Get(rows[n], bc) == Str(gs[j].key.0) && Get(rows[n], MonthColumn) == Str(gs[j].key.1);
  }

  /**
   * Every row the script writes has a "YYYY-MM" date, a normalised borough,
   * a measure that is a non-weighted question of the list, and a proportion
   * in [0, 1] or NaN.
   */
  lemma WardLevelOutputSpec(path: string, qs: seq<string>, t: Table)
    requires WardLevelOutput(path, qs, t).Ok?
    ensures forall r :: r in WardLevelOutput(path, qs, t).value ==>
      IsMonthLabel(r.date) && NormaliseBorough(r.borough) == r.borough
      && r.measure in qs && r.measure !in WeightedQuestions
      && (r.total.NaN? || InUnitInterval(r.total))
  {
    forall r | r in WardLevelOutput(path, qs, t).value
      ensures IsMonthLabel(r.date) && NormaliseBorough(r.borough) == r.borough
      ensures r.measure in qs && r.measure !in WeightedQuestions
      ensures r.total.NaN? || InUnitInterval(r.total)
    {
      WardLevelRow(path, qs, t, r);
    }
  }

  /** One written row, as above. */
  lemma WardLevelRow(path: string, qs: seq<string>, t: Table, r: MeasureRow)
    requires WardLevelOutput(path, qs, t).Ok? && r in WardLevelOutput(path, qs, t).value
    ensures IsMonthLabel(r.date) && NormaliseBorough(r.borough) == r.borough
    ensures r.measure in qs && r.measure !in WeightedQuestions
    ensures r.total.NaN? || InUnitInterval(r.total)
  {
    var t' := ConvertMonthColumn(t).value;
    var bc := BoroughColumn(path);
    var gs := GroupBy(t'.rows, bc, MonthColumn);
    WeightsInUnitInterval();
    var rows := WardRows(qs, t'.columns, gs, Weights);
    assert WardLevelOutput(path, qs, t).value == RenameRows(rows);
    var k :| 0 <= k < |rows| && r == RenameRows(rows)[k];
    var r0 := rows[k];
    assert r == r0.(borough := NormaliseBorough(r0.borough));
    NormaliseBoroughIdempotent(r0.borough);
    ConvertMonthsLabels(t.rows);
    WardRowOfTable(qs, t'.rows, t'.columns, bc, r0);
  }

  /** A result row before the renames: its month is a label of the table, its measure an unweighted question. */
  lemma WardRowOfTable(qs: seq<string>, rows: seq<Row>, columns: seq<string>, bc: string, r: MeasureRow)
    requires forall n :: 0 <= n < |rows| ==> Get(rows[n], MonthColumn).Str? && IsMonthLabel(Get(rows[n], MonthColumn).s)
    requires r in WardRows(qs, columns, GroupBy(rows, bc, MonthColumn), Weights)
    ensures IsMonthLabel(r.date) && r.measure in qs && r.measure !in WeightedQuestions
    ensures r.total.NaN? || InUnitInterval(r.total)
  {
    var gs := GroupBy(rows, bc, MonthColumn);
    WeightsInUnitInterval();
    WardRowsSound(qs, columns, gs, Weights);
    var j :| 0 <= j < |gs| && r.borough == gs[j].key.0 && r.date == gs[j].key.1;
    GroupDateIsLabel(rows, bc, j);
  }
}
