/**
 * The second ward-level preprocessor. It groups the same survey table by
 * (borough, month), but computes "Total Proportion" as the sum over the
 * distinct answers of their normalised frequency times `weights.get(answer,
 * 0)`: an answer without a weight contributes 0, every question (the
 * weighted ones included) is handled the same way, and the borough names are
 * written out as they were read.
 */
module WardLevelNormalised {
  import opened Wrappers
  import opened PyDict
  import opened Frames
  import opened Config
  import opened DateFormat
  import opened Measures
  import opened SurveyTable
  import WardLevel

  /* ---------------- The proportion ---------------- */

  /**
   * `sum(value_counts(normalize=True)[c] * weights.get(c, 0) for c in
   * value_counts.index)`: each frequency is a count over the number of
   * answers, so the sum is the weighted count sum over that number. With no
   * answer the generator is empty and the sum is 0.
   */
  function NormalisedProportion(col: seq<Cell>, w: map<string, real>): (p: Num)
    ensures p.Ratio? && p.den > 0
    ensures NonMissing(col) > 0 ==> p.den == NonMissing(col)
    ensures NonMissing(col) == 0 ==> p.num == 0.0
  {
    var vc := ValueCounts(col);
    ValueCountsShape(col);
    var n := SumCounts(vc);
    if n == 0 then Ratio(0.0, 1) else Ratio(WeightedSum(vc, w), n)
  }

  /**
   * The proportion is the mean weight of the respondents' answers, an answer
   * without a weight counting as 0.
   */
  lemma NormalisedProportionIsMeanWeight(col: seq<Cell>, w: map<string, real>)
    requires NonMissing(col) > 0
    ensures NormalisedProportion(col, w) == Ratio(CellWeightSum(col, w), NonMissing(col))
  {
    ValueCountsShape(col);
    ValueCountsWeighted(col, w);
  }

  /** Frequencies summing to one and weights in [0, 1] keep the proportion in [0, 1]. */
  lemma NormalisedProportionBounds(col: seq<Cell>, w: map<string, real>)
    requires UnitWeights(w)
    ensures InUnitInterval(NormalisedProportion(col, w))
  {
    if NonMissing(col) > 0 {
      NormalisedProportionIsMeanWeight(col, w);
      CellWeightSumBounds(col, w);
    }
  }

  /**
   * An answer without a weight adds nothing to the weighted sum but still
   * counts as an answer, so it pulls the proportion towards 0.
   */
  lemma UnknownAnswerWeighsZero(col: seq<Cell>, w: map<string, real>, a: string)
    requires a !in w
    ensures NormalisedProportion(col + [Str(a)], w) == Ratio(CellWeightSum(col, w), NonMissing(col) + 1)
  {
    var col' := col + [Str(a)];
    assert col'[..|col|] == col;
    NonMissingSnoc(col, Str(a));
    NormalisedProportionIsMeanWeight(col', w);
  }

  /**
   * When every answer has a weight, the two preprocessors compute the same
   * proportion.
   */
  lemma AgreesWithFirstScriptWhenAllKnown(col: seq<Cell>, w: map<string, real>)
    requires forall a :: Str(a) in col ==> a in w
    requires NonMissing(col) > 0
    ensures NormalisedProportion(col, w) == WardLevel.TotalProportion(col, w)
  {
    NormalisedProportionIsMeanWeight(col, w);
    WardLevel.TotalProportionAllKnown(col, w);
  }

  /** Two "Strongly agree" and one "Disagree": (1 + 1 + 0.25) / 3 = 0.75. */
  lemma AgreementExample()
    ensures NormalisedProportion([Str("Strongly agree"), Str("Strongly agree"), Str("Disagree")], Weights)
      == Ratio(2.25, 3)
  {
    var col := [Str("Strongly agree"), Str("Strongly agree"), Str("Disagree")];
    ExampleWeights();
    assert col[..2][..1][..0] == [];
    assert CellWeightSum(col[..2][..1], Weights) == 1.0;
    assert CellWeightSum(col[..2], Weights) == 2.0;
    assert CellWeightSum(col, Weights) == 2.25;
    assert NonMissing(col) == 3;
    NormalisedProportionIsMeanWeight(col, Weights);
  }

  /**
   * One "Strongly disagree" and two "Don't know": this preprocessor weighs the
   * unknown answers 0 and gives 0, where the first one stops weighting at the
   * more frequent "Don't know" and gives 1.
   */
  lemma DontKnowDisagreement()
    ensures NormalisedProportion([Str("Strongly disagree"), Str("Don't know"), Str("Don't know")], Weights)
      == Ratio(0.0, 3)
    ensures WardLevel.TotalProportion([Str("Strongly disagree"), Str("Don't know"), Str("Don't know")], Weights)
      == Ratio(3.0, 3)
  {
    var col := [Str("Strongly disagree"), Str("Don't know"), Str("Don't know")];
    ExampleWeights();
    assert col[..2][..1][..0] == [];
    assert CellWeightSum(col[..2][..1], Weights) == 0.0;
    assert CellWeightSum(col[..2], Weights) == 0.0;
    assert CellWeightSum(col, Weights) == 0.0;
    assert NonMissing(col) == 3;
    NormalisedProportionIsMeanWeight(col, Weights);
    WardLevel.DontKnowExample();
  }

  /* ---------------- The question x group loop ---------------- */

  /**
   * The row the loop body appends for one question and group, if any: both
   * branches of the weighted-question test compute the same value, so only a
   * missing question or ethnicity column (a caught KeyError) yields none.
   */
  function NormalisedMeasureFor(q: string, columns: seq<string>, g: Group, w: map<string, real>): (r: Option<MeasureRow>)
    requires |g.rows| > 0 && UnitWeights(w)
    ensures r.Some? <==> q in columns && EthnicityColumn in columns
    ensures r.Some? ==> r.value.measure == q && r.value.borough == g.key.0 && r.value.date == g.key.1
    ensures r.Some? ==> InUnitInterval(r.value.total) && r.value.shares.size == |g.rows|
  {
    if q !in columns || EthnicityColumn !in columns then None
    else
      NormalisedProportionBounds(Column(g.rows, q), w);
      Some(MeasureRow(g.key.1, g.key.0, q, NormalisedProportion(Column(g.rows, q), w), EthnicShares(g.rows)))
  }

  /** The weighted questions, skipped by the first preprocessor, get rows here. */
  lemma WeightedQuestionsKept(q: string, columns: seq<string>, g: Group, w: map<string, real>)
    requires |g.rows| > 0 && UnitWeights(w)
    requires q in WeightedQuestions && q in columns && EthnicityColumn in columns
    ensures NormalisedMeasureFor(q, columns, g, w).Some?
    ensures WardLevel.MeasureFor(q, columns, g, w).None?
  {
  }

  /** What the loop body yields for one question, group by group. */
  function NormalisedOutputs(q: string, columns: seq<string>, gs: seq<Group>, w: map<string, real>): (os: seq<Option<MeasureRow>>)
    requires WardLevel.NonEmptyGroups(gs) && UnitWeights(w)
    ensures |os| == |gs|
  {
    seq(|gs|, j requires 0 <= j < |gs| => NormalisedMeasureFor(q, columns, gs[j], w))
  }

  /** The rows appended for one question. */
  function NormalisedQuestionRows(q: string, columns: seq<string>, gs: seq<Group>, w: map<string, real>): seq<MeasureRow>
    requires WardLevel.NonEmptyGroups(gs) && UnitWeights(w)
  {
    Somes(NormalisedOutputs(q, columns, gs, w))
  }

  /** The rows appended by the whole loop, question by question. */
  function NormalisedRows(qs: seq<string>, columns: seq<string>, gs: seq<Group>, w: map<string, real>): seq<MeasureRow>
    requires WardLevel.NonEmptyGroups(gs) && UnitWeights(w)
  {
    if qs == [] then []
    else NormalisedRows(qs[..|qs| - 1], columns, gs, w) + NormalisedQuestionRows(qs[|qs| - 1], columns, gs, w)
  }

  /** The body of the inner loop: the `try` block for one question and group. */
  method NormalisedStep(q: string, columns: seq<string>, g: Group, w: map<string, real>) returns (o: Option<MeasureRow>)
    requires |g.rows| > 0 && UnitWeights(w)
    ensures o == NormalisedMeasureFor(q, columns, g, w)
  {
    if q !in columns {
      return None;
    }
    var total := NormalisedProportion(Column(g.rows, q), w);
    if EthnicityColumn !in columns {
      return None;
    }
    o := Some(MeasureRow(g.key.1, g.key.0, q, total, EthnicShares(g.rows)));
  }

  lemma NormalisedOutputsSnoc(q: string, columns: seq<string>, gs: seq<Group>, w: map<string, real>, j: nat)
    requires WardLevel.NonEmptyGroups(gs) && UnitWeights(w) && j < |gs|
    ensures NormalisedOutputs(q, columns, gs[..j + 1], w) ==
      NormalisedOutputs(q, columns, gs[..j], w) + [NormalisedMeasureFor(q, columns, gs[j], w)]
  {
    var a, b := NormalisedOutputs(q, columns, gs[..j + 1], w), NormalisedOutputs(q, columns, gs[..j], w);
    var c := b + [NormalisedMeasureFor(q, columns, gs[j], w)];
    forall k | 0 <= k <= j ensures a[k] == c[k] {
      if k < j {
        assert gs[..j + 1][k] == gs[..j][k];
      } else {
        assert gs[..j + 1][k] == gs[j];
      }
    }
    assert a == c;
  }

  /** The inner loop of lines 74-109: the rows for one question, group by group. */
  method AggregateNormalisedQuestion(q: string, columns: seq<string>, gs: seq<Group>, w: map<string, real>)
    returns (rows: seq<MeasureRow>)
    requires WardLevel.NonEmptyGroups(gs) && UnitWeights(w)
    ensures rows == NormalisedQuestionRows(q, columns, gs, w)
  {
    rows := [];
    var j := 0;
    while j < |gs|
      invariant 0 <= j <= |gs|
      invariant rows == Somes(NormalisedOutputs(q, columns, gs[..j], w))
    {
      var o := NormalisedStep(q, columns, gs[j], w);
      NormalisedOutputsSnoc(q, columns, gs, w, j);
      SomesSnoc(NormalisedOutputs(q, columns, gs[..j], w), o);
      if o.Some? {
        rows := rows + [o.value];
      }
      j := j + 1;
    }
    assert gs[..j] == gs;
  }

  /** Lines 73-109: for every question, for every group, append the row if one is produced. */
  method AggregateNormalised(qs: seq<string>, columns: seq<string>, gs: seq<Group>, w: map<string, real>)
    returns (results: seq<MeasureRow>)
    requires WardLevel.NonEmptyGroups(gs) && UnitWeights(w)
    ensures results == NormalisedRows(qs, columns, gs, w)
  {
    results := [];
    var i := 0;
    while i < |qs|
      invariant 0 <= i <= |qs|
      invariant results == NormalisedRows(qs[..i], columns, gs, w)
    {
      var rows := AggregateNormalisedQuestion(qs[i], columns, gs, w);
      assert qs[..i + 1][..i] == qs[..i];
      results := results + rows;
      i := i + 1;
    }
    assert qs[..i] == qs;
  }

  /** A row is in the loop's output exactly when some question's outputs produce it. */
  lemma {:induction false} NormalisedRowsMembers(qs: seq<string>, columns: seq<string>, gs: seq<Group>, w: map<string, real>, r: MeasureRow)
    requires WardLevel.NonEmptyGroups(gs) && UnitWeights(w)
    ensures r in NormalisedRows(qs, columns, gs, w) <==>
      exists i :: 0 <= i < |qs| && Some(r) in NormalisedOutputs(qs[i], columns, gs, w)
  {
    if qs != [] {
      var init := qs[..|qs| - 1];
      NormalisedRowsMembers(init, columns, gs, w, r);
      SomesMembers(NormalisedOutputs(qs[|qs| - 1], columns, gs, w), r);
      assert forall i :: 0 <= i < |init| ==> init[i] == qs[i];
    }
  }

  /**
   * Each of the loop's rows comes from a question of the list that is a
   * column, and from one of the groups, with a proportion in [0, 1]; none is
   * produced without the ethnicity column.
   */
  lemma NormalisedRowsSound(qs: seq<string>, columns: seq<string>, gs: seq<Group>, w: map<string, real>)
    requires WardLevel.NonEmptyGroups(gs) && UnitWeights(w)
    ensures forall r :: r in NormalisedRows(qs, columns, gs, w) ==>
      r.measure in qs && r.measure in columns && EthnicityColumn in columns && InUnitInterval(r.total)
      && exists j :: 0 <= j < |gs| && r.borough == gs[j].key.0 && r.date == gs[j].key.1
    ensures EthnicityColumn !in columns ==> NormalisedRows(qs, columns, gs, w) == []
  {
    forall r | r in NormalisedRows(qs, columns, gs, w)
      ensures r.measure in qs && r.measure in columns && EthnicityColumn in columns
      ensures InUnitInterval(r.total)
      ensures exists j :: 0 <= j < |gs| && r.borough == gs[j].key.0 && r.date == gs[j].key.1
    {
      NormalisedRowsMembers(qs, columns, gs, w, r);
      var i :| 0 <= i < |qs| && Some(r) in NormalisedOutputs(qs[i], columns, gs, w);
      var os := NormalisedOutputs(qs[i], columns, gs, w);
      var j :| 0 <= j < |os| && os[j] == Some(r);
      assert NormalisedMeasureFor(qs[i], columns, gs[j], w) == Some(r);
    }
    if NormalisedRows(qs, columns, gs, w) != [] {
      assert NormalisedRows(qs, columns, gs, w)[0] in NormalisedRows(qs, columns, gs, w);
    }
  }

  /** With the ethnicity column and the question present, every group yields its row. */
  lemma QuestionRowsFull(q: string, columns: seq<string>, gs: seq<Group>, w: map<string, real>)
    requires WardLevel.NonEmptyGroups(gs) && UnitWeights(w)
    requires EthnicityColumn in columns && q in columns
    ensures |NormalisedQuestionRows(q, columns, gs, w)| == |gs|
    ensures forall j :: 0 <= j < |gs| ==>
      NormalisedMeasureFor(q, columns, gs[j], w) == Some(NormalisedQuestionRows(q, columns, gs, w)[j])
  {
    var os := NormalisedOutputs(q, columns, gs, w);
    assert forall j :: 0 <= j < |os| ==> os[j] == NormalisedMeasureFor(q, columns, gs[j], w);
    SomesAllSome(os);
  }

  /** The loop's rows, question by question. */
  function QuestionBlocks(qs: seq<string>, columns: seq<string>, gs: seq<Group>, w: map<string, real>): (b: seq<seq<MeasureRow>>)
    requires WardLevel.NonEmptyGroups(gs) && UnitWeights(w)
    ensures |b| == |qs|
  {
    seq(|qs|, i requires 0 <= i < |qs| => NormalisedQuestionRows(qs[i], columns, gs, w))
  }

  /** The loop's output is its questions' rows one after the other. */
  lemma {:induction false} NormalisedRowsConcat(qs: seq<string>, columns: seq<string>, gs: seq<Group>, w: map<string, real>)
    requires WardLevel.NonEmptyGroups(gs) && UnitWeights(w)
    ensures NormalisedRows(qs, columns, gs, w) == Concat(QuestionBlocks(qs, columns, gs, w))
  {
    if qs != [] {
      var init := qs[..|qs| - 1];
      NormalisedRowsConcat(init, columns, gs, w);
      assert QuestionBlocks(qs, columns, gs, w)[..|qs| - 1] == QuestionBlocks(init, columns, gs, w);
    }
  }

  /**
   * When the ethnicity column and every question are present, the output is
   * question-major: it is `|qs|` blocks of `|gs|` rows, one after the other,
   * and row `j` of block `i` is the row for question `i` and group `j`. So
   * there is exactly one row per (question, group), in question order and
   * then group order; `Measures.ConcatUniform` places that row at position
   * `i * |gs| + j`.
   */
  lemma NormalisedRowsOrder(qs: seq<string>, columns: seq<string>, gs: seq<Group>, w: map<string, real>)
    requires WardLevel.NonEmptyGroups(gs) && UnitWeights(w)
    requires EthnicityColumn in columns
    requires forall i :: 0 <= i < |qs| ==> qs[i] in columns
    ensures NormalisedRows(qs, columns, gs, w) == Concat(QuestionBlocks(qs, columns, gs, w))
    ensures forall i :: 0 <= i < |qs| ==> |QuestionBlocks(qs, columns, gs, w)[i]| == |gs|
    ensures forall i, j :: 0 <= i < |qs| && 0 <= j < |gs| ==>
      NormalisedMeasureFor(qs[i], columns, gs[j], w) == Some(QuestionBlocks(qs, columns, gs, w)[i][j])
  {
    var b := QuestionBlocks(qs, columns, gs, w);
    NormalisedRowsConcat(qs, columns, gs, w);
    forall i | 0 <= i < |qs|
      ensures |b[i]| == |gs|
      ensures forall j :: 0 <= j < |gs| ==> NormalisedMeasureFor(qs[i], columns, gs[j], w) == Some(b[i][j])
    {
      QuestionRowsFull(qs[i], columns, gs, w);
    }
  }

  /* ---------------- The script's own weight table ---------------- */

  /** Entry `i` of the script's own `weights` literal, in the order written. */
  function LocalWeightEntryAt(i: nat): (string, real)
    requires i < WeightEntryCount
  {
    match i
    case 0 => ("Strongly disagree", 0.0)
    case 1 => ("Disagree", 0.25)
    case 2 => ("Neither agree nor disagree", 0.5)
    case 3 => ("Agree", 0.75)
    case 4 => ("Strongly agree", 1.0)
    case 5 => ("Not at all worried", 0.1)
    case 6 => ("Not very worried", 0.3)
    case 7 => ("Fairly worried", 0.6)
    case 8 => ("Very worried", 0.9)
    case 9 => ("Poor", 0.2)
    case 10 => ("Fair", 0.4)
    case 11 => ("Good", 0.6)
    case 12 => ("Excellent", 0.8)
    case 13 => ("Very poor", 0.1)
    case 14 => ("Tend to agree", 0.6)
    case 15 => ("Strongly agree", 1.0)
    case 16 => ("Neither agree nor disagree", 0.5)
    case 17 => ("Tend to disagree", 0.4)
    case 18 => ("Fairly confident", 0.6)
    case 19 => ("Very confident", 0.8)
    case 20 => ("Not very confident", 0.3)
    case 21 => ("Not at all confident", 0.1)
    case 22 => ("Major problem", 0.8)
    case 23 => ("Minor problem", 0.5)
    case _ => ("Not a problem at all", 0.2)
  }

  function LocalWeightEntries(): (entries: seq<(string, real)>)
    ensures |entries| == WeightEntryCount
  {
    seq(WeightEntryCount, i requires 0 <= i < WeightEntryCount => LocalWeightEntryAt(i))
  }

  /** The script's literal lists the shared configuration's entries, one for one. */
  lemma LocalEntryIsShared(i: nat)
    requires i < WeightEntryCount
    ensures LocalWeightEntryAt(i) == WeightEntryAt(i)
  {
  }

  /**
   * The script's own `weights` dict is the weight table of the first
   * preprocessor, so the two scripts weigh every known answer alike.
   */
  lemma LocalWeightsAreWeights()
    ensures DictOf(LocalWeightEntries()) == Weights
  {
    var l, e := LocalWeightEntries(), WeightEntries();
    forall i | 0 <= i < WeightEntryCount ensures l[i] == e[i] {
      LocalEntryIsShared(i);
    }
    assert l == e;
    WeightLiteralIsWeights();
  }

  /* ---------------- The whole script ---------------- */

  /**
   * What the script writes for a table read from `path`, looping over the
   * questions `qs`, or the exception it stops with. It reuses the first
   * preprocessor's borough-column choice and month conversion, and weighs by
   * `Weights`, which its own literal denotes (`LocalWeightsAreWeights`).
   */
  function NormalisedOutput(path: string, qs: seq<string>, t: Table): Result<seq<MeasureRow>, RunError>
  {
    match ConvertMonthColumn(t)
    case Err(e) => Err(e)
    case Ok(t') =>
      var bc := WardLevel.BoroughColumn(path);
      if bc !in t'.columns then Err(KeyError(bc))
      else
        var gs := GroupBy(t'.rows, bc, MonthColumn);
        WeightsInUnitInterval();
        Ok(NormalisedRows(qs, t'.columns, gs, Weights))
  }

  /** The script from reading the table to the results, over the configured questions. */
  method RunNormalised(path: string, t: Table) returns (out: Result<seq<MeasureRow>, RunError>)
    ensures out == NormalisedOutput(path, QuestionCodes(), t)
  {
    var converted := ConvertMonthColumn(t);
    if converted.Err? {
      return Err(converted.error);
    }
    var t' := converted.value;
    var bc := WardLevel.BoroughColumn(path);
    if bc !in t'.columns {
      return Err(KeyError(bc));
    }
    var gs := GroupBy(t'.rows, bc, MonthColumn);
    WeightsInUnitInterval();
    var rows := AggregateNormalised(QuestionCodes(), t'.columns, gs, Weights);
    out := Ok(rows);
  }

  /** A group's borough is the borough cell of one of the rows read, as read. */
  lemma GroupBoroughIsRead(t: Table, bc: string, j: nat)
    requires ConvertMonthColumn(t).Ok? && bc != MonthColumn
    requires j < |GroupBy(ConvertMonthColumn(t).value.rows, bc, MonthColumn)|
    ensures exists n :: (0 <= n < |t.rows| &&
      Get(t.rows[n], bc) == Str(GroupBy(ConvertMonthColumn(t).value.rows, bc, MonthColumn)[j].key.0))
  {
    var rows := ConvertMonthColumn(t).value.rows;
    var gs := GroupBy(rows, bc, MonthColumn);
    GroupKeyIsRead(rows, bc, MonthColumn, j);
    var n :| 0 <= n < |rows| && Get(rows[n], bc) == Str(gs[j].key.0) && Get(rows[n], MonthColumn) == Str(gs[j].key.1);
    ConvertMonthsKeeps(t.rows, n, bc);
  }

  /**
   * Every row the script writes has a "YYYY-MM" date, a measure from the
   * question list, a proportion in [0, 1], and a borough exactly as some
   * input row spells it: nothing is renamed.
   */
  lemma NormalisedOutputSpec(path: string, qs: seq<string>, t: Table)
    requires NormalisedOutput(path, qs, t).Ok?
    ensures forall r :: r in NormalisedOutput(path, qs, t).value ==>
      IsMonthLabel(r.date) && r.measure in qs && InUnitInterval(r.total)
      && exists n :: 0 <= n < |t.rows| && Get(t.rows[n], WardLevel.BoroughColumn(path)) == Str(r.borough)
  {
    var t' := ConvertMonthColumn(t).value;
    var bc := WardLevel.BoroughColumn(path);
    var gs := GroupBy(t'.rows, bc, MonthColumn);
    WeightsInUnitInterval();
    NormalisedRowsSound(qs, t'.columns, gs, Weights);
    ConvertMonthsLabels(t.rows);
    forall r | r in NormalisedOutput(path, qs, t).value
      ensures IsMonthLabel(r.date) && r.measure in qs && InUnitInterval(r.total)
      ensures exists n :: 0 <= n < |t.rows| && Get(t.rows[n], bc) == Str(r.borough)
    {
      var j :| 0 <= j < |gs| && r.borough == gs[j].key.0 && r.date == gs[j].key.1;
      WardLevel.GroupDateIsLabel(t'.rows, bc, j);
      GroupBoroughIsRead(t, bc, j);
    }
  }
}
