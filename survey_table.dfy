/**
 * The first step every survey preprocessor takes on the table it reads:
 * `df['MONTH'] = df['MONTH'].apply(convert_date_format)`, and the exceptions
 * that stop a preprocessor.
 */
module SurveyTable {
  import opened Wrappers
  import opened Frames
  import opened DateFormat

  /** Why a preprocessor stops. */
  datatype RunError =
    | KeyError(column: string)       // a column the script indexes is absent
    | AttributeError                 // `split` called on a missing (float NaN) month
    | DateFailure(error: DateError)  // `convert_date_format` rejected a label
    | TypeError                      // a missing (float NaN) cell sliced as a string

  /** The column holding the fieldwork month label. */
  const MonthColumn: string := "MONTH"

  /** The two spellings of the survey data directory that the scripts use. */
  const UpperWardDir: string := "data/PAS_data_ward_level/"
  const LowerWardDir: string := "data/pas_data_ward_level/"

  /** The ward-level survey file of financial year `tag` (such as "20_21") in directory `dir`. */
  function WardFile(dir: string, tag: string): string
  {
    dir + "PAS_ward_level_FY_" + tag + ".csv"
  }

  /** `convert_date_format` applied to one cell of the month column. */
  function ConvertMonthCell(c: Cell): (r: Result<Cell, RunError>)
    ensures r.Ok? ==> r.value.Str? && IsMonthLabel(r.value.s)
    ensures r.Ok? <==> c.Str? && ConvertDateFormat(c.s).Ok?
  {
    match c
    case Missing => Err(AttributeError)
    case Str(s) =>
      match ConvertDateFormat(s)
      case Err(e) => Err(DateFailure(e))
      case Ok(l) =>
        ConvertDateFormatLabel(s);
        Ok(Str(l))
  }

  /**
   * The index of the first row at or after `j` whose month does not convert,
   * or the number of rows.
   */
  function FirstBadMonth(rows: seq<Row>, j: nat): (k: nat)
    requires j <= |rows|
    ensures j <= k <= |rows|
    ensures forall i :: j <= i < k ==> MonthConverts(rows[i])
    ensures k < |rows| ==> !MonthConverts(rows[k])
    decreases |rows| - j
  {
    if j == |rows| || !MonthConverts(rows[j]) then j
    else FirstBadMonth(rows, j + 1)
  }

  /** The row's month cell converts. */
  predicate MonthConverts(r: Row)
  {
    ConvertMonthCell(Get(r, MonthColumn)).Ok?
  }

  /**
   * `apply(convert_date_format)` over the rows: it goes through them in
   * order and raises the error of the first cell it cannot convert.
   */
  function ConvertMonths(rows: seq<Row>): (r: Result<seq<Row>, RunError>)
    ensures r.Ok? <==> forall i :: 0 <= i < |rows| ==> ConvertMonthCell(Get(rows[i], MonthColumn)).Ok?
    ensures r.Ok? ==> |r.value| == |rows|
    ensures r.Ok? ==> forall i :: 0 <= i < |rows| ==>
      r.value[i] == rows[i][MonthColumn := ConvertMonthCell(Get(rows[i], MonthColumn)).value]
    ensures r.Err? ==> (exists k :: 0 <= k < |rows| && ConvertMonthCell(Get(rows[k], MonthColumn)) == Err(r.error) &&
                                  forall i :: 0 <= i < k ==> ConvertMonthCell(Get(rows[i], MonthColumn)).Ok?)
  {
    var k := FirstBadMonth(rows, 0);
    if k < |rows| then Err(ConvertMonthCell(Get(rows[k], MonthColumn)).error)
    else
      Ok(seq(|rows|, i requires 0 <= i < |rows| => rows[i][MonthColumn := ConvertMonthCell(Get(rows[i], MonthColumn)).value]))
  }

  /** After the conversion every row's month is a "YYYY-MM" label and the other cells are untouched. */
  lemma ConvertMonthsLabels(rows: seq<Row>)
    requires ConvertMonths(rows).Ok?
    ensures forall i :: 0 <= i < |rows| ==>
      Get(ConvertMonths(rows).value[i], MonthColumn).Str? &&
      IsMonthLabel(Get(ConvertMonths(rows).value[i], MonthColumn).s)
    ensures forall i, c :: 0 <= i < |rows| && c != MonthColumn ==>
      Get(ConvertMonths(rows).value[i], c) == Get(rows[i], c)
  {
  }

  /** The conversion leaves every other cell of a row as it was. */
  lemma ConvertMonthsKeeps(rows: seq<Row>, n: nat, c: string)
    requires ConvertMonths(rows).Ok? && n < |rows| && c != MonthColumn
    ensures Get(ConvertMonths(rows).value[n], c) == Get(rows[n], c)
  {
  }

  /** The conversion on a table: a table without the month column raises KeyError. */
  function ConvertMonthColumn(t: Table): (r: Result<Table, RunError>)
    ensures MonthColumn !in t.columns ==> r == Err(KeyError(MonthColumn))
    ensures r.Ok? ==> r.value.columns == t.columns && ConvertMonths(t.rows) == Ok(r.value.rows)
  {
    if MonthColumn !in t.columns then Err(KeyError(MonthColumn))
    else
      match ConvertMonths(t.rows)
      case Err(e) => Err(e)
      case Ok(rows) => Ok(Table(t.columns, rows))
  }
}
