/**
 * The crime-priorities preprocessor: for each of five yearly ward-level
 * survey files it counts, per (borough, month), how often each crime type
 * was named as the most pressing local problem, then stacks the five results
 * and normalises the borough names.
 */
module CrimePriorities {
  import opened Wrappers
  import opened Text
  import opened PyDict
  import opened Frames
  import opened DateFormat
  import opened Boroughs
  import opened Measures
  import opened SurveyTable

  /** The five files, in the order the script reads them. */
  const CrimeFilePaths: seq<string> := [
    WardFile(UpperWardDir, "20_21"), WardFile(LowerWardDir, "19_20"), WardFile(LowerWardDir, "18_19"),
    WardFile(LowerWardDir, "17_18"), WardFile(LowerWardDir, "15_17")]

  /** The borough column: "Borough" in the 2020-21 file, "C2" before. */
  function CrimeBoroughColumn(path: string): string
  {
    if Slice(path, -9, -4) == "20_21" then "Borough" else "C2"
  }

  /** The answer column: "NPQ135A" from 2019-20 on, "PQ135AA" before. */
  function AnswerColumn(path: string): string
  {
    var tag := Slice(path, -9, -4);
    if tag == "20_21" || tag == "19_20" then "NPQ135A" else "PQ135AA"
  }

  /** Both columns depend only on the five characters before ".csv". */
  lemma CrimeColumnsOfFile(dir: string, tag: string)
    requires |tag| == 5
    ensures CrimeBoroughColumn(WardFile(dir, tag)) == if tag == "20_21" then "Borough" else "C2"
    ensures AnswerColumn(WardFile(dir, tag)) ==
      if tag == "20_21" || tag == "19_20" then "NPQ135A" else "PQ135AA"
  {
    TagBeforeCsv(dir + "PAS_ward_level_FY_", tag);
  }

  /** The columns each of the five files is read with. */
  lemma CrimeFileColumns(i: nat)
    requires i < |CrimeFilePaths|
    ensures CrimeBoroughColumn(CrimeFilePaths[i]) == if i == 0 then "Borough" else "C2"
    ensures AnswerColumn(CrimeFilePaths[i]) == if i <= 1 then "NPQ135A" else "PQ135AA"
  {
    var tags := ["20_21", "19_20", "18_19", "17_18", "15_17"];
    var dir := if i == 0 then UpperWardDir else LowerWardDir;
    assert CrimeFilePaths[i] == WardFile(dir, tags[i]);
    CrimeColumnsOfFile(dir, tags[i]);
  }

  /* ---------------- One group ---------------- */

  /** One result row: the month, the borough and the crime types with their counts, as a dict's items. */
  datatype CrimeRow = CrimeRow(date: string, borough: string, crimeType: seq<(string, nat)>)

  /** The (borough, month) pair a result row stands for. */
  function RowKey(r: CrimeRow): Key
  {
    (r.borough, r.date)
  }

  /**
   * `group_df.value_counts().to_dict()`: the dict holds the answers present,
   * each once with the number of times it was given, in the order of the
   * counts, most frequent first.
   */
  lemma CrimeTypeDict(col: seq<Cell>)
    ensures DistinctKeys(ValueCounts(col)) && NonIncreasing(ValueCounts(col))
    ensures forall a :: a in DictOf(ValueCounts(col)) <==> Str(a) in col
    ensures forall a :: a in DictOf(ValueCounts(col)) ==>
      DictOf(ValueCounts(col))[a] == Count(col, a) && DictOf(ValueCounts(col))[a] >= 1
    ensures SumCounts(ValueCounts(col)) == NonMissing(col)
  {
    var d := ValueCounts(col);
    ValueCountsEntries(col);
    ValueCountsShape(col);
    DictOfDistinct(d);
    forall a | a in DictOf(d) ensures DictOf(d)[a] == Count(col, a) && DictOf(d)[a] >= 1 {
      var i :| 0 <= i < |d| && d[i].0 == a;
    }
  }

  /** The row one `(borough, month)` group contributes. */
  function CrimeRowOf(g: Group, answer: string): CrimeRow
  {
    CrimeRow(g.key.1, g.key.0, ValueCounts(Column(g.rows, answer)))
  }

  /** The rows of one file: one per group, in group order. */
  function FileRows(gs: seq<Group>, answer: string): seq<CrimeRow>
  {
    seq(|gs|, i requires 0 <= i < |gs| => CrimeRowOf(gs[i], answer))
  }

  /** The loop over the groups of one file, appending a row per group. */
  method CollectFileRows(gs: seq<Group>, answer: string) returns (rows: seq<CrimeRow>)
    ensures rows == FileRows(gs, answer)
  {
    rows := [];
    var i := 0;
    while i < |gs|
      invariant 0 <= i <= |gs|
      invariant |rows| == i
      invariant forall k :: 0 <= k < i ==> rows[k] == CrimeRowOf(gs[k], answer)
    {
      var metricStats := ValueCounts(Column(gs[i].rows, answer));
      rows := rows + [CrimeRow(gs[i].key.1, gs[i].key.0, metricStats)];
      i := i + 1;
    }
  }

  /* ---------------- One file ---------------- */

  /** What one pass of the file loop produces for the table read from `path`, or the exception it raises. */
  function FileResult(path: string, t: Table): Result<seq<CrimeRow>, RunError>
  {
    match ConvertMonthColumn(t)
    case Err(e) => Err(e)
    case Ok(t') =>
      var bc := CrimeBoroughColumn(path);
      var answer := AnswerColumn(path);
      if bc !in t'.columns then Err(KeyError(bc))
      else if answer !in t'.columns then Err(KeyError(answer))
      else Ok(FileRows(GroupBy(t'.rows, bc, MonthColumn), answer))
  }

  /** One pass of the file loop. */
  method RunFile(path: string, t: Table) returns (out: Result<seq<CrimeRow>, RunError>)
    ensures out == FileResult(path, t)
  {
    var converted := ConvertMonthColumn(t);
    if converted.Err? {
      return Err(converted.error);
    }
    var t' := converted.value;
    var bc := CrimeBoroughColumn(path);
    var answer := AnswerColumn(path);
    if bc !in t'.columns {
      return Err(KeyError(bc));
    }
    if answer !in t'.columns {
      return Err(KeyError(answer));
    }
    var gs := GroupBy(t'.rows, bc, MonthColumn);
    var rows := CollectFileRows(gs, answer);
    out := Ok(rows);
  }

  /**
   * The rows one file yields from its rows: strictly ordered by (borough,
   * month), one for each pair present, and each holding the counts of the
   * answers of the rows with its pair.
   */
  lemma FileRowsSpec(rows: seq<Row>, bc: string, answer: string)
    ensures var out := FileRows(GroupBy(rows, bc, MonthColumn), answer);
      forall i, j :: 0 <= i < j < |out| ==> KeyLess(RowKey(out[i]), RowKey(out[j]))
    ensures var out := FileRows(GroupBy(rows, bc, MonthColumn), answer);
      forall k :: (exists i :: 0 <= i < |out| && RowKey(out[i]) == k) <==>
        (exists n :: 0 <= n < |rows| && KeyOf(rows[n], bc, MonthColumn) == Some(k))
    ensures var out := FileRows(GroupBy(rows, bc, MonthColumn), answer);
      forall i :: 0 <= i < |out| ==>
        out[i].crimeType == ValueCounts(Column(RowsWithKey(rows, bc, MonthColumn, RowKey(out[i])), answer))
  {
    var gs := GroupBy(rows, bc, MonthColumn);
    var out := FileRows(gs, answer);
    GroupByMembers(rows, bc, MonthColumn);
    assert forall i :: 0 <= i < |out| ==> RowKey(out[i]) == gs[i].key;
  }

  /**
   * The rows of one file, as `FileRowsSpec` describes them for the table
   * after the month conversion, and each with a "YYYY-MM" month.
   */
  lemma FileResultSpec(path: string, t: Table)
    requires FileResult(path, t).Ok?
    ensures FileResult(path, t).value ==
      FileRows(GroupBy(ConvertMonthColumn(t).value.rows, CrimeBoroughColumn(path), MonthColumn), AnswerColumn(path))
    ensures forall i :: 0 <= i < |FileResult(path, t).value| ==> IsMonthLabel(FileResult(path, t).value[i].date)
  {
    var t' := ConvertMonthColumn(t).value;
    var bc := CrimeBoroughColumn(path);
    var gs := GroupBy(t'.rows, bc, MonthColumn);
    var rows := FileResult(path, t).value;
    ConvertMonthsLabels(t.rows);
    forall i | 0 <= i < |rows| ensures IsMonthLabel(rows[i].date) {
      GroupMonthIsLabel(t'.rows, bc, i);
    }
  }

  /** Each row of one file has a "YYYY-MM" month and a crime-type dict listing each type once, most frequent first. */
  lemma FileRowShape(path: string, t: Table, r: CrimeRow)
    requires FileResult(path, t).Ok? && r in FileResult(path, t).value
    ensures IsMonthLabel(r.date) && DistinctKeys(r.crimeType) && NonIncreasing(r.crimeType)
  {
    var rows := FileResult(path, t).value;
    FileResultSpec(path, t);
    var t' := ConvertMonthColumn(t).value;
    var bc := CrimeBoroughColumn(path);
    var answer := AnswerColumn(path);
    FileRowsSpec(t'.rows, bc, answer);
    var j :| 0 <= j < |rows| && rows[j] == r;
    CrimeTypeDict(Column(RowsWithKey(t'.rows, bc, MonthColumn, RowKey(r)), answer));
  }

  /** A group's month is the month cell of one of the rows, so a label once the months are converted. */
  lemma GroupMonthIsLabel(rows: seq<Row>, bc: string, j: nat)
    requires forall n :: 0 <= n < |rows| ==> Get(rows[n], MonthColumn).Str? && IsMonthLabel(Get(rows[n], MonthColumn).s)
    requires j < |GroupBy(rows, bc, MonthColumn)|
    ensures IsMonthLabel(GroupBy(rows, bc, MonthColumn)[j].key.1)
  {
    var gs := GroupBy(rows, bc, MonthColumn);
    var row := gs[j].rows[0];
    assert row in gs[j].rows;
    var n :| 0 <= n < |rows| && rows[n] == row;
  }

  /* ---------------- All files ---------------- */

  /** What each pass of the file loop produces, `tables[i]` being what `read_csv(paths[i])` returns. */
  function FileResults(paths: seq<string>, tables: seq<Table>): (rs: seq<Result<seq<CrimeRow>, RunError>>)
    requires |paths| == |tables|
    ensures |rs| == |paths|
  {
    seq(|paths|, i requires 0 <= i < |paths| => FileResult(paths[i], tables[i]))
  }

  /** The five renames applied to the borough of every row; dates and counts are kept. */
  function RenameCrimeRows(rows: seq<CrimeRow>): (r: seq<CrimeRow>)
    ensures |r| == |rows|
    ensures forall i :: 0 <= i < |rows| ==>
      r[i].date == rows[i].date && r[i].crimeType == rows[i].crimeType &&
      r[i].borough == NormaliseBorough(rows[i].borough)
  {
    seq(|rows|, i requires 0 <= i < |rows| => rows[i].(borough := NormaliseBorough(rows[i].borough)))
  }

  /** Renaming twice is renaming once. */
  lemma RenameCrimeRowsIdempotent(rows: seq<CrimeRow>)
    ensures RenameCrimeRows(RenameCrimeRows(rows)) == RenameCrimeRows(rows)
  {
    var once := RenameCrimeRows(rows);
    forall i | 0 <= i < |rows| ensures RenameCrimeRows(once)[i] == once[i] {
      NormaliseBoroughIdempotent(rows[i].borough);
    }
  }

  /** Renaming keeps the order of the rows: a prefix stays a prefix. */
  lemma RenameCrimeRowsPrefix(a: seq<CrimeRow>, b: seq<CrimeRow>)
    requires a <= b
    ensures RenameCrimeRows(a) <= RenameCrimeRows(b)
  {
    assert RenameCrimeRows(a) == RenameCrimeRows(b)[..|a|];
  }

  /**
   * The script over the files `paths`: the stacked per-file results with the
   * boroughs renamed, or the first exception.
   */
  function CrimeOutput(paths: seq<string>, tables: seq<Table>): Result<seq<CrimeRow>, RunError>
    requires |paths| == |tables|
  {
    match Collect(FileResults(paths, tables))
    case Err(e) => Err(e)
    case Ok(blocks) => Ok(RenameCrimeRows(Concat(blocks)))
  }

  /** The five `.loc` renames on the borough column of the stacked results. */
  method RenameCrimeBoroughs(rows: seq<CrimeRow>) returns (out: seq<CrimeRow>)
    ensures out == RenameCrimeRows(rows)
  {
    var boroughs := new string[|rows|](i requires 0 <= i < |rows| => rows[i].borough);
    NormaliseBoroughColumn(boroughs);
    out := seq(|rows|, i requires 0 <= i < |rows| reads boroughs => rows[i].(borough := boroughs[i]));
  }

  /** The file loop: each file's rows appended to `results_dfs`, stopping at the first exception. */
  method CollectFiles(paths: seq<string>, tables: seq<Table>) returns (out: Result<seq<seq<CrimeRow>>, RunError>)
    requires |paths| == |tables|
    ensures out == Collect(FileResults(paths, tables))
  {
    ghost var rs := FileResults(paths, tables);
    assert |rs| == |paths| && rs[..0] == [];
    var resultsDfs: seq<seq<CrimeRow>> := [];
    var i := 0;
    while i < |paths|
      invariant 0 <= i <= |paths|
      invariant Collect(rs[..i]) == Ok(resultsDfs)
    {
      var r := RunFile(paths[i], tables[i]);
      assert rs[i] == r;
      if r.Err? {
        CollectStops(rs, i);
        return Err(r.error);
      }
      CollectSnoc(rs, i);
      resultsDfs := resultsDfs + [r.value];
      i := i + 1;
    }
    assert rs[..i] == rs;
    out := Ok(resultsDfs);
  }

  /** The file loop, `pd.concat`, then the renames. */
  method RunFiles(paths: seq<string>, tables: seq<Table>) returns (out: Result<seq<CrimeRow>, RunError>)
    requires |paths| == |tables|
    ensures out == CrimeOutput(paths, tables)
  {
    var collected := CollectFiles(paths, tables);
    if collected.Err? {
      return Err(collected.error);
    }
    var stacked := Concat(collected.value);
    var renamed := RenameCrimeBoroughs(stacked);
    out := Ok(renamed);
  }

  /** The script over its five files. */
  method RunCrime(tables: seq<Table>) returns (out: Result<seq<CrimeRow>, RunError>)
    requires |tables| == |CrimeFilePaths|
    ensures out == CrimeOutput(CrimeFilePaths, tables)
  {
    out := RunFiles(CrimeFilePaths, tables);
  }

  /**
   * Every row the script writes has a "YYYY-MM" month, a normalised borough
   * and a crime-type dict listing each type once, most frequent first; and
   * every row of every file is written, renamed.
   */
  lemma CrimeOutputSpec(paths: seq<string>, tables: seq<Table>)
    requires |paths| == |tables|
    requires CrimeOutput(paths, tables).Ok?
    ensures forall i :: 0 <= i < |paths| ==> FileResult(paths[i], tables[i]).Ok?
    ensures forall r :: r in CrimeOutput(paths, tables).value ==>
      IsMonthLabel(r.date) && NormaliseBorough(r.borough) == r.borough &&
      DistinctKeys(r.crimeType) && NonIncreasing(r.crimeType)
    ensures forall i, r :: 0 <= i < |paths| && r in FileResult(paths[i], tables[i]).value ==>
      r.(borough := NormaliseBorough(r.borough)) in CrimeOutput(paths, tables).value
  {
    var rs := FileResults(paths, tables);
    assert forall i :: 0 <= i < |paths| ==> rs[i] == FileResult(paths[i], tables[i]);
    forall r | r in CrimeOutput(paths, tables).value
      ensures IsMonthLabel(r.date) && NormaliseBorough(r.borough) == r.borough
      ensures DistinctKeys(r.crimeType) && NonIncreasing(r.crimeType)
    {
      CrimeOutputRow(paths, tables, r);
    }
    forall i, r | 0 <= i < |paths| && r in FileResult(paths[i], tables[i]).value
      ensures r.(borough := NormaliseBorough(r.borough)) in CrimeOutput(paths, tables).value
    {
      CrimeOutputCovers(paths, tables, i, r);
    }
  }

  /** One output row: a row of some file, with its borough renamed. */
  lemma CrimeOutputRow(paths: seq<string>, tables: seq<Table>, r: CrimeRow)
    requires |paths| == |tables|
    requires CrimeOutput(paths, tables).Ok? && r in CrimeOutput(paths, tables).value
    ensures IsMonthLabel(r.date) && NormaliseBorough(r.borough) == r.borough
    ensures DistinctKeys(r.crimeType) && NonIncreasing(r.crimeType)
  {
    var rs := FileResults(paths, tables);
    var blocks := Collect(rs).value;
    var stacked := Concat(blocks);
    var out := CrimeOutput(paths, tables).value;
    assert out == RenameCrimeRows(stacked);
    var k :| 0 <= k < |out| && out[k] == r;
    var r0 := stacked[k];
    NormaliseBoroughIdempotent(r0.borough);
    ConcatMembers(blocks, r0);
    var i :| 0 <= i < |blocks| && r0 in blocks[i];
    assert rs[i] == FileResult(paths[i], tables[i]);
    FileRowShape(paths[i], tables[i], r0);
  }

  /** Every row of every file reaches the output, with its borough renamed. */
  lemma CrimeOutputCovers(paths: seq<string>, tables: seq<Table>, i: nat, r: CrimeRow)
    requires |paths| == |tables| && i < |paths|
    requires CrimeOutput(paths, tables).Ok?
    requires FileResult(paths[i], tables[i]).Ok? && r in FileResult(paths[i], tables[i]).value
    ensures r.(borough := NormaliseBorough(r.borough)) in CrimeOutput(paths, tables).value
  {
    var rs := FileResults(paths, tables);
    var blocks := Collect(rs).value;
    var stacked := Concat(blocks);
    var out := CrimeOutput(paths, tables).value;
    assert out == RenameCrimeRows(stacked);
    assert rs[i] == FileResult(paths[i], tables[i]);
    assert r in blocks[i];
    ConcatMembers(blocks, r);
    assert r in stacked;
    var k :| 0 <= k < |stacked| && stacked[k] == r;
    assert out[k] == r.(borough := NormaliseBorough(r.borough));
  }

  /**
   * `pd.concat` keeps the file order: the renamed rows of file `i` follow
   * directly the renamed rows of the files before it.
   */
  lemma CrimeOutputOrder(paths: seq<string>, tables: seq<Table>, i: nat)
    requires |paths| == |tables| && i < |paths|
    requires CrimeOutput(paths, tables).Ok?
    ensures FileResult(paths[i], tables[i]).Ok?
    ensures Collect(FileResults(paths, tables)[..i]).Ok?
    ensures RenameCrimeRows(Concat(Collect(FileResults(paths, tables)[..i]).value) +
      FileResult(paths[i], tables[i]).value) <= CrimeOutput(paths, tables).value
  {
    var rs := FileResults(paths, tables);
    var blocks := Collect(rs).value;
    assert rs[i] == FileResult(paths[i], tables[i]);
    CollectPrefix(rs, i);
    ConcatPrefix(blocks, i);
    RenameCrimeRowsPrefix(Concat(blocks[..i]) + blocks[i], Concat(blocks));
  }
}
