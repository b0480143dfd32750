/**
 * The dashboard's data preparation: the file-path stems, the neighbourhood
 * borough rename, the home page's and the trust map's row transforms, and the
 * recommendation page's tables of years, columns and questions.
 */
module AppData {
  import opened Wrappers
  import opened Text
  import opened Frames
  import opened Config
  import opened Boroughs
  import opened SurveyTable
  import opened CrimePriorities
  import opened AppFunctions
  import opened QuestionKeys

  /* ---------------- Paths ---------------- */

  /** `os.path.join(a, b)` on POSIX: an absolute `b` replaces `a`, otherwise one separator joins them. */
  function PathJoin(a: string, b: string): (p: string)
    ensures |b| > 0 && b[0] == '/' ==> p == b
    ensures |p| >= |b| && p[|p| - |b|..] == b
    ensures !(|b| > 0 && b[0] == '/') ==> |p| >= |a| && p[..|a|] == a
  {
    if |b| > 0 && b[0] == '/' then b
    else if a == [] || a[|a| - 1] == '/' then a + b
    else a + "/" + b
  }

  const SaveDir: string := "data"

  /** `PATH_PERCEPTION`: the joined path with its 4-character ".csv" removed. */
  function PathPerception(): string
  {
    DropLast(PathJoin(SaveDir, "public-perception-data.csv"), 4)
  }

  /** `PATH_TO_PAS`: the joined path with its 5-character ".xlsx" removed. */
  function PathToPas(): string
  {
    DropLast(PathJoin(SaveDir, "PAS_T%26Cdashboard_to%20Q3%2023-24.xlsx"), 5)
  }

  /** Joining a name to a directory and cutting the extension back off leaves directory, separator and stem. */
  lemma JoinedStem(dir: string, name: string, ext: string)
    requires dir != [] && dir[|dir| - 1] != '/'
    requires name != [] && name[0] != '/' && ext != []
    ensures PathJoin(dir, name + ext) == dir + "/" + name + ext
    ensures DropLast(PathJoin(dir, name + ext), |ext|) == dir + "/" + name
  {
    assert dir + "/" + (name + ext) == dir + "/" + name + ext;
    DropLastOfAppend(dir + "/" + name, ext);
  }

  /** The perception stem, and appending ".csv" back gives the joined path again. */
  lemma PerceptionStem()
    ensures PathPerception() == SaveDir + "/" + "public-perception-data"
    ensures PathPerception() + ".csv" == PathJoin(SaveDir, "public-perception-data.csv")
  {
    assert "public-perception-data.csv" == "public-perception-data" + ".csv";
    JoinedStem(SaveDir, "public-perception-data", ".csv");
  }

  /** The survey-dashboard stem, and appending ".xlsx" back gives the joined path again. */
  lemma PasStem()
    ensures PathToPas() == SaveDir + "/" + "PAS_T%26Cdashboard_to%20Q3%2023-24"
    ensures PathToPas() + ".xlsx" == PathJoin(SaveDir, "PAS_T%26Cdashboard_to%20Q3%2023-24.xlsx")
  {
    assert "PAS_T%26Cdashboard_to%20Q3%2023-24.xlsx" == "PAS_T%26Cdashboard_to%20Q3%2023-24" + ".xlsx";
    JoinedStem(SaveDir, "PAS_T%26Cdashboard_to%20Q3%2023-24", ".xlsx");
  }

  /* ---------------- Neighbourhood boundaries ---------------- */

  /** The one rename the boundary file gets. */
  function NeighbourhoodBorough(b: string): string
  {
    Rename(b, "Westminster", "City of Westminster")
  }

  /**
   * Only "Westminster" changes; the rename is idempotent and agrees with the
   * preprocessors' five renames on every name those do not also change.
   */
  lemma NeighbourhoodBoroughSpec(b: string)
    ensures NeighbourhoodBorough(b) != b <==> b == "Westminster"
    ensures NeighbourhoodBorough(NeighbourhoodBorough(b)) == NeighbourhoodBorough(b)
    ensures b !in BoroughRenames || b == "Westminster" ==> NeighbourhoodBorough(b) == NormaliseBorough(b)
  {
    NormaliseBoroughIsLookup(b);
  }

  /** `preprocess_neighbourhoods`: the `.loc` rename on the borough column, in place. */
  method PreprocessNeighbourhoods(boroughs: array<string>)
    modifies boroughs
    ensures forall i :: 0 <= i < boroughs.Length ==> boroughs[i] == NeighbourhoodBorough(old(boroughs[i]))
  {
    ReplaceValue(boroughs, "Westminster", "City of Westminster");
  }

  /* ---------------- Column updates ---------------- */

  /** `df[col] = df[col].apply(f)` or `.map(f)` on a column held as an array. */
  method MapColumn(col: array<Cell>, f: Cell -> Cell)
    modifies col
    ensures forall i :: 0 <= i < col.Length ==> col[i] == f(old(col[i]))
  {
    var i := 0;
    while i < col.Length
      invariant 0 <= i <= col.Length
      invariant forall k :: 0 <= k < i ==> col[k] == f(old(col[k]))
      invariant forall k :: i <= k < col.Length ==> col[k] == old(col[k])
    {
      col[i] := f(col[i]);
      i := i + 1;
    }
  }

  /** The rows with column `col` replaced by the cells of `cells`. */
  function WithColumn(rows: seq<Row>, col: string, cells: seq<Cell>): (r: seq<Row>)
    requires |cells| == |rows|
    ensures |r| == |rows|
    ensures forall i :: 0 <= i < |rows| ==> Get(r[i], col) == cells[i]
    ensures forall i, c :: 0 <= i < |rows| && c != col ==> Get(r[i], c) == Get(rows[i], c)
  {
    seq(|rows|, i requires 0 <= i < |rows| => rows[i][col := cells[i]])
  }

  /**
   * `df[col].apply(lambda x: x[:n])`: every cell cut to its first `n`
   * characters; a missing (float NaN) cell raises TypeError.
   */
  function SliceColumn(rows: seq<Row>, col: string, n: nat): (r: Result<seq<Row>, RunError>)
    ensures r.Ok? <==> forall i :: 0 <= i < |rows| ==> Get(rows[i], col).Str?
    ensures r.Err? ==> r.error == TypeError
    ensures r.Ok? ==> |r.value| == |rows|
    ensures r.Ok? ==> forall i :: 0 <= i < |rows| ==>
      Get(r.value[i], col) == Str(Take(Get(rows[i], col).s, n))
    ensures r.Ok? ==> forall i, c :: 0 <= i < |rows| && c != col ==> Get(r.value[i], c) == Get(rows[i], c)
  {
    if rows == [] then Ok([])
    else
      var init := rows[..|rows| - 1];
      var last := rows[|rows| - 1];
      assert forall i :: 0 <= i < |init| ==> init[i] == rows[i];
      match SliceColumn(init, col, n)
      case Err(e) => Err(e)
      case Ok(done) =>
        match Get(last, col)
        case Missing => Err(TypeError)
        case Str(s) => Ok(done + [last[col := Str(Take(s, n))]])
  }

  /* ---------------- Home page ---------------- */

  /** The measure codes the home page leaves out: crime priorities and ethnicity. */
  const ExcludedMeasures: seq<string> := ["NNQ135A", "NPQ135A", "ReNQ147"]

  /** The excluded codes are exactly the codes the ward-level weighting skips. */
  lemma ExcludedAreWeightedQuestions()
    ensures forall q :: q in ExcludedMeasures <==> q in WeightedQuestions
  {
  }

  /** `df[~df[col].isin(values)]`: the rows whose cell is not one of `values`, in order; a missing cell is kept. */
  function WhereNotIn(rows: seq<Row>, col: string, values: seq<string>): (r: seq<Row>)
    ensures |r| <= |rows|
    ensures forall x :: x in r <==> x in rows && !AnswerIsIn(x, col, values)
  {
    if rows == [] then []
    else
      var init := rows[..|rows| - 1];
      var last := rows[|rows| - 1];
      assert rows == init + [last];
      if AnswerIsIn(last, col, values) then WhereNotIn(init, col, values)
      else WhereNotIn(init, col, values) + [last]
  }

  /** `~isin` keeps every other row as often as the frame holds it, in order. */
  lemma {:induction false} WhereNotInFilters(rows: seq<Row>, col: string, values: seq<string>)
    ensures forall x :: (multiset(WhereNotIn(rows, col, values))[x] ==
      if AnswerIsIn(x, col, values) then 0 else multiset(rows)[x])
    ensures IsSubsequence(WhereNotIn(rows, col, values), rows)
  {
    if rows != [] {
      var init, last := rows[..|rows| - 1], rows[|rows| - 1];
      assert rows == init + [last];
      WhereNotInFilters(init, col, values);
      if AnswerIsIn(last, col, values) {
        SubsequenceSkip(WhereNotIn(init, col, values), init, last);
      } else {
        SubsequenceKeep(WhereNotIn(init, col, values), init, last);
      }
    }
  }

  /** The kept and the dropped rows partition the frame. */
  lemma {:induction false} WhereNotInPartition(rows: seq<Row>, col: string, values: seq<string>)
    ensures |WhereNotIn(rows, col, values)| + |AnswerIn(rows, col, values)| == |rows|
  {
    if rows != [] {
      WhereNotInPartition(rows[..|rows| - 1], col, values);
    }
  }

  /** `.map(question_descriptions)` on one cell: a code becomes its description, anything else NaN. */
  function DescribeMeasure(c: Cell, descriptions: map<string, string>): (r: Cell)
    ensures r.Str? <==> c.Str? && c.s in descriptions
    ensures r.Str? ==> r.s == descriptions[c.s]
  {
    if c.Str? && c.s in descriptions then Str(descriptions[c.s]) else Missing
  }

  /** Whether a column label matches `'^Unnamed'`. */
  predicate IsUnnamed(name: string)
  {
    |name| >= 7 && name[..7] == "Unnamed"
  }

  /** Dropping the columns whose label starts with "Unnamed": the other labels, in order. */
  function KeepNamed(columns: seq<string>): (r: seq<string>)
    ensures |r| <= |columns|
    ensures forall c :: c in r <==> c in columns && !IsUnnamed(c)
  {
    if columns == [] then []
    else
      var init := columns[..|columns| - 1];
      var last := columns[|columns| - 1];
      assert columns == init + [last];
      if IsUnnamed(last) then KeepNamed(init) else KeepNamed(init) + [last]
  }

  /** The measure cells of `rows`, each replaced by its description. */
  function DescribedMeasures(rows: seq<Row>, descriptions: map<string, string>): (r: seq<Cell>)
    ensures |r| == |rows|
  {
    seq(|rows|, i requires 0 <= i < |rows| => DescribeMeasure(Get(rows[i], "Measure"), descriptions))
  }

  /**
   * The borough table of `HOMEPAGE_data`: the excluded measures dropped, the
   * unnamed index columns dropped, and each measure code replaced by its
   * short description.
   */
  function HomepageBorough(t: Table, descriptions: map<string, string>): (r: Result<Table, RunError>)
    ensures r.Err? <==> "Measure" !in t.columns || "Total Proportion" !in t.columns
  {
    if "Measure" !in t.columns then Err(KeyError("Measure"))
    else
      var kept := WhereNotIn(t.rows, "Measure", ExcludedMeasures);
      if "Total Proportion" !in t.columns then Err(KeyError("Total Proportion"))
      else Ok(Table(KeepNamed(t.columns), WithColumn(kept, "Measure", DescribedMeasures(kept, descriptions))))
  }

  /**
   * The home page's borough table keeps, in order, exactly the rows whose
   * measure is not excluded; each row's measure becomes its description and
   * every other cell is unchanged; no unnamed column is left.
   */
  lemma HomepageBoroughSpec(t: Table, descriptions: map<string, string>)
    requires HomepageBorough(t, descriptions).Ok?
    ensures var out := HomepageBorough(t, descriptions).value;
      var kept := WhereNotIn(t.rows, "Measure", ExcludedMeasures);
      |out.rows| == |kept| &&
      (forall i :: 0 <= i < |kept| ==> Get(out.rows[i], "Measure") == DescribeMeasure(Get(kept[i], "Measure"), descriptions)) &&
      (forall i, c :: 0 <= i < |kept| && c != "Measure" ==> Get(out.rows[i], c) == Get(kept[i], c))
    ensures forall x :: x in WhereNotIn(t.rows, "Measure", ExcludedMeasures) ==>
      !(Get(x, "Measure").Str? && Get(x, "Measure").s in WeightedQuestions)
    ensures forall c :: c in HomepageBorough(t, descriptions).value.columns <==> c in t.columns && !IsUnnamed(c)
  {
  }

  /**
   * With the descriptions `HOMEPAGE_data` builds from the question
   * dictionary, a kept row whose measure is question `i`'s code shows that
   * question's short description, and a measure that is no question code
   * becomes missing.
   */
  lemma HomepageBoroughDescribed(t: Table)
    requires HomepageBorough(t, QuestionDescriptions()).Ok?
    ensures var out := HomepageBorough(t, QuestionDescriptions()).value;
      var kept := WhereNotIn(t.rows, "Measure", ExcludedMeasures);
      |out.rows| == |kept| &&
      (forall n, i :: 0 <= n < |kept| && 0 <= i < QuestionCount && Get(kept[n], "Measure") == Str(QuestionCode(i)) ==>
        Get(out.rows[n], "Measure") == Str(QuestionWording(i).1)) &&
      (forall n :: 0 <= n < |kept| && Get(out.rows[n], "Measure").Str? ==>
        exists i :: 0 <= i < QuestionCount && Get(kept[n], "Measure") == Str(QuestionCode(i)))
  {
    HomepageBoroughSpec(t, QuestionDescriptions());
    QuestionDescriptionsKeys();
    forall i | 0 <= i < QuestionCount
      ensures QuestionCode(i) in QuestionDescriptions() && QuestionDescriptions()[QuestionCode(i)] == QuestionWording(i).1
    {
      QuestionDescriptionsAt(i);
    }
  }

  /** The home page's citywide table: each date cut to its year, `x[:4]`. */
  function HomepageMps(t: Table): (r: Result<Table, RunError>)
    ensures "Date" !in t.columns ==> r == Err(KeyError("Date"))
    ensures "Date" in t.columns ==> (r.Ok? <==> forall i :: 0 <= i < |t.rows| ==> Get(t.rows[i], "Date").Str?)
    ensures r.Ok? ==> r.value.columns == t.columns && |r.value.rows| == |t.rows|
    ensures r.Ok? ==> forall i :: 0 <= i < |t.rows| ==>
      Get(r.value.rows[i], "Date") == Str(Take(Get(t.rows[i], "Date").s, 4))
  {
    if "Date" !in t.columns then Err(KeyError("Date"))
    else
      match SliceColumn(t.rows, "Date", 4)
      case Err(e) => Err(e)
      case Ok(rows) => Ok(Table(t.columns, rows))
  }

  /** `HOMEPAGE_data`'s borough table, with the measure column mapped in place. */
  method RunHomepageBorough(t: Table, descriptions: map<string, string>) returns (out: Result<Table, RunError>)
    ensures out == HomepageBorough(t, descriptions)
  {
    if "Measure" !in t.columns {
      return Err(KeyError("Measure"));
    }
    var kept := WhereNotIn(t.rows, "Measure", ExcludedMeasures);
    if "Total Proportion" !in t.columns {
      return Err(KeyError("Total Proportion"));
    }
    var measures := new Cell[|kept|](i requires 0 <= i < |kept| => Get(kept[i], "Measure"));
    MapColumn(measures, c => DescribeMeasure(c, descriptions));
    assert measures[..] == DescribedMeasures(kept, descriptions);
    out := Ok(Table(KeepNamed(t.columns), WithColumn(kept, "Measure", measures[..])));
  }

  /* ---------------- Trust map ---------------- */

  /** The trust table's four `.loc` renames on one borough cell. */
  function TrustCell(c: Cell): Cell
  {
    if c.Str? then Str(NormaliseTrustBorough(c.s)) else c
  }

  /** The borough cells of `rows`, each renamed. */
  function TrustBoroughs(rows: seq<Row>): (r: seq<Cell>)
    ensures |r| == |rows|
  {
    seq(|rows|, i requires 0 <= i < |rows| => TrustCell(Get(rows[i], "Borough")))
  }

  /**
   * The trust table of `CRIMEPAGE_data` and `RECOMMENDATIONPAGE_data`: the
   * "Trust MPS" rows, their boroughs renamed, their dates cut to "YYYY-MM".
   */
  function TrustTable(t: Table): (r: Result<Table, RunError>)
    ensures r.Ok? ==> r.value.columns == t.columns
  {
    if "Measure" !in t.columns then Err(KeyError("Measure"))
    else
      var rows := Where(t.rows, "Measure", "Trust MPS");
      if "Borough" !in t.columns then Err(KeyError("Borough"))
      else
        var renamed := WithColumn(rows, "Borough", TrustBoroughs(rows));
        if "Date" !in t.columns then Err(KeyError("Date"))
        else
          match SliceColumn(renamed, "Date", 7)
          case Err(e) => Err(e)
          case Ok(done) => Ok(Table(t.columns, done))
  }

  /**
   * The trust table holds, in order, exactly the "Trust MPS" rows; each
   * borough is renamed (and so left alone by a second renaming), each date is
   * the "YYYY-MM" prefix of the original, every other cell is unchanged. It
   * fails only for a missing column or a missing date among those rows.
   */
  lemma TrustTableSpec(t: Table)
    requires "Measure" in t.columns && "Borough" in t.columns && "Date" in t.columns
    ensures TrustTable(t).Ok? <==> AllDated(Where(t.rows, "Measure", "Trust MPS"))
    ensures TrustTable(t).Ok? ==>
      forall i :: 0 <= i < |TrustTable(t).value.rows| ==> Get(TrustTable(t).value.rows[i], "Measure") == Str("Trust MPS")
    ensures TrustTable(t).Ok? ==> TrustRowsAgree(Where(t.rows, "Measure", "Trust MPS"), TrustTable(t).value.rows)
  {
    var kept := Where(t.rows, "Measure", "Trust MPS");
    var renamed := WithColumn(kept, "Borough", TrustBoroughs(kept));
    var sliced := SliceColumn(renamed, "Date", 7);
    assert TrustTable(t) == if sliced.Err? then Err(sliced.error) else Ok(Table(t.columns, sliced.value));
    TrustDates(kept);
    if sliced.Ok? {
      var out := sliced.value;
      TrustRows(kept, out);
      forall i | 0 <= i < |out| ensures Get(out[i], "Measure") == Str("Trust MPS") {
        assert kept[i] in kept;
        assert "Measure" != "Borough" && "Measure" != "Date";
      }
    }
  }

  /**
   * The rows of the trust table against the kept rows: one per kept row, each
   * borough renamed (and so left alone by a second renaming), each date cut to
   * its "YYYY-MM" prefix, every other cell unchanged.
   */
  ghost predicate TrustRowsAgree(kept: seq<Row>, out: seq<Row>)
  {
    |out| == |kept| &&
    (forall i :: 0 <= i < |out| ==> Get(out[i], "Borough") == TrustCell(Get(kept[i], "Borough"))) &&
    (forall i :: 0 <= i < |out| ==> TrustCell(Get(out[i], "Borough")) == Get(out[i], "Borough")) &&
    (forall i :: 0 <= i < |out| ==>
      Get(kept[i], "Date").Str? && Get(out[i], "Date") == Str(MonthPrefix(Get(kept[i], "Date").s))) &&
    (forall i, c :: 0 <= i < |out| && c != "Borough" && c != "Date" ==> Get(out[i], c) == Get(kept[i], c))
  }

  /** Every row has a date (none is a missing float NaN). */
  predicate AllDated(rows: seq<Row>)
  {
    forall i :: 0 <= i < |rows| ==> Get(rows[i], "Date").Str?
  }

  /** The date cut succeeds exactly when every kept row has a date. */
  lemma TrustDates(kept: seq<Row>)
    ensures SliceColumn(WithColumn(kept, "Borough", TrustBoroughs(kept)), "Date", 7).Ok? <==> AllDated(kept)
  {
    var renamed := WithColumn(kept, "Borough", TrustBoroughs(kept));
    assert "Date" != "Borough";
    assert forall i :: 0 <= i < |kept| ==> Get(renamed[i], "Date") == Get(kept[i], "Date");
  }

  /** The renames and the date cut on the kept rows, row by row. */
  lemma TrustRows(kept: seq<Row>, out: seq<Row>)
    requires SliceColumn(WithColumn(kept, "Borough", TrustBoroughs(kept)), "Date", 7) == Ok(out)
    ensures TrustRowsAgree(kept, out)
  {
    var renamed := WithColumn(kept, "Borough", TrustBoroughs(kept));
    assert "Date" != "Borough";
    forall i | 0 <= i < |out| ensures TrustCell(Get(out[i], "Borough")) == Get(out[i], "Borough") {
      var c := Get(kept[i], "Borough");
      if c.Str? {
        NormaliseTrustBoroughSpec(c.s);
      }
    }
  }

  /** The trust table with the borough renames done in place on the column. */
  method RunTrustTable(t: Table) returns (out: Result<Table, RunError>)
    ensures out == TrustTable(t)
  {
    if "Measure" !in t.columns {
      return Err(KeyError("Measure"));
    }
    var rows := Where(t.rows, "Measure", "Trust MPS");
    if "Borough" !in t.columns {
      return Err(KeyError("Borough"));
    }
    var boroughs := new Cell[|rows|](i requires 0 <= i < |rows| => Get(rows[i], "Borough"));
    MapColumn(boroughs, TrustCell);
    assert boroughs[..] == TrustBoroughs(rows);
    var renamed := WithColumn(rows, "Borough", boroughs[..]);
    if "Date" !in t.columns {
      return Err(KeyError("Date"));
    }
    var done := SliceColumn(renamed, "Date", 7);
    if done.Err? {
      return Err(done.error);
    }
    out := Ok(Table(t.columns, done.value));
  }

  /* ---------------- Recommendation page tables ---------------- */

  /** `csv_files`, entry by entry: the ward-level file of each survey year. */
  const CsvFileEntries: seq<(string, string)> := [
    ("20-21", WardFile(LowerWardDir, "20_21")), ("19-20", WardFile(LowerWardDir, "19_20")),
    ("18-19", WardFile(LowerWardDir, "18_19")), ("17-18", WardFile(LowerWardDir, "17_18")),
    ("15-17", WardFile(LowerWardDir, "15_17"))]

  /** `borough_column_mapping`, entry by entry. */
  const BoroughColumnEntries: seq<(string, string)> := [
    ("20-21", "Borough"), ("19-20", "C2"), ("18-19", "C2"), ("17-18", "C2"), ("15-17", "C2")]

  /** `ethnic_group_column_mapping`, entry by entry. */
  const EthnicColumnEntries: seq<(string, string)> := [
    ("20-21", "ReNQ147"), ("19-20", "NQ147r"), ("18-19", "NQ147r"), ("17-18", "NQ147r"), ("15-17", "NQ147r")]

  /** Number of survey years the page offers. */
  const YearCount: nat := 5

  /**
   * The three dicts list the same five distinct years in the same order, and
   * only 2020-21 uses the "Borough" and "ReNQ147" columns.
   */
  lemma YearTables()
    ensures |CsvFileEntries| == |BoroughColumnEntries| == |EthnicColumnEntries| == YearCount
    ensures forall i :: 0 <= i < YearCount ==>
      BoroughColumnEntries[i].0 == CsvFileEntries[i].0 && EthnicColumnEntries[i].0 == CsvFileEntries[i].0
    ensures forall i, j :: 0 <= i < j < YearCount ==> CsvFileEntries[i].0 != CsvFileEntries[j].0
    ensures forall i :: 0 <= i < YearCount ==> (BoroughColumnEntries[i].1 == "Borough" <==> i == 0)
    ensures forall i :: 0 <= i < YearCount ==> (EthnicColumnEntries[i].1 == "ReNQ147" <==> i == 0)
  {
  }

  /**
   * Each year's borough column is the one the crime-priorities preprocessor
   * picks from that year's file name. The files agree with that
   * preprocessor's list except for 2020-21, whose directory it spells
   * "PAS_data_ward_level".
   */
  lemma YearFilesAgree(i: nat)
    requires i < YearCount
    ensures CrimeBoroughColumn(CsvFileEntries[i].1) == BoroughColumnEntries[i].1
    ensures i >= 1 ==> CsvFileEntries[i].1 == CrimeFilePaths[i]
    ensures i == 0 ==> CsvFileEntries[i].1 != CrimeFilePaths[i]
  {
    var tags := ["20_21", "19_20", "18_19", "17_18", "15_17"];
    assert CsvFileEntries[i].1 == WardFile(LowerWardDir, tags[i]);
    CrimeColumnsOfFile(LowerWardDir, tags[i]);
    if i == 0 {
      assert CrimeFilePaths[0][5] != CsvFileEntries[0].1[5];
    }
  }

  /** Number of entries of the `questions` dict. */
  const RecQuestionCount: nat := 16

  /** The keys of `questions`, in the order written. */
  const RecCodes: seq<string> := ["Q13", "Q15", "Q60", "Q62A", "Q62B", "Q62C", "Q62D", "Q62E", "Q62TG", "A121",
                                   "Q62F", "Q62H", "Q62TI", "Q62TJ", "NQ135BD", "NQ135BH"]

  /** The "statement" of question `i`, with the whitespace the line continuations carry. */
  function RecStatement(i: nat): string
    requires i < RecQuestionCount
  {
    match i
      case 0 => "Q13: To what extent are you worried about crime in this area?"
      case 1 => "Q15: To what extent are you worried about anti-social behaviour in this area?"
      case 2 => "Q60: Taking everything into account, how good a job do you think the police IN YOUR AREA are doing?"
      case 3 => "Q62A: To what extent do you agree with these statements about the police in your area?            By 'your area' I mean within 15 minutes' walk from your home.             They can be relied on to be there when you need them"
      case 4 => "Q62B: To what extent do you agree with these statements about the police in your area?            By 'your area' I mean within 15 minutes' walk from your home.             They would treat you with respect if you had contact with them for any reason."
      case 5 => "Q62C: To what extent do you agree with these statements about the police in your area?            By 'your area' I mean within 15 minutes' walk from your home.             The police in your area treat everyone fairly regardless of who they are."
      case 6 => "Q62D: To what extent do you agree with these statements about the police in this area?            By 'this area' I mean within 15 minutes' walk from here. They can be relied on to deal with minor crimes"
      case 7 => "Q62E: To what extent do you agree with these statements about the police in this area?            By 'this area' I mean within 15 minutes' walk from here. They understand the issues that affect this community"
      case 8 => "Q62TG: To what extent do you agree with these statements about the police in your area?             By 'your area' I mean within 15 minutes' walk from your home.             The police in your area listen to the concerns of local people."
      case 9 => "A121: How confident are you that the Police in your area use their stop and search powers fairly?"
      case 10 => "Q62F: To what extent do you agree with these statements about the police in your area?            By 'your area' I mean within 15 minutes' walk from your home.            They are dealing with the things that matter to people in this community"
      case 11 => "Q62H: To what extent do you agree with these statements about the police in this area?            By 'this area' I mean within 15 minutes' walk from here. The police in this area are helpful"
      case 12 => "Q62TI: To what extent do you agree with these statements about the police in this area?            By 'this area' I mean within 15 minutes' walk from here. The police in this area are friendly and approachable"
      case 13 => "Q62TJ: To what extent do you agree with these statements about the police in this area?            By 'this area' I mean within 15 minutes' walk from here. The police in this area are easy to contact"
      case 14 => "NQ135BD: To what extent do you agree or disagree with the following statements:            The Metropolitan Police Service is an organisation that I can trust"
      case 15 => "NQ135BH: To what extent do you agree or disagree that            the police in your local area are sufficiently held accountable for their actions?"
  }

  /** The "values" of question `i` as written; three list "strongly disagree" in lower case. */
  function RecValuesAsWritten(i: nat): seq<string>
    requires i < RecQuestionCount
  {
    match i
      case 0 => ["Very worried", "Fairly worried"]
      case 1 => ["Very worried", "Fairly worried"]
      case 2 => ["Poor", "Very poor"]
      case 3 => ["Tend to disagree", "Strongly disagree"]
      case 4 => ["Tend to disagree", "Strongly disagree"]
      case 5 => ["Tend to disagree", "Strongly disagree"]
      case 6 => ["Tend to disagree", "Strongly disagree"]
      case 7 => ["Tend to disagree", "Strongly disagree"]
      case 8 => ["Tend to disagree", "Strongly disagree"]
      case 9 => ["Not very confident", "Not at all confident"]
      case 10 => ["Tend to disagree", "Strongly disagree"]
      case 11 => ["Tend to disagree", "Strongly disagree"]
      case 12 => ["Tend to disagree", "Strongly disagree"]
      case 13 => ["Tend to disagree", "strongly disagree"]
      case 14 => ["Tend to disagree", "strongly disagree"]
      case 15 => ["Tend to disagree", "strongly disagree"]
  }

  /** The "values" of question `i` with the answer label spelt as the survey spells it. */
  function RecValues(i: nat): seq<string>
    requires i < RecQuestionCount
  {
    if i >= 13 then ["Tend to disagree", "Strongly disagree"] else RecValuesAsWritten(i)
  }

  /** The sixteen codes are distinct, so the dict literal keeps every entry in order. */
  lemma RecCodesDistinct()
    ensures |RecCodes| == RecQuestionCount
    ensures forall i, j :: 0 <= i < j < |RecCodes| ==> RecCodes[i] != RecCodes[j]
  {
  }

  /** Every question has exactly two values, each of them an answer label of the weighted scales. */
  lemma RecValuesAreAnswerLabels()
    ensures forall i :: 0 <= i < RecQuestionCount ==> |RecValues(i)| == 2
    ensures forall i, v :: 0 <= i < RecQuestionCount && v in RecValues(i) ==> v in Weights
  {
  }

  /** As written, three questions list a value no answer carries: "strongly disagree" has no weight. */
  lemma RecValuesAsWrittenUnlabelled()
    ensures forall i :: 0 <= i < RecQuestionCount ==> |RecValuesAsWritten(i)| == 2
    ensures forall i :: 13 <= i < RecQuestionCount ==>
      "strongly disagree" in RecValuesAsWritten(i) && "Strongly disagree" !in RecValuesAsWritten(i)
    ensures "strongly disagree" !in Weights && "Strongly disagree" in Weights
  {
  }

  /** When every row's answer is one of `values`, the filter keeps every row. */
  lemma {:induction false} AllAnswerIn(rows: seq<Row>, question: string, values: seq<string>)
    requires forall x :: x in rows ==> AnswerIsIn(x, question, values)
    ensures AnswerIn(rows, question, values) == rows
  {
    if rows != [] {
      var init := rows[..|rows| - 1];
      assert rows == init + [rows[|rows| - 1]];
      assert forall x :: x in init ==> x in rows;
      AllAnswerIn(init, question, values);
    }
  }

  /** Questions 13 to 15 as written list "Tend to disagree" and the lower-case "strongly disagree". */
  lemma LastThreeAsWritten(i: nat)
    requires 13 <= i < RecQuestionCount
    ensures RecValuesAsWritten(i) == ["Tend to disagree", "strongly disagree"]
    ensures "Strongly disagree" !in RecValuesAsWritten(i)
  {
    assert "Strongly disagree"[0] != "strongly disagree"[0];
  }

  /**
   * As written, for Q62TJ, NQ135BD and NQ135BH a group whose every
   * respondent answered "Strongly disagree" gets 0.
   */
  lemma StronglyDisagreeAsWritten(rows: seq<Row>, i: nat, bc: string, ec: string)
    requires 13 <= i < RecQuestionCount
    requires forall n :: 0 <= n < |rows| ==> Get(rows[n], RecCodes[i]) == Str("Strongly disagree")
    ensures var out := PercentRows(rows, RecCodes[i], RecValuesAsWritten(i), bc, ec);
      forall k :: 0 <= k < |out| ==> out[k].percentage.num == 0.0
  {
    var q := RecCodes[i];
    var vs := RecValuesAsWritten(i);
    LastThreeAsWritten(i);
    assert forall x :: x in rows ==> !AnswerIsIn(x, q, vs);
    PercentRowsSpec(rows, q, vs, bc, ec);
    var out := PercentRows(rows, q, vs, bc, ec);
    forall k | 0 <= k < |out| ensures out[k].percentage.num == 0.0 {
    }
  }

  /**
   * With the corrected values, the same group gets 100: every respondent
   * counts as disagreeing.
   */
  lemma StronglyDisagreeCorrected(rows: seq<Row>, i: nat, bc: string, ec: string)
    requires 13 <= i < RecQuestionCount
    requires forall n :: 0 <= n < |rows| ==> Get(rows[n], RecCodes[i]) == Str("Strongly disagree")
    ensures var out := PercentRows(rows, RecCodes[i], RecValues(i), bc, ec);
      forall k :: 0 <= k < |out| ==> out[k].percentage.num == 100.0 * out[k].percentage.den as real
  {
    var q := RecCodes[i];
    var vs := RecValues(i);
    assert forall x :: x in rows ==> AnswerIsIn(x, q, vs);
    PercentRowsSpec(rows, q, vs, bc, ec);
    var out := PercentRows(rows, q, vs, bc, ec);
    forall k | 0 <= k < |out| ensures out[k].percentage.num == 100.0 * out[k].percentage.den as real {
      var group := RowsWithKey(rows, bc, ec, PairOf(out[k]));
      AllAnswerIn(group, q, vs);
    }
  }

  /**
   * The recommendation page for the `year`-th year of the dicts: that year's
   * borough and ethnic columns, question `i`'s values as written, and the
   * result's columns labelled "Borough" and "ReNQ147".
   */
  function RecommendationPercentages(t: Table, year: nat, i: nat, ethnicGroup: string): (r: Result<PercentTable, RunError>)
    requires year < YearCount && i < RecQuestionCount
    ensures r.Ok? ==> r.value.columns == ["Borough", "ReNQ147", "Percentage"]
    ensures RecCodes[i] !in t.columns ==> r.Ok? && r.value.rows == []
    ensures r.Err? <==> (RecCodes[i] in t.columns &&
                         (BoroughColumnEntries[year].1 !in t.columns || EthnicColumnEntries[year].1 !in t.columns))
  {
    match CalculatePercentages(t, RecCodes[i], RecValuesAsWritten(i), ethnicGroup,
                               BoroughColumnEntries[year].1, EthnicColumnEntries[year].1)
    case Err(e) => Err(e)
    case Ok(p) => Ok(PercentTable(["Borough", "ReNQ147", "Percentage"], p.rows))
  }

  /** The same page with the corrected values of `RecValues`. */
  function RecommendationPercentagesCorrected(t: Table, year: nat, i: nat, ethnicGroup: string): (r: Result<PercentTable, RunError>)
    requires year < YearCount && i < RecQuestionCount
    ensures r.Ok? ==> r.value.columns == ["Borough", "ReNQ147", "Percentage"]
    ensures RecCodes[i] !in t.columns ==> r.Ok? && r.value.rows == []
    ensures r.Err? <==> (RecCodes[i] in t.columns &&
                         (BoroughColumnEntries[year].1 !in t.columns || EthnicColumnEntries[year].1 !in t.columns))
  {
    match CalculatePercentages(t, RecCodes[i], RecValues(i), ethnicGroup,
                               BoroughColumnEntries[year].1, EthnicColumnEntries[year].1)
    case Err(e) => Err(e)
    case Ok(p) => Ok(PercentTable(["Borough", "ReNQ147", "Percentage"], p.rows))
  }

  /** The correction changes the page only for the last three questions. */
  lemma RecommendationCorrectionScope(t: Table, year: nat, i: nat, ethnicGroup: string)
    requires year < YearCount && i < RecQuestionCount
    ensures i < 13 ==> RecommendationPercentages(t, year, i, ethnicGroup) ==
                       RecommendationPercentagesCorrected(t, year, i, ethnicGroup)
    ensures i >= 13 ==> RecValuesAsWritten(i) != RecValues(i)
  {
    if i >= 13 {
      LastThreeAsWritten(i);
    }
  }
}
