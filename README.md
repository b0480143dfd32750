# Police trust and confidence dashboard: a Dafny model of its data pipeline

The dashboard shows London's Public Attitude Survey (PAS) by borough and month,
next to crime data from the data.police.uk API. This project models, in Dafny,
the parts of it that compute something:

- **The survey preprocessors.** Three scripts read the ward-level PAS files.
  - They convert each "Qn yy-yy (Mon YYYY)" month label to "YYYY-MM".
  - They group the answers by (borough, month).
  - Two of them turn each question's categorical answers into one weighted
    "Total Proportion", using the configured answer weights, and add the
    group's ethnicity shares. They differ in how they treat answers with no
    weight.
  - The third counts the crime types respondents name as the most pressing
    local problem.
  - The first and third then normalise five borough names.
- **The configuration tables.** These are the question dictionary, the answer
  weights and the weighted-question set.
- **The dashboard's data preparation.**
  - The home-page, crime-page and recommendation-page tables.
  - The "YYYY-MM" date cut.
  - The recommendation page's share of negative answers per (borough, ethnic
    group).
- **The data.police.uk request builders.** Each builds the URL it would fetch
  from its arguments, or raises.
- **The map-click handler.** It collects three clicked points.

Each source file is a Dafny module:

| module | source |
|---|---|
| `Config` | config.py |
| `QuestionKeys` | the keys of the question dictionary in config.py |
| `DateFormat`, `SurveyTable` | the shared `convert_date_format` and the month-column step |
| `WardLevel` | data_preprocessors/PAS_ward_level_preprocessor.py |
| `WardLevelNormalised` | data_preprocessors/PAS_prerocess_ward_level.py |
| `CrimePriorities` | data_preprocessors/PAS_crime_preprocessor.py |
| `Boroughs` | the `.loc` borough renames |
| `AppFunctions` | app/app_func.py |
| `AppData` | app/app_data_preprocessor.py |
| `PoliceApi` | functions/api_func.py |
| `MapClick` | `on_map_click` in functions/api_func.py |

Three modules model the slice of pandas the scripts rely on:

- `Frames`: cells that may be missing, `value_counts`, `groupby` with sorted
  keys, boolean filters.
- `PyDict`: a dict literal whose later duplicate keys win.
- `Measures`: the output row and the ethnicity shares.

Pure code is modelled as functions and lemmas. The scripts' loops are methods
proved equal to those functions:

- the weighting loop, in place on an array of counts;
- the question × group loops;
- the file loop;
- the `.loc` renames, over an array column.

The module-level marker list is a class.

Proportions are exact ratios `num / den`: a `Num` holds numerator and
denominator. NaN appears only where pandas divides 0 by 0.

## Model

| member | source | states |
|---|---|---|
| Config.WeightsInUnitInterval | config.py:95-121 | every configured answer weight lies in [0, 1] |
| Config.ExampleWeights | config.py:95-121 | "Don't know" has no weight; "Strongly disagree" weighs 0, "Disagree" 0.25, "Strongly agree" 1 |
| Config.AgreementScaleIncreasing | config.py:96-113 | the agreement answers are weighted in strictly increasing order of agreement |
| Config.WorryScaleIncreasing | config.py:101-104 | the worry answers are weighted in strictly increasing order of worry |
| Config.RatingScaleIncreasing | config.py:105-109 | Very poor < Poor < Fair < Good < Excellent |
| Config.ConfidenceScaleIncreasing | config.py:114-117 | the confidence answers are weighted in strictly increasing order of confidence |
| Config.ProblemScaleIncreasing | config.py:118-120 | Not a problem at all < Minor problem < Major problem |
| Config.WeightLiteralIsWeights | config.py:95-121 | the 25-entry literal, with its two repeated keys, denotes the 23-key weight table; repeated keys repeat their value, so which duplicate Python keeps does not matter |
| Config.EntriesAgree | config.py:95-121 | every entry of the literal agrees with the weight table |
| Config.KeysListed | config.py:95-121 | every key of the weight table is written in the literal |
| Config.QuestionEntries | config.py:20-92 | the question dictionary has 69 entries |
| QuestionKeys.QuestionCodesDistinct | config.py:20-92 | the 69 question codes are pairwise different, so the dict literal drops no entry |
| QuestionKeys.QuestionDescriptionsAt | app/app_data_preprocessor.py:82 | the descriptions dict maps each question code to the short description written beside it |
| QuestionKeys.QuestionDescriptionsKeys | app/app_data_preprocessor.py:82 | the descriptions dict has exactly the question codes as keys |
| Config.WeightedQuestionsAreQuestions | config.py:123 | the three weighted question codes are keys of the question dictionary |
| PyDict.DictKeys | config.py:20-92 | a literal's keys: distinct, in first-occurrence order, exactly the keys its entries name |
| PyDict.DictOfLastWins | config.py:95-121 | a key's value is that of its last entry in the literal |
| PyDict.DictOfKeys | config.py:95-121 | the keys of a dict literal are exactly the keys its entries name |
| DateFormat.MonthNumber | data_preprocessors/PAS_ward_level_preprocessor.py:25 | `%b` reads a month abbreviation in any letter case, and only those |
| DateFormat.MonthNumberOfAbbrev | data_preprocessors/PAS_ward_level_preprocessor.py:25 | every month's abbreviation, in any case, reads back as that month |
| DateFormat.ParseMonthYear | data_preprocessors/PAS_ward_level_preprocessor.py:25 | `strptime(_, '%b %Y')` succeeds iff the text is a month abbreviation, whitespace and exactly four digits; the result is that month and year, else ValueError |
| DateFormat.Parenthesised | data_preprocessors/PAS_ward_level_preprocessor.py:23 | `split('(')[1].split(')')[0]` is absent iff there is no '('; the text found holds no parenthesis |
| DateFormat.ConvertDateFormat | data_preprocessors/PAS_ward_level_preprocessor.py:21-25 | IndexError iff the label has no '(' |
| DateFormat.ConvertDateFormatLabel | data_preprocessors/PAS_ward_level_preprocessor.py:21-25 | every accepted label is printed as a well-formed "YYYY-MM" |
| DateFormat.ConvertDateFormatRoundTrip | data_preprocessors/PAS_ward_level_preprocessor.py:21-25 | a label with "(Mon YYYY)" after '('-free text converts to that year and month, whatever follows |
| DateFormat.ParseMonthYearOf | data_preprocessors/PAS_prerocess_ward_level.py:57-61 | "Mon YYYY" parses back to its month and year |
| SurveyTable.ConvertMonthCell | data_preprocessors/PAS_crime_preprocessor.py:33-37 | a cell converts iff it is text the parser accepts, and then to a "YYYY-MM" label |
| SurveyTable.ConvertMonths | data_preprocessors/PAS_crime_preprocessor.py:40 | `apply` succeeds iff every month converts; it then keeps the row count and replaces each month by its conversion; a failed `apply` raises the error of the first row that does not convert |
| SurveyTable.ConvertMonthsLabels | data_preprocessors/PAS_prerocess_ward_level.py:64 | after the conversion every month is a "YYYY-MM" label and every other cell is unchanged |
| SurveyTable.ConvertMonthColumn | data_preprocessors/PAS_ward_level_preprocessor.py:41 | KeyError when the table has no MONTH column; otherwise the same columns and the converted rows |
| Frames.ValueCountsEntries | data_preprocessors/PAS_ward_level_preprocessor.py:60 | `value_counts()` lists exactly the answers present, each with its number of occurrences |
| Frames.ValueCountsShape | data_preprocessors/PAS_crime_preprocessor.py:53 | the counts have distinct keys, are in non-increasing order and add up to the number of non-missing answers |
| Frames.SortedKeys | data_preprocessors/PAS_crime_preprocessor.py:43 | the group keys are strictly sorted and are exactly the keys of rows with no missing key cell |
| Frames.RowsWithKey | app/app_func.py:157 | a group holds exactly the rows with its key |
| Frames.RowsWithKeyFilters | app/app_func.py:157 | a group holds each row with its key as many times as the frame does, no other row, in the frame's order |
| Frames.GroupBy | data_preprocessors/PAS_ward_level_preprocessor.py:44 | groups are non-empty and in strictly increasing key order |
| Frames.GroupByMembers | data_preprocessors/PAS_ward_level_preprocessor.py:44 | each group holds exactly the rows with its key; the groups' keys are exactly the keys of the rows |
| Frames.GroupKeyIsRead | data_preprocessors/PAS_ward_level_preprocessor.py:44 | each group's key is the pair of texts some row holds in the two grouping columns |
| Frames.KeyLessTotal | data_preprocessors/PAS_ward_level_preprocessor.py:44 | two different (borough, month) keys are ordered one way or the other |
| Frames.SortByCountSpec | data_preprocessors/PAS_ward_level_preprocessor.py:60 | sorting by count gives non-increasing counts and preserves the total |
| Measures.EthnicShares | data_preprocessors/PAS_ward_level_preprocessor.py:74-79 | each of the five shares is the number of the group's respondents with that ethnic group (over the group size), at most the group size, and positive iff the label occurs; "Other" is one minus the White British, White Other, Black and Asian shares, so it lies between the Mixed share and 1 and the six add up to 1 plus the Mixed share |
| Boroughs.Rename | data_preprocessors/PAS_crime_preprocessor.py:65 | one `.loc` assignment changes a name iff it equals the old name (and the new one differs) |
| Boroughs.NormaliseBoroughIsLookup | data_preprocessors/PAS_crime_preprocessor.py:65-69 | the five renames in sequence are one table lookup; exactly the five listed names change |
| Boroughs.NormaliseBoroughIdempotent | data_preprocessors/PAS_ward_level_preprocessor.py:99-103 | normalising a normalised name changes nothing |
| Boroughs.NormaliseTrustBoroughSpec | app/app_data_preprocessor.py:109-112 | the trust table's four renames change exactly the listed names other than Westminster, agree with the five elsewhere and are idempotent |
| Boroughs.ReplaceValue | data_preprocessors/PAS_ward_level_preprocessor.py:99 | in place on the column: each cell equal to the old name becomes the new one, every other cell is kept |
| Boroughs.NormaliseBoroughColumn | data_preprocessors/PAS_ward_level_preprocessor.py:99-103 | in place: each cell becomes its normalised name |
| Boroughs.NormaliseTrustColumn | app/app_data_preprocessor.py:236-239 | in place: each cell becomes its trust-normalised name |
| WardLevel.BoroughColumnOfFile | data_preprocessors/PAS_ward_level_preprocessor.py:32-35 | the borough column depends only on the five characters before ".csv"; the configured file uses "Borough" |
| WardLevel.FirstUnknown | data_preprocessors/PAS_ward_level_preprocessor.py:63-68 | the first answer, in value-count order, that has no weight; every earlier one has a weight |
| WardLevel.ApplyWeights | data_preprocessors/PAS_ward_level_preprocessor.py:63-68 | in place: every count before the first unweighted answer is multiplied by its weight; it and every later count keep their raw value (the `break`) |
| WardLevel.WardTotalProportion | data_preprocessors/PAS_ward_level_preprocessor.py:60-69 | the loop computes the weighted-count sum over the number of answers |
| WardLevel.TotalProportionBounds | data_preprocessors/PAS_ward_level_preprocessor.py:60-69 | NaN iff the group has no answer; otherwise a ratio in [0, 1] over the number of answers |
| WardLevel.TotalProportionAllKnown | data_preprocessors/PAS_ward_level_preprocessor.py:60-69 | with every answer weighted, the result is the mean answer weight |
| WardLevel.TotalProportionMostFrequentUnknown | data_preprocessors/PAS_ward_level_preprocessor.py:63-69 | when the most frequent answer has no weight nothing is weighted and the proportion is 1 |
| WardLevel.TotalProportionMajorityUnknown | data_preprocessors/PAS_ward_level_preprocessor.py:63-69 | an unweighted answer given by more than half of the group makes the proportion 1 |
| WardLevel.DontKnowExample | data_preprocessors/PAS_ward_level_preprocessor.py:63-69 | "Strongly disagree" with two "Don't know" scores 3/3 |
| WardLevel.MeasureFor | data_preprocessors/PAS_ward_level_preprocessor.py:57-95 | a (question, group) pair yields a row iff the question is not weighted and both it and the ethnicity column exist; the row carries the question, the group's key and a proportion that is NaN or in [0, 1] |
| WardLevel.MeasureStep | data_preprocessors/PAS_ward_level_preprocessor.py:57-95 | the `try` block computes that row |
| WardLevel.AggregateQuestion | data_preprocessors/PAS_ward_level_preprocessor.py:52-95 | the inner loop appends one question's rows, group by group |
| WardLevel.AggregateWard | data_preprocessors/PAS_ward_level_preprocessor.py:51-95 | the nested loops append every question's rows in question order |
| WardLevel.WardRowsMembers | data_preprocessors/PAS_ward_level_preprocessor.py:51-95 | a row is in the output iff some question's group outputs produce it |
| WardLevel.WardRowsSound | data_preprocessors/PAS_ward_level_preprocessor.py:51-95 | every output row names a listed, unweighted, present question and an existing group, with a proportion that is NaN or in [0, 1]; no ethnicity column means no rows |
| WardLevel.WardRowsComplete | data_preprocessors/PAS_ward_level_preprocessor.py:51-95 | every unskipped (question, group) pair contributes its row |
| WardLevel.RenameRows | data_preprocessors/PAS_ward_level_preprocessor.py:99-103 | every row keeps its position, date, measure, proportion and shares, and its borough becomes the normalised name |
| WardLevel.RenameRowsIdempotent | data_preprocessors/PAS_ward_level_preprocessor.py:99-103 | renaming twice is renaming once |
| WardLevel.RenameBoroughs | data_preprocessors/PAS_ward_level_preprocessor.py:99-103 | the renames of the result column equal `RenameRows` |
| WardLevel.RunWardLevel | data_preprocessors/PAS_ward_level_preprocessor.py:32-103 | the script over the configured questions equals `WardLevelOutput` |
| WardLevel.GroupDateIsLabel | data_preprocessors/PAS_ward_level_preprocessor.py:41-44 | after the conversion every group's month is a "YYYY-MM" label |
| WardLevel.WardLevelOutputSpec | data_preprocessors/PAS_ward_level_preprocessor.py:32-103 | every output row has a "YYYY-MM" date, a normalised borough, a listed unweighted question, and a proportion that is NaN or in [0, 1] |
| WardLevel.WardLevelRow | data_preprocessors/PAS_ward_level_preprocessor.py:32-103 | the same, for one output row |
| WardLevel.WardRowOfTable | data_preprocessors/PAS_ward_level_preprocessor.py:41-95 | a row appended by the loop, before the renames, has a "YYYY-MM" date, a listed unweighted question, and a proportion that is NaN or in [0, 1] |
| WardLevelNormalised.NormalisedProportion | data_preprocessors/PAS_prerocess_ward_level.py:84-85 | a ratio over the number of answers; 0 when there is none (empty sum) |
| WardLevelNormalised.NormalisedProportionIsMeanWeight | data_preprocessors/PAS_prerocess_ward_level.py:84-85 | frequency × weight summed over the answers is the mean answer weight, with unweighted answers counting 0 |
| WardLevelNormalised.NormalisedProportionBounds | data_preprocessors/PAS_prerocess_ward_level.py:84-85 | the proportion lies in [0, 1] |
| WardLevelNormalised.UnknownAnswerWeighsZero | data_preprocessors/PAS_prerocess_ward_level.py:85 | adding an unweighted answer adds 0 to the sum and 1 to the count |
| WardLevelNormalised.AgreesWithFirstScriptWhenAllKnown | data_preprocessors/PAS_prerocess_ward_level.py:84-85 | with every answer weighted, both scripts give the same proportion |
| WardLevelNormalised.AgreementExample | data_preprocessors/PAS_prerocess_ward_level.py:84-85 | two "Strongly agree" and one "Disagree" give 2.25/3 = 0.75 |
| WardLevelNormalised.DontKnowDisagreement | data_preprocessors/PAS_prerocess_ward_level.py:84-85 | "Strongly disagree" with two "Don't know" scores 0 here but 1 in the first script |
| WardLevelNormalised.NormalisedMeasureFor | data_preprocessors/PAS_prerocess_ward_level.py:74-109 | a pair yields a row iff the question and ethnicity columns exist; the row carries the question, the group's key, a proportion in [0, 1] and the group size |
| WardLevelNormalised.WeightedQuestionsKept | data_preprocessors/PAS_prerocess_ward_level.py:80-85 | the weighted questions get rows here but none in the first script |
| WardLevelNormalised.NormalisedStep | data_preprocessors/PAS_prerocess_ward_level.py:78-109 | the `try` block computes that row |
| WardLevelNormalised.AggregateNormalisedQuestion | data_preprocessors/PAS_prerocess_ward_level.py:74-109 | the inner loop appends one question's rows |
| WardLevelNormalised.AggregateNormalised | data_preprocessors/PAS_prerocess_ward_level.py:73-109 | the nested loops append every question's rows |
| WardLevelNormalised.NormalisedRowsMembers | data_preprocessors/PAS_prerocess_ward_level.py:73-109 | a row is in the output iff some question's group outputs produce it |
| WardLevelNormalised.NormalisedRowsSound | data_preprocessors/PAS_prerocess_ward_level.py:73-109 | every row names a listed, present question and an existing group, with a proportion in [0, 1]; no ethnicity column means no rows |
| WardLevelNormalised.QuestionRowsFull | data_preprocessors/PAS_prerocess_ward_level.py:74-109 | with the question and ethnicity columns present every group yields its row, in group order |
| WardLevelNormalised.NormalisedRowsOrder | data_preprocessors/PAS_prerocess_ward_level.py:73-109 | with every question present the output is question-major: block i holds question i's row for every group, in group order |
| WardLevelNormalised.LocalWeightsAreWeights | data_preprocessors/PAS_prerocess_ward_level.py:17-43 | the script's own 25-entry `weights` literal denotes the same weight table as the first script's |
| WardLevelNormalised.RunNormalised | data_preprocessors/PAS_prerocess_ward_level.py:17-109 | the script over the configured questions, weighing by its own literal (which `LocalWeightsAreWeights` shows is `Weights`), equals `NormalisedOutput` |
| WardLevelNormalised.NormalisedOutputSpec | data_preprocessors/PAS_prerocess_ward_level.py:48-109 | every output row has a "YYYY-MM" date, a listed question, a proportion in [0, 1] and a borough read unchanged from the input |
| WardLevelNormalised.GroupBoroughIsRead | data_preprocessors/PAS_prerocess_ward_level.py:64-67 | each group's borough is spelled exactly as in the borough cell of some row read |
| CrimePriorities.CrimeColumnsOfFile | data_preprocessors/PAS_crime_preprocessor.py:26-27 | the borough and answer columns depend only on the five characters before ".csv" |
| CrimePriorities.CrimeFileColumns | data_preprocessors/PAS_crime_preprocessor.py:21-27 | the 2020-21 file is read with "Borough"/"NPQ135A", 2019-20 with "C2"/"NPQ135A", the older files with "C2"/"PQ135AA" |
| CrimePriorities.CrimeTypeDict | data_preprocessors/PAS_crime_preprocessor.py:53 | `value_counts().to_dict()`: exactly the answers present, with their counts, in non-increasing order, adding up to the answers |
| CrimePriorities.CollectFileRows | data_preprocessors/PAS_crime_preprocessor.py:51-57 | the loop appends one row per group, in group order |
| CrimePriorities.RunFile | data_preprocessors/PAS_crime_preprocessor.py:24-59 | one pass of the file loop equals `FileResult` |
| CrimePriorities.FileRowsSpec | data_preprocessors/PAS_crime_preprocessor.py:43-57 | one row per (borough, month) present, strictly ordered, each with its group's crime-type counts |
| CrimePriorities.FileResultSpec | data_preprocessors/PAS_crime_preprocessor.py:24-59 | a successful file gives its grouped rows, each dated "YYYY-MM" |
| CrimePriorities.RenameCrimeRows | data_preprocessors/PAS_crime_preprocessor.py:65-69 | each row keeps its date and counts and gets its normalised borough |
| CrimePriorities.RenameCrimeRowsIdempotent | data_preprocessors/PAS_crime_preprocessor.py:65-69 | renaming twice is renaming once |
| CrimePriorities.CollectFiles | data_preprocessors/PAS_crime_preprocessor.py:24-59 | the file loop collects each file's rows, or the first exception |
| CrimePriorities.RunFiles | data_preprocessors/PAS_crime_preprocessor.py:24-69 | loop, `pd.concat` and renames equal `CrimeOutput` |
| CrimePriorities.RunCrime | data_preprocessors/PAS_crime_preprocessor.py:21-69 | the script over its five files |
| CrimePriorities.CrimeOutputSpec | data_preprocessors/PAS_crime_preprocessor.py:21-69 | a successful run read every file; each row has a "YYYY-MM" date, a normalised borough and well-formed counts; every file's rows appear, renamed |
| CrimePriorities.CrimeOutputRow | data_preprocessors/PAS_crime_preprocessor.py:21-69 | one output row has a "YYYY-MM" date, a normalised borough, and crime types listed once each, most frequent first |
| CrimePriorities.CrimeOutputCovers | data_preprocessors/PAS_crime_preprocessor.py:59-69 | every row of every file is in the output with its borough renamed |
| CrimePriorities.FileRowShape | data_preprocessors/PAS_crime_preprocessor.py:40-57 | each row of one file has a "YYYY-MM" date and crime types listed once each, most frequent first |
| CrimePriorities.CrimeOutputOrder | data_preprocessors/PAS_crime_preprocessor.py:59-63 | file i's rows follow those of the earlier files, in file order |
| AppFunctions.MonthPrefix | app/app_func.py:138-139 | `date_str[:7]`: seven characters long when the input is, otherwise the input; always a prefix |
| AppFunctions.MonthPrefixSpec | app/app_func.py:138-139 | idempotent; a "YYYY-MM" label followed by anything yields that label |
| AppFunctions.Where | app/app_func.py:151 | exactly the rows whose cell is the value |
| AppFunctions.WhereFilters | app/app_func.py:151 | each matching row is kept as many times as the frame holds it, no other row, in the frame's order |
| AppFunctions.AnswerIn | app/app_func.py:154 | `isin`: exactly the rows whose answer is one of the values |
| AppFunctions.AnswerInFilters | app/app_func.py:154 | each row whose answer is one of the values is kept as many times as the frame holds it, no other row, in the frame's order |
| AppFunctions.AnswerInGroup | app/app_func.py:154-158 | filtering then grouping counts the same rows as grouping then filtering |
| AppFunctions.PercentRowsSpec | app/app_func.py:154-166 | one row per (borough, ethnic group) present, strictly ordered; each is 100 × matching / total of its group, in [0, 100], and 0 iff no answer of the group matches |
| AppFunctions.CalculatePercentages | app/app_func.py:146-166 | an empty three-column frame when the question is absent; KeyError iff the question is present and a grouping column is not |
| AppFunctions.CalculatePercentagesSpec | app/app_func.py:150-166 | the rows are those of the selected ethnic group's rows ("All" keeps all), and then every row names that group |
| AppData.PathJoin | app/app_data_preprocessor.py:35 | `os.path.join`: an absolute second part replaces the first; otherwise the first part, then the second |
| AppData.PerceptionStem | app/app_data_preprocessor.py:35-36 | dropping ".csv" from the joined path leaves "data/public-perception-data" |
| AppData.PasStem | app/app_data_preprocessor.py:38-39 | dropping ".xlsx" leaves "data/" and the file's stem |
| AppData.NeighbourhoodBoroughSpec | app/app_data_preprocessor.py:57 | only "Westminster" changes; idempotent; agrees with the survey normalisation wherever that does not rename |
| AppData.PreprocessNeighbourhoods | app/app_data_preprocessor.py:52-59 | in place: each borough cell becomes its renamed value |
| AppData.MapColumn | app/app_data_preprocessor.py:75 | `apply` in place on a column: each cell becomes f of its old value |
| AppData.SliceColumn | app/app_data_preprocessor.py:115 | `x[:n]` on a column: TypeError iff some cell is missing; otherwise each cell is cut, other cells are unchanged |
| AppData.ExcludedAreWeightedQuestions | app/app_data_preprocessor.py:72 | the home page excludes exactly the weighted questions |
| AppData.WhereNotIn | app/app_data_preprocessor.py:72 | `~isin`: exactly the rows whose measure is not one of the values |
| AppData.WhereNotInFilters | app/app_data_preprocessor.py:72 | each row whose measure is not one of the values is kept as many times as the frame holds it, no other row, in the frame's order |
| AppData.WhereNotInPartition | app/app_data_preprocessor.py:72 | `isin` and `~isin` split the rows between them |
| AppData.DescribeMeasure | app/app_data_preprocessor.py:84-87 | `map`: a code becomes its description, an unknown code a missing cell |
| AppData.KeepNamed | app/app_data_preprocessor.py:79 | exactly the columns not starting with "Unnamed" |
| AppData.HomepageBorough | app/app_data_preprocessor.py:72-87 | KeyError iff "Measure" or "Total Proportion" is absent |
| AppData.HomepageBoroughSpec | app/app_data_preprocessor.py:72-87 | exactly the non-excluded rows, in order, each measure replaced by its description and every other cell kept; no weighted question and no unnamed column is left |
| AppData.HomepageBoroughDescribed | app/app_data_preprocessor.py:80-85 | with the descriptions built from the question dictionary, a kept row with question i's code shows question i's short description, and a measure that is no question code becomes missing |
| AppData.HomepageMps | app/app_data_preprocessor.py:75 | KeyError without "Date"; TypeError iff a date is missing; otherwise each date is cut to its first four characters |
| AppData.RunHomepageBorough | app/app_data_preprocessor.py:72-87 | the statements in sequence equal `HomepageBorough` |
| AppData.TrustTable | app/app_data_preprocessor.py:106-115 | the columns are kept |
| AppData.TrustTableSpec | app/app_data_preprocessor.py:106-115 | exactly the "Trust MPS" rows, in order; boroughs renamed; dates cut to "YYYY-MM"; other cells kept; fails iff one of those rows has no date |
| AppData.TrustDates | app/app_data_preprocessor.py:106-115 | cutting the dates fails iff one of the kept rows has no date text |
| AppData.TrustRows | app/app_data_preprocessor.py:106-115 | after the cut every kept row has its renamed borough, its date cut to "YYYY-MM" and its other cells unchanged |
| AppData.RunTrustTable | app/app_data_preprocessor.py:233-242 | the statements in sequence equal `TrustTable` |
| AppData.YearTables | app/app_data_preprocessor.py:122-146 | the three per-year dicts share their five distinct keys, in order; "Borough" and "ReNQ147" belong to 2020-21 only |
| AppData.YearFilesAgree | app/app_data_preprocessor.py:122-137 | the borough column of each year matches what the crime preprocessor derives from that file name; the files are the crime preprocessor's, except that its 2020-21 path spells the directory in upper case |
| AppData.RecCodesDistinct | app/app_data_preprocessor.py:149-231 | the 16 recommendation questions have distinct codes |
| AppData.RecValuesAreAnswerLabels | app/app_data_preprocessor.py:149-231 | each question counts two negative answers, both real answer labels |
| AppData.RecValuesAsWrittenUnlabelled | app/app_data_preprocessor.py:219-229 | as written, the last three questions count "strongly disagree", which is no answer label |
| AppData.LastThreeAsWritten | app/app_data_preprocessor.py:216-229 | the last three questions' values, as written, omit "Strongly disagree" |
| AppData.StronglyDisagreeAsWritten | app/app_data_preprocessor.py:219-229 | with those values, a group whose every member answered "Strongly disagree" scores 0% |
| AppData.StronglyDisagreeCorrected | app/app_data_preprocessor.py:214 | with the capitalised label the same group scores 100% |
| AppData.RecommendationPercentages | app/pages/recommendations.py:69-77 | with the question's values as written: the result columns are "Borough", "ReNQ147", "Percentage"; empty when the question is absent; KeyError iff that year's grouping columns are missing |
| AppData.RecommendationPercentagesCorrected | app/app_data_preprocessor.py:219-229 | the same page with "Strongly disagree" capitalised: the same columns, emptiness and KeyError conditions |
| AppData.RecommendationCorrectionScope | app/app_data_preprocessor.py:149-231 | the correction changes nothing for the first thirteen questions and changes the values of the last three |
| PoliceApi.SplitJoin | functions/api_func.py:104 | splitting a separator-joined list of separator-free parts gives the parts back |
| PoliceApi.PairsRoundTrip | functions/api_func.py:104 | a `k=v&k=v` string of safe pairs parses back to those pairs |
| PoliceApi.Url | functions/api_func.py:98-104 | the URL is the path, then '?' and the query when there is one |
| PoliceApi.UrlRoundTrip | functions/api_func.py:98-114 | a well-formed request's URL parses back to its path and query |
| PoliceApi.CurrentDateLabel | functions/api_func.py:104 | `f"{year}-{month}"` is unpadded: a valid "YYYY-MM" only for months 10-12, six characters for earlier months |
| PoliceApi.CurrentDateSafe | functions/api_func.py:104 | the current date holds no '?', '&' or '=' |
| PoliceApi.PolyRoundTrip | functions/api_func.py:114 | the polygon value splits back into its three `lat:lng` pairs |
| PoliceApi.PolyNoDateAsWrittenUnreadable | functions/api_func.py:106 | as written, the dateless polygon value does not split into `lat:lng` pairs |
| PoliceApi.LocationParams | functions/api_func.py:238-255 | lat/lng when lat is truthy and lng is not None; else a polygon (IndexError below three points), written with its third vertex `lat,lng` when no date is given; else the location id; else ValueError |
| PoliceApi.PolyNoDateAsWrittenSafe | functions/api_func.py:106 | the as-written polygon value still holds no query syntax |
| PoliceApi.LocationParamsSafe | functions/api_func.py:238-255 | safe arguments give safe query parameters |
| PoliceApi.Forces | functions/api_func.py:34-40 | the force list, or a Leicestershire resource named in any case; any other type leaves `url` unbound |
| PoliceApi.ForcesCaseInsensitive | functions/api_func.py:37-40 | lower-casing the type first changes nothing |
| PoliceApi.StreetLevelCrimes | functions/api_func.py:97-118 | path crimes-street/(all-crime or the type); the location (a dateless polygon written as on line 106), then the date; ValueError iff there is neither lat/lng nor a polygon |
| PoliceApi.StreetLevelOutcomes | functions/api_func.py:235-258 | the date, then lat/lng, polygon (a dateless one written as on line 241) or location id; an error exactly when the location parameters fail |
| PoliceApi.CrimesAtLocation | functions/api_func.py:295-314 | the date, then lat/lng or location id; ValueError otherwise |
| PoliceApi.CrimesNoLocation | functions/api_func.py:361-376 | succeeds iff category is "" or both are given; a None force is sent as "None" |
| PoliceApi.CrimeCategories | functions/api_func.py:418-429 | only the date, the current one when none is given |
| PoliceApi.OutcomeForCrime | functions/api_func.py:489-494 | the crime id appended to the path; ValueError iff there is none |
| PoliceApi.NeighbourhoodsForForce | functions/api_func.py:529-533 | force/neighbourhoods; ValueError iff there is no force |
| PoliceApi.NeighbourhoodRequest | functions/api_func.py:568-575 | force/id plus the resource's segment when both are given; the message when neither is; ValueError when only one is |
| PoliceApi.NeighbourhoodSegments | functions/api_func.py:610-617 | the path after the root splits back into force, id and segment |
| PoliceApi.NeighbourhoodAtLocation | functions/api_func.py:784-789 | `q=lat,lng` iff both are given |
| PoliceApi.ZeroLatitude | functions/api_func.py:103 | latitude 0.0 is accepted by locate-neighbourhood but rejected by the truthiness tests of the other builders |
| PoliceApi.StopSearch | functions/api_func.py:844-870 | stops-at-location over http when a location id is given, stops-street otherwise; the location, then the date |
| PoliceApi.StopSearchNoLocation | functions/api_func.py:910-918 | the force and the date; ValueError iff there is no force |
| PoliceApi.StopSearchForce | functions/api_func.py:955-963 | the force and the date; ValueError iff there is no force |
| PoliceApi.StreetLevelCrimesRoundTrip | functions/api_func.py:97-114 | the URL built parses back to its request |
| PoliceApi.StreetLevelOutcomesRoundTrip | functions/api_func.py:235-253 | the URL built parses back to its request |
| PoliceApi.StreetLevelCrimesPoly | functions/api_func.py:102-114 | on the polygon branch the query's polygon reads back as the three vertices iff a date is given |
| PoliceApi.StreetLevelOutcomesPoly | functions/api_func.py:237-251 | the same for the outcomes query, whose polygon follows the date |
| PoliceApi.CrimesAtLocationRoundTrip | functions/api_func.py:295-309 | the URL built parses back to its request |
| PoliceApi.StopSearchRoundTrip | functions/api_func.py:844-865 | the URL built parses back to its request |
| PoliceApi.CrimesNoLocationRoundTrip | functions/api_func.py:361-371 | with query-safe arguments the crimes-with-no-location URL parses back to its request |
| PoliceApi.CrimeCategoriesRoundTrip | functions/api_func.py:418-426 | with a query-safe date the crime-categories URL parses back to its request |
| PoliceApi.StopSearchNoLocationRoundTrip | functions/api_func.py:902-916 | with query-safe arguments the stops-with-no-location URL parses back to its request |
| PoliceApi.StopSearchForceRoundTrip | functions/api_func.py:950-961 | with query-safe arguments the stops-by-force URL parses back to its request |
| MapClick.Step | functions/api_func.py:133-157 | a non-click changes nothing; a click appends below three markers, else returns the three and clears the list |
| MapClick.ReplayHoldsRecentClicks | functions/api_func.py:131-157 | after any events the list holds the last (clicks mod 4) click points, so never more than three |
| MapClick.FourthClickReturnsPreviousThree | functions/api_func.py:142-157 | a call returns points iff it is a click and the number of earlier clicks is 3 mod 4; it then returns the three previous clicks, in order |
| MapClick.MarkerStore.constructor | functions/api_func.py:131 | the list starts empty |
| MapClick.MarkerStore.OnMapClick | functions/api_func.py:133-157 | the stored markers and the returned value are those of `Step`; at most three markers are ever stored |

## Left out

- File and network I/O are not modelled. This covers `read_csv`, `read_excel`, `to_csv`, `read_pickle`, the GeoJSON reader, `requests.get`, `json.loads`, `subprocess.run` and `download_file`. A table read from a file is a parameter, and a builder returns the request it would send.
- `datetime.now()` is not read: the clock is a `Clock` parameter.
- Float rendering is not modelled: a coordinate's printed form is a `show` parameter, and only its character set is constrained.
- Floating-point arithmetic is not modelled: proportions and percentages are exact ratios.
  - So rounding is left out: `round(2)` at app/app_func.py:163 and app/app_data_preprocessor.py:80.
  - So is `astype(float)` at app/app_data_preprocessor.py:78.
- `DataFrame.append` and `pd.concat` are not modelled: results are sequences of records.
- Dict literals are modelled as sequences of entries rather than maps. This covers the per-year dicts and the question dict of app/app_data_preprocessor.py:122-231.
- AppData.RecStatement: the question wording is modelled, but no property of it (such as starting with its code) is stated.
- Python's unreachable `else: raise ValueError('Specify the date ...')` branches cannot be taken (a value is either None or not), so they have no counterpart.
- The texts of exception messages are not modelled; only the exception kind is.
- The map, chart and page code is not modelled: folium/ipyleaflet layers, plotly figures, `create_map`, `choose_poly`, the streamlit pages and the display functions of app/app_func.py.
- `get_caller_script` (stack inspection) is not modelled.
- `extract_last_updated` is only its constant URL: it takes no arguments.
- MapClick.MarkerStore.OnMapClick: a marker is its coordinates. Adding and removing the ipyleaflet layer, and printing the click, are not modelled.
- RecommendationPercentages: the page renames the year's columns to "Borough"/"ReNQ147" before the call. The model groups by the original columns and relabels the result. The two differ only if the frame already holds a column with the new name.
- WardLevel.ApplyWeights: `weights.get(ans)` returning None makes the product raise; the bare `except` prints and breaks. The model keeps the remaining raw counts and does not model the print.
- The two ward-level scripts treat an answer without a weight differently. data_preprocessors/PAS_ward_level_preprocessor.py:63-68 stops weighting at the first such answer (its `break`), while data_preprocessors/PAS_prerocess_ward_level.py:85 weighs it 0 (see WardLevelNormalised.DontKnowDisagreement).
- Measures.EthnicShares: "Other" does not subtract the Mixed share (data_preprocessors/PAS_ward_level_preprocessor.py:79), so the six shares sum to 1 plus that share.
- Frames.ValueCounts: answers with equal counts are taken in the order they first appear in the column. pandas does not document its tie order, so WardLevel.FirstUnknown and WardLevel.TotalProportion rest on that assumption when an unweighted answer ties with a weighted one.

## Findings

| source | as written | input that shows it | evidently intended | confidence | as-written member | corrected member |
|---|---|---|---|---|---|---|
| app/app_data_preprocessor.py:219-229 | questions Q62TJ, NQ135BD and NQ135BH count the values "Tend to disagree" and "strongly disagree"; `isin` is case-sensitive and the survey's label is "Strongly disagree" (config.py:96, app/app_data_preprocessor.py:214) | a borough whose respondents all answered Q62TJ "Strongly disagree" | "Strongly disagree", as for the other questions: that borough scores 100% | not executed | AppData.StronglyDisagreeAsWritten | AppData.StronglyDisagreeCorrected |
| functions/api_func.py:106, functions/api_func.py:241 | with no date, the polygon's third point is written `lat,lng` instead of `lat:lng` | date None, lat None, poly [(51.5, -0.1), (51.6, -0.2), (51.7, -0.3)] gives `poly=51.5:-0.1,51.6:-0.2,51.7,-0.3` | `51.7:-0.3`, as on lines 114, 251 and 853 | not executed | PoliceApi.PolyNoDateAsWrittenUnreadable | PoliceApi.PolyRoundTrip |
