# rime: problem summary and DOMjudge packing and submission, in Dafny

rime is a toolkit for preparing programming-contest problems. This project
models two of its plugins.

- **The problem summary** (`rime/plugins/summary.py`). After the tests are
  run, `GenerateSummaryOne` turns each solution's results into a report:
  - a verdict table per solution, keyed by test name (the input file's base
    name without its extension);
  - every missing (solution, test) cell filled with NA;
  - the sorted list of test names;
  - the counts of correct, incorrect and agreeing solutions;
  - five grades, each GOOD, NOTBAD, BAD or NA: solutions, inputs,
    outputs, validator and judge.
- **The DOMjudge packer** (`DOMJudgePacker.Pack` in
  `rime/plugins/judge_system/domjudge.py`). It lays out a testset as a
  DOMjudge problem package:
  - `problem.yaml`;
  - each test as `<name>.in` / `<name>.ans` under `data/sample` or
    `data/secret`;
  - a zip archive of the package.
- **The DOMjudge submitter** (`DOMJudgeSubmitter.Submit` in the same file).
  It resolves the contest problem by its label, picks the DOMjudge
  language, uploads the source and polls for the judgement.

Modules:

| file | module | what it holds |
|---|---|---|
| `optional.dfy` | `Optional` | the `Option` datatype |
| `strings.dfy` | `Strings` | Python's string order, the `in` substring test, `','.join` and its inverse split |
| `paths.dfy` | `Paths` | `os.path.basename`, `os.path.splitext`, `os.path.join` on POSIX, and the test name derived from them |
| `sorting.dfy` | `Sorting` | `sorted(..., key=...)` on string keys, as an insertion sort |
| `summary.dfy` | `Summary` | `GetTestCaseState`, the passes of `GenerateSummaryOne`, the counts and the five grades |
| `domjudge_pack.dfy` | `DomjudgePack` | the packer; the package directory is a class whose fields the steps update |
| `domjudge_submit.dfy` | `DomjudgeSubmit` | the submitter; the HTTP replies are inputs and the requests sent are an output |

How the model treats the outside world:

- **Filesystem (packer).** Every step of `Pack` may raise. The set `fails`
  names the steps that raise; a step that raises changes nothing.
- **Ending a task.** A rime task method ends at its first `yield` of a
  plain value, so `yield False` stops the run there. rime's scheduler of
  task methods, `rime/core/taskgraph.py`, is not part of this model.
- **Polling (submitter).** The replies to the judgement polls are a finite
  sequence. When they run out before a verdict, the outcome is "still
  pending".

## Model

| member | source | states |
|---|---|---|
| `Summary.TestCaseState` | rime/plugins/summary.py:57-64 | the cell is a status cell: NA iff the verdict is NA, GOOD iff it is AC, BAD iff it is any other verdict, never NOTBAD; every verdict but AC keeps its name as the detail |
| `Summary.Collected` | rime/plugins/summary.py:122-128 | a solution's verdict table has exactly the test names of its results as keys, and each entry is a status cell |
| `Summary.CollectedLastWins` | rime/plugins/summary.py:124-128 | a test name is in the table iff some result has that name, and then the entry is the state of the last such result: a later result replaces an earlier one |
| `Summary.LastNamed` | rime/plugins/summary.py:124-128 | the index found is of a result with that test name, and no later result has it |
| `Summary.AllNamesMembership` | rime/plugins/summary.py:121-127 | a name is in the set of all test names iff some solution's results contain it |
| `Summary.EveryNameInAll` | rime/plugins/summary.py:121-127 | every solution's test names are among all test names |
| `Summary.AllNamesOfPermutation` | rime/plugins/summary.py:117-127 | the set of all test names does not depend on the order of the solutions |
| `Summary.FillAsWritten` | rime/plugins/summary.py:134-140 | the fill as written gives each table exactly the union of its keys and all test names; entries already there are kept, and every missing name gets the raw NA result rather than a status cell |
| `Summary.FillAsWrittenLeavesCellWithoutStatus` | rime/plugins/summary.py:134-140 | the fill as written leaves a cell without a status: a solution without a result for "01" gets a raw NA result, while its neighbour has a status cell (Findings row 1) |
| `Summary.Ordered` | rime/plugins/summary.py:117 | the results sorted by solution name are a permutation of the input, with names in non-decreasing order |
| `Summary.CountCorrect` | rime/plugins/summary.py:160-162 | the count of correct solutions never exceeds the number of results |
| `Summary.CountAgreed` | rime/plugins/summary.py:164-165 | the agreed count never exceeds the correct count |
| `Summary.CountsOfConcat` | rime/plugins/summary.py:160-165 | the correct and agreed counts of two lists together are the sums of their counts |
| `Summary.CountsOfPermutation` | rime/plugins/summary.py:158-165 | the correct and agreed counts do not depend on the order of the results |
| `Summary.CountCorrectPositive` | rime/plugins/summary.py:169-174 | at least one result counts as correct iff some solution is flagged correct |
| `Summary.CountCorrectAtLeastTwo` | rime/plugins/summary.py:169-172 | at least two results count as correct iff two different results are of correct solutions |
| `Summary.AllAgreed` | rime/plugins/summary.py:183-184 | the agreed count equals the correct count iff every correct solution behaved as expected |
| `Summary.SolutionsGradeMeaning` | rime/plugins/summary.py:169-174 | solutions grade GOOD iff two different results are correct, NOTBAD iff exactly one is, BAD iff none is |
| `Summary.InputsGrade` | rime/plugins/summary.py:177-180 | GOOD iff there are at least 20 test cases, BAD iff fewer |
| `Summary.OutputsGradeMeaning` | rime/plugins/summary.py:183-188 | outputs GOOD iff at least two are correct and every correct one agrees; NOTBAD iff at least two agree and some correct one does not; BAD iff fewer than two agree |
| `Summary.OutputsNoBetterThanSolutions` | rime/plugins/summary.py:168-188 | with the agreed count at most the correct count, the outputs grade is never better than the solutions grade |
| `Summary.ValidatorGrade` | rime/plugins/summary.py:191-194 | GOOD iff the testset has a validator, BAD iff it has none |
| `Summary.CustomJudges` | rime/plugins/summary.py:198-200 | a judge is kept iff its class is not the internal diff judge |
| `Summary.JudgeGrade` | rime/plugins/summary.py:196-206 | NA iff no custom judge is needed; otherwise GOOD iff some judge is not the internal diff judge, BAD iff all are; never NOTBAD |
| `Summary.DisplayTitle` | rime/plugins/summary.py:210 | the title shown is never empty, and a non-empty title is shown as given |
| `Summary.AssigneesReadBack` | rime/plugins/summary.py:154-156 | assignee names without commas are recovered by splitting the joined text at the commas |
| `Summary.CollectResults` | rime/plugins/summary.py:124-128 | the inner loop builds exactly the solution's verdict table and adds exactly its test names to those seen |
| `Summary.CollectRow` | rime/plugins/summary.py:122-132 | one solution's entry: its name and its verdict table, with its test names added to those seen |
| `Summary.AllNamesStep` | rime/plugins/summary.py:121-127 | the test names seen after one more solution are those before plus that solution's |
| `Summary.CollectVerdicts` | rime/plugins/summary.py:120-132 | the first pass gives one table per solution, in order, each with that solution's name and verdict table, and the set of all test names |
| `Summary.FillMissing` | rime/plugins/summary.py:134-140 | after the fill each table has exactly its old keys plus all test names; old entries are unchanged and only missing names get the NA status cell (with the correction of Findings row 1) |
| `Summary.ListingInsert` | rime/plugins/summary.py:151 | inserting a new name into a sorted list of distinct names keeps it sorted, distinct and complete |
| `Summary.ListingIncreasing` | rime/plugins/summary.py:151 | a sorted list of distinct names is strictly increasing |
| `Summary.SortedNames` | rime/plugins/summary.py:151 | `sorted(testnames)` lists every test name exactly once, in strictly increasing order |
| `Summary.RowsSorted` | rime/plugins/summary.py:117-132 | tables named after results sorted by solution name are sorted by name too |
| `Summary.TablesInOrder` | rime/plugins/summary.py:117-140 | the two passes give, position by position, the filled table of the results in solution-name order |
| `Summary.TablesComplete` | rime/plugins/summary.py:134-140 | after the fill every table has every test name as a key, and only status cells (with the correction of Findings row 1) |
| `Summary.GenerateSummaryOne` | rime/plugins/summary.py:116-228 | the summary: the tables in solution-name order, each complete; test names once each and sorted; the correct and agreed counts; correct plus incorrect equals the number of solutions; agreed at most correct; the five grades; title and assignees (with the correction of Findings row 1) |
| `Paths.ExtLen` | rime/plugins/summary.py:125-126 | the extension split off is never longer than the name |
| `Paths.ExtShape` | rime/plugins/summary.py:125-126 | root plus extension is the name; a non-empty extension is one dot with no other dot after it, and it leaves a root that is not all dots |
| `Paths.BaseNameOfPlainName` | rime/plugins/summary.py:125-126 | a name without '/' is its own base name |
| `Paths.ExtLenOfRenamed` | rime/plugins/judge_system/domjudge.py:57-60 | appending "." and a suffix without dots to a name that is not all dots splits off exactly that suffix and the dot |
| `Paths.TestNameOfRenamed` | rime/plugins/judge_system/domjudge.py:57-60 | the test name of `base.suffix` is `base` when `base` holds no '/' and is not all dots |
| `Paths.BaseNameHasNoSlash` | rime/plugins/summary.py:125-126 | a base name never holds '/' |
| `Paths.TestNameHasNoSlash` | rime/plugins/summary.py:125-126 | a test name never holds '/' |
| `Paths.BaseNameAfterSlash` | rime/plugins/judge_system/domjudge.py:57 | the base name of `dir/name` is `name` when `name` holds no '/' |
| `Paths.TestNameInDir` | rime/plugins/judge_system/domjudge.py:57 | the test name of `dir/base.suffix` is `base` |
| `Paths.JoinPath` | rime/plugins/judge_system/domjudge.py:73-74 | the joined path ends with the joined part; an absolute part replaces the directory; a relative part follows the directory, with one '/' between them unless the directory is empty or already ends in '/' |
| `Paths.BaseNameAfterDir` | rime/plugins/judge_system/domjudge.py:73-74 | whatever follows a prefix that is empty or ends in '/' keeps its own base name |
| `Paths.JoinKeepsBaseName` | rime/plugins/judge_system/domjudge.py:73-74 | joining the output directory in front of a test's input file changes neither its base name nor its test name |
| `Sorting.InsertPos` | rime/plugins/summary.py:117 | the insertion point comes after every element whose key is not greater and before the first greater one |
| `Sorting.Insert` | rime/plugins/summary.py:117 | the result holds the elements of the input plus exactly the inserted one, counted with multiplicity |
| `Sorting.InsertKeepsSorted` | rime/plugins/summary.py:117 | inserting into a sorted list keeps it sorted |
| `Sorting.InsertKeepsDistinct` | rime/plugins/summary.py:151 | inserting an absent element keeps the elements distinct |
| `Sorting.SortBy` | rime/plugins/summary.py:117 | `sorted` returns a permutation of its input whose keys never decrease |
| `Strings.ContainsAcrossSeparator` | rime/plugins/judge_system/domjudge.py:61 | "sample" occurs in `name + ".in"` iff it occurs in `name`: the suffix neither creates nor hides an occurrence |
| `Strings.SplitJoin` | rime/plugins/summary.py:154-156 | splitting `','.join(names)` at the commas gives back names that hold no comma |
| `DomjudgePack.CaseDir` | rime/plugins/judge_system/domjudge.py:61-64 | a test's files go to `data/sample` iff "sample" occurs in its packed input name, and to `data/secret` otherwise |
| `DomjudgePack.PackedNamesKeepTestName` | rime/plugins/judge_system/domjudge.py:57-60 | the packed `.in` and `.ans` names derive back to the test name |
| `DomjudgePack.SampleIffTestNameSaysSample` | rime/plugins/judge_system/domjudge.py:61 | the sample choice depends on the test name alone |
| `DomjudgePack.InputNeverAnswer` | rime/plugins/judge_system/domjudge.py:59-60 | no packed input name equals a packed answer name |
| `DomjudgePack.PackedPathsDiffer` | rime/plugins/judge_system/domjudge.py:56-64 | two tests land on the same path only when they have the same test name, and an input never lands on an answer |
| `DomjudgePack.CaseFiles` | rime/plugins/judge_system/domjudge.py:49-82 | `problem.yaml` and the copied tests hold no archive |
| `DomjudgePack.CaseFilesStep` | rime/plugins/judge_system/domjudge.py:73-82 | copying the next test adds its input and its answer to the files of the tests before it |
| `DomjudgePack.CopiesSucceedStep` | rime/plugins/judge_system/domjudge.py:66-85 | one more test whose two copies do not raise extends the run of successful copies |
| `DomjudgePack.EveryCasePacked` | rime/plugins/judge_system/domjudge.py:56-82 | with distinct test names, each test's input and answer are in the package, copied from the testset's output directory into the directory its name selects |
| `DomjudgePack.YamlKept` | rime/plugins/judge_system/domjudge.py:49-82 | `problem.yaml` holds "name: " + the problem name + "\n", and no copy overwrites it |
| `DomjudgePack.EarlierKey` | rime/plugins/judge_system/domjudge.py:73-82 | a path the last copy does not write was already in the package |
| `DomjudgePack.OnlyPackedFiles` | rime/plugins/judge_system/domjudge.py:49-82 | apart from `problem.yaml`, the package holds only the packed paths of the tests |
| `DomjudgePack.SampleAndSecretExample` | rime/plugins/judge_system/domjudge.py:57-64 | `tests/sample1.in` goes to `data/sample` and `tests/1.in` to `data/secret` |
| `DomjudgePack.PackageDir.Pack` | rime/plugins/judge_system/domjudge.py:38-98 | true iff no step raised, and then the package is exactly the layout: four directories, `problem.yaml`, the copied tests and the zip of the rest; a run that fails after the removal leaves no archive; a removal that raises leaves the package as it was |
| `DomjudgePack.PackageDir.SetUp` | rime/plugins/judge_system/domjudge.py:40-55 | the setup succeeds iff the removal, the four directories and `problem.yaml` all succeed; then the package is the four directories and `problem.yaml` |
| `DomjudgePack.PackageDir.CopyCases` | rime/plugins/judge_system/domjudge.py:56-85 | the copies succeed iff no copy raises, and then the package holds `problem.yaml` and every test's packed files; the directories are unchanged |
| `DomjudgePack.PackageDir.CopyCase` | rime/plugins/judge_system/domjudge.py:66-85 | one test is packed iff neither of its copies raises, and then its input and its answer are added |
| `DomjudgeSubmit.Digits` | rime/plugins/judge_system/domjudge.py:125 | the contest id is written as decimal digits only, at least one, with a leading zero only for 0 |
| `DomjudgeSubmit.DigitsDenote` | rime/plugins/judge_system/domjudge.py:125 | the digits written for a contest id read back as that id |
| `DomjudgeSubmit.LanguageOf` | rime/plugins/judge_system/domjudge.py:102-108 | a language exists iff the code type is c, cxx, java, kotlin or script; cxx gives cpp, script gives python3, and the other three keep their names |
| `DomjudgeSubmit.Matching` | rime/plugins/judge_system/domjudge.py:132-133 | the filter keeps only entries of the list whose label is the problem id |
| `DomjudgeSubmit.UniqueMatchShift` | rime/plugins/judge_system/domjudge.py:132-133 | a first entry with another label can be dropped without changing which entry is the unique match |
| `DomjudgeSubmit.MatchingCount` | rime/plugins/judge_system/domjudge.py:132-136 | the filter is empty iff no label matches; it has one entry iff exactly one entry matches, and then it is that entry |
| `DomjudgeSubmit.ResolveProblemExactlyOne` | rime/plugins/judge_system/domjudge.py:132-137 | the problem resolves iff exactly one entry carries the label, and then to that entry's id |
| `DomjudgeSubmit.PollFrom` | rime/plugins/judge_system/domjudge.py:166-178 | polling never crashes; a decision carries a non-empty verdict and happens within the replies, as does a failure (with the correction of Findings row 2) |
| `DomjudgeSubmit.PollAsWrittenCrashesBeforeJudging` | rime/plugins/judge_system/domjudge.py:175 | an empty judgement list followed by an AC makes the poll as written raise at the first reply, where the corrected poll decides AC at the second (Findings row 2) |
| `DomjudgeSubmit.PollFromDecided` | rime/plugins/judge_system/domjudge.py:166-178 | polling decides verdict v after n polls iff the replies before the n-th all ask again and the n-th is 200 with v, and v is non-empty (with the correction of Findings row 2) |
| `DomjudgeSubmit.PollFromBroken` | rime/plugins/judge_system/domjudge.py:166-178 | polling fails after n polls iff the replies before the n-th all ask again and the n-th is not 200 (with the correction of Findings row 2) |
| `DomjudgeSubmit.PollFromPending` | rime/plugins/judge_system/domjudge.py:166-178 | polling stays pending iff every reply asks again (with the correction of Findings row 2) |
| `DomjudgeSubmit.PollOutcomes` | rime/plugins/judge_system/domjudge.py:166-178 | the decided, failed and pending outcomes of a whole poll, each characterised by the replies (with the correction of Findings row 2) |
| `DomjudgeSubmit.PollFromIgnoresLaterReplies` | rime/plugins/judge_system/domjudge.py:166-178 | once polling has decided or failed, later replies change nothing (with the correction of Findings row 2) |
| `DomjudgeSubmit.Note` | rime/plugins/judge_system/domjudge.py:180-183 | the note is empty iff the solution is correct |
| `DomjudgeSubmit.ReportStartsWithVerdict` | rime/plugins/judge_system/domjudge.py:184-186 | the report line begins with the verdict unchanged, followed by a space and the note |
| `DomjudgeSubmit.Submit` | rime/plugins/judge_system/domjudge.py:111-188 | without a config nothing is sent; otherwise the problem list is fetched first. A failed fetch or a label that does not select exactly one problem stops after that one request with a reported failure; a code type without a language raises `KeyError` after that one request, with no report. Otherwise the upload carries the resolved id, the language and the source, and a failed upload stops there. After a good upload the run polls: a verdict ends it as judged, a failed poll ends it as failed, and running out of replies ends it as pending, with exactly the polls sent (with the correction of Findings row 2) |

## Left out

- `GenerateSummary` (rime/plugins/summary.py:67-114): it reads git output, the user and host names, environment variables and compiler versions.
- `GetFileSize`, `GetFileHash` and `GetSummaryFileComment` are left out: they read files and compute MD5. A test case is listed by its name alone.
- `Summary.TestCaseState`: the running-time detail of an AC cell (`'%.2fs'`) is floating point, so it is the constant `RunTime`.
- The detail texts of the three count grades (`'%d+%d'`, `str(num_tests)`, `'%d/%d'`) are not built. The numbers they print are fields of the summary.
- Verdicts other than NA and AC are opaque names: `rime/basic/test.py` is not part of this model.
- `Sorting.SortBy`: the stability of Python's `sorted` is not proved; the model keeps equal keys in input order by construction.
- `Summary.FillMissing` and `Summary.CollectVerdicts` work on a sequence of table values. The source updates the dicts inside the list in place; aliasing between those dicts is not modelled.
- HTTP, basic-auth credentials, reading the source file, console output and `time.sleep` are left out. A reply is an input, the source text is a field of the solution, and waiting is a no-op.
- `DomjudgeSubmit.Submit`: the `while True` loop is unbounded in the source. The model reads a finite sequence of replies and reports `StillPending` when they run out.
- A filesystem step that raises is modelled as changing nothing. A partial copy or a partly written `problem.yaml` is not modelled.
- `DomjudgePack.PackageDir.Pack`: the archive holds the package as it stood before the zip was written, whether or not `shutil.make_archive` would list the zip inside itself. The zip format and its contents on disk are not modelled.
- rime's scheduler of task methods (`rime/core/taskgraph.py`) and `rime/util/files.py` are not part of this model; `yield False` is read as the end of the run.
- The local name `difffile` (domjudge.py:58) is only printed, so it is not modelled. The answer is copied from the test case's own `difffile`, as in the model.
- `Testset.domjudge_pack_dir` (domjudge.py:33): the package directory is the object the packer updates; its location under the problem's output directory is not modelled.

## Findings

| source | as written | input that shows it | evidently intended | confidence | as-written member | corrected member |
|---|---|---|---|---|---|---|
| rime/plugins/summary.py:135-140 | the NA fill stores the raw NA `TestCaseResult` in the verdict table, not the status cell `GetTestCaseState` builds for every other entry | two solutions, "a" with a result for test `01.in` and "b" with no results: b's table gets a cell without `status` and `detail` | store `GetTestCaseState(empty_verdict)`, an NA status cell | medium, not executed | `Summary.FillAsWrittenLeavesCellWithoutStatus` | `Summary.FillMissing` |
| rime/plugins/judge_system/domjudge.py:175 | the verdict is read as `res.json()[0]` even when the judgement list is empty, which raises `IndexError` | replies `200 []` (the submission is not judged yet) then `200 ["AC"]`: the poll raises at the first reply | treat an empty list like a null verdict and poll again | medium, not executed | `DomjudgeSubmit.PollAsWrittenCrashesBeforeJudging` | `DomjudgeSubmit.PollOutcomes` |
