/**
 * The problem summary of rime's summary plugin: per-solution verdict
 * tables, the list of test cases, and the five grades of a problem
 * (solutions, inputs, outputs, validator, judge).
 */
module Summary {
  import opened Strings
  import opened Paths
  import opened Sorting

  /** The mark shown for one item of the report. */
  datatype ItemState = GOOD | NOTBAD | BAD | NA

  /**
   * The verdict of one test case. The summary only tells NA and AC apart
   * from the rest; every other verdict keeps its name.
   */
  datatype Verdict = NA | AC | Other(name: string)

  /** One entry of a testset result: the case's input file and its verdict. */
  datatype CaseResult = CaseResult(infile: string, verdict: Verdict)

  datatype Solution = Solution(name: string, isCorrect: bool)

  /**
   * The result of running one solution over the testset. `expected` says
   * whether the solution behaved as its correctness flag announces.
   */
  datatype TestsetResult = TestsetResult(solution: Solution, expected: bool, results: seq<CaseResult>)

  /** A judge program, by the class of its code object. */
  datatype JudgeCode = InternalDiffCode | OtherJudge(className: string)

  /** The assignees of a problem: a list of names or a single string. */
  datatype Assignees = AssigneeList(names: seq<string>) | AssigneeText(text: string)

  datatype Problem = Problem(
    title: string,
    assignees: Assignees,
    numTestCases: nat,
    numValidators: nat,
    judges: seq<JudgeCode>,
    needCustomJudge: bool)

  /** The detail text of a cell: a verdict's label, or the running time (not modelled). */
  datatype Detail = VerdictText(verdict: Verdict) | RunTime

  /**
   * One cell of a solution's verdict table: a status with its detail, as
   * `GetTestCaseState` builds it, or a raw test-case result.
   */
  datatype Cell = State(status: ItemState, detail: Detail) | RawResult(verdict: Verdict)

  datatype SolutionRow = SolutionRow(name: string, verdicts: map<string, Cell>)

  datatype ProblemSummary = ProblemSummary(
    title: string,
    solutions: seq<SolutionRow>,
    testcases: seq<string>,
    assignees: string,
    solutionState: ItemState,
    numCorrects: nat,
    numIncorrects: nat,
    inputState: ItemState,
    numTests: nat,
    outputState: ItemState,
    numAgreed: nat,
    validatorState: ItemState,
    judgeState: ItemState)

  // ---------------------------------------------------------------------------
  // Per-test-case state

  /** `GetTestCaseState`: NA stays NA, AC is good, every other verdict is bad. */
  function TestCaseState(v: Verdict): (c: Cell)
    ensures c.State?
    ensures c.status == ItemState.NA <==> v == Verdict.NA
    ensures c.status == GOOD <==> v == AC
    ensures c.status == BAD <==> v.Other?
    ensures c.status != NOTBAD
    ensures v != AC ==> c.detail == VerdictText(v)
  {
    match v
    case NA => State(ItemState.NA, VerdictText(v))
    case AC => State(GOOD, RunTime)
    case Other(_) => State(BAD, VerdictText(v))
  }

  /** The cell given to a test that a solution has no result for. */
  const NaCell: Cell := TestCaseState(Verdict.NA)

  // ---------------------------------------------------------------------------
  // Verdict tables

  /** The test names of a solution's results. */
  function NamesOf(cs: seq<CaseResult>): set<string>
  {
    if cs == [] then {} else NamesOf(cs[..|cs| - 1]) + {TestName(cs[|cs| - 1].infile)}
  }

  /**
   * The verdict table of one solution: each result stored under its test
   * name, a later result replacing an earlier one with the same name.
   */
  function Collected(cs: seq<CaseResult>): (m: map<string, Cell>)
    ensures m.Keys == NamesOf(cs)
    ensures forall t :: t in m ==> m[t].State?
  {
    if cs == [] then map[]
    else Collected(cs[..|cs| - 1])[TestName(cs[|cs| - 1].infile) := TestCaseState(cs[|cs| - 1].verdict)]
  }

  /** The index of the last result whose test name is `t`, or -1. */
  function LastNamed(cs: seq<CaseResult>, t: string): (k: int)
    ensures -1 <= k < |cs|
    ensures k >= 0 ==> TestName(cs[k].infile) == t
    ensures forall j :: k < j < |cs| ==> TestName(cs[j].infile) != t
  {
    if cs == [] then -1
    else if TestName(cs[|cs| - 1].infile) == t then |cs| - 1
    else
      var prefix := cs[..|cs| - 1];
      assert forall j :: 0 <= j < |prefix| ==> prefix[j] == cs[j];
      LastNamed(prefix, t)
  }

  /** A later result replaces an earlier one: the table holds the state of the last result named `t`. */
  lemma {:induction false} CollectedLastWins(cs: seq<CaseResult>, t: string)
    ensures t in Collected(cs) <==> LastNamed(cs, t) >= 0
    ensures t in Collected(cs) ==> Collected(cs)[t] == TestCaseState(cs[LastNamed(cs, t)].verdict)
  {
    if cs != [] {
      var prefix := cs[..|cs| - 1];
      CollectedLastWins(prefix, t);
      if LastNamed(prefix, t) >= 0 {
        assert cs[LastNamed(prefix, t)] == prefix[LastNamed(prefix, t)];
      }
    }
  }

  /** The test names of all results of all solutions. */
  function AllNames(rs: seq<TestsetResult>): set<string>
  {
    if rs == [] then {} else AllNames(rs[..|rs| - 1]) + NamesOf(rs[|rs| - 1].results)
  }

  lemma {:induction false} AllNamesMembership(rs: seq<TestsetResult>, t: string)
    ensures t in AllNames(rs) <==> exists r :: r in rs && t in NamesOf(r.results)
  {
    if rs != [] {
      var prefix := rs[..|rs| - 1];
      AllNamesMembership(prefix, t);
      assert rs == prefix + [rs[|rs| - 1]];
      if t in AllNames(prefix) {
        var r :| r in prefix && t in NamesOf(r.results);
        assert r in rs;
      }
    }
  }

  lemma {:induction false} NamesOfInAll(rs: seq<TestsetResult>, i: int)
    requires 0 <= i < |rs|
    ensures NamesOf(rs[i].results) <= AllNames(rs)
  {
    if i < |rs| - 1 {
      NamesOfInAll(rs[..|rs| - 1], i);
    }
  }

  lemma EveryNameInAll(rs: seq<TestsetResult>)
    ensures forall i :: 0 <= i < |rs| ==> NamesOf(rs[i].results) <= AllNames(rs)
  {
    forall i | 0 <= i < |rs| ensures NamesOf(rs[i].results) <= AllNames(rs) {
      NamesOfInAll(rs, i);
    }
  }

  /** The names of all tests do not depend on the order of the solutions. */
  lemma AllNamesOfPermutation(a: seq<TestsetResult>, b: seq<TestsetResult>)
    requires multiset(a) == multiset(b)
    ensures AllNames(a) == AllNames(b)
  {
    forall t ensures t in AllNames(a) <==> t in AllNames(b) {
      AllNamesMembership(a, t);
      AllNamesMembership(b, t);
      if t in AllNames(a) {
        var r :| r in a && t in NamesOf(r.results);
        assert r in multiset(b);
      }
      if t in AllNames(b) {
        var r :| r in b && t in NamesOf(r.results);
        assert r in multiset(a);
      }
    }
  }

  /** `m2` is `m` with every name of `names` that `m` lacks added with the NA cell. */
  predicate FilledFrom(m2: map<string, Cell>, m: map<string, Cell>, names: set<string>)
  {
    && m2.Keys == m.Keys + names
    && forall t :: t in m2 ==> m2[t] == (if t in m then m[t] else NaCell)
  }

  /**
   * The missing-result fill as the source writes it: the cell it stores is
   * the raw NA test-case result itself, not the state built from it.
   */
  function FillAsWritten(m: map<string, Cell>, names: set<string>): (m2: map<string, Cell>)
    ensures m2.Keys == m.Keys + names
    ensures forall t :: t in m ==> m2[t] == m[t]
    ensures forall t :: t in names && t !in m ==> m2[t] == RawResult(Verdict.NA)
  {
    map t | t in m.Keys + names :: if t in m then m[t] else RawResult(Verdict.NA)
  }

  /**
   * With two solutions of which only one has a result for test "01", the
   * fill as written leaves the other solution a cell without a status.
   */
  lemma FillAsWrittenLeavesCellWithoutStatus()
    ensures var rows := [
        SolutionRow("a", Collected([CaseResult("01.in", AC)])),
        SolutionRow("b", Collected([]))];
      var names := {"01"};
      && "01" in rows[0].verdicts && rows[0].verdicts["01"].State?
      && "01" in FillAsWritten(rows[1].verdicts, names)
      && !FillAsWritten(rows[1].verdicts, names)["01"].State?
  {
    assert [CaseResult("01.in", AC)][..0] == [];
    assert TestName("01.in") == "01" by {
      assert HasNonDot("01") by { assert "01"[1] != '.'; }
      TestNameOfRenamed("01", "in");
      assert "01" + "." + "in" == "01.in";
    }
  }

  // ---------------------------------------------------------------------------
  // Counts

  function SolutionNameOf(r: TestsetResult): string
  {
    r.solution.name
  }

  function RowName(r: SolutionRow): string
  {
    r.name
  }

  /** The results sorted by solution name, as the summary lists them. */
  function Ordered(rs: seq<TestsetResult>): (o: seq<TestsetResult>)
    ensures |o| == |rs| && multiset(o) == multiset(rs)
    ensures SortedBy(o, SolutionNameOf)
  {
    SortBy(rs, SolutionNameOf)
  }

  /** The number of results of correct solutions. */
  function CountCorrect(rs: seq<TestsetResult>): (n: nat)
    ensures n <= |rs|
  {
    if rs == [] then 0
    else (if rs[0].solution.isCorrect then 1 else 0) + CountCorrect(rs[1..])
  }

  /** The number of results of correct solutions that behaved as expected. */
  function CountAgreed(rs: seq<TestsetResult>): (n: nat)
    ensures n <= CountCorrect(rs)
  {
    if rs == [] then 0
    else (if rs[0].solution.isCorrect && rs[0].expected then 1 else 0) + CountAgreed(rs[1..])
  }

  lemma {:induction false} CountsOfConcat(a: seq<TestsetResult>, b: seq<TestsetResult>)
    ensures CountCorrect(a + b) == CountCorrect(a) + CountCorrect(b)
    ensures CountAgreed(a + b) == CountAgreed(a) + CountAgreed(b)
  {
    if a == [] {
      assert a + b == b;
    } else {
      assert (a + b)[0] == a[0];
      assert (a + b)[1..] == a[1..] + b;
      CountsOfConcat(a[1..], b);
    }
  }

  /** Taking the same element out of two permutations of each other leaves permutations. */
  lemma RemoveMatching(a: seq<TestsetResult>, b: seq<TestsetResult>, k: int)
    requires multiset(a) == multiset(b)
    requires |a| > 0 && 0 <= k < |b| && b[k] == a[0]
    ensures multiset(a[1..]) == multiset(b[..k] + b[k + 1..])
  {
    var x := a[0];
    assert a == [x] + a[1..];
    assert b == b[..k] + [x] + b[k + 1..];
    calc {
      multiset(a[1..]);
      multiset(a) - multiset{x};
      multiset(b) - multiset{x};
      multiset(b[..k]) + multiset(b[k + 1..]);
      multiset(b[..k] + b[k + 1..]);
    }
  }

  /** The counts do not depend on the order of the results. */
  lemma {:induction false} CountsOfPermutation(a: seq<TestsetResult>, b: seq<TestsetResult>)
    requires multiset(a) == multiset(b)
    ensures CountCorrect(a) == CountCorrect(b)
    ensures CountAgreed(a) == CountAgreed(b)
    decreases |a|
  {
    if a == [] {
      assert |multiset(b)| == 0;
    } else {
      var x := a[0];
      assert x in multiset(b);
      var k :| 0 <= k < |b| && b[k] == x;
      var rest := b[..k] + b[k + 1..];
      RemoveMatching(a, b, k);
      CountsOfPermutation(a[1..], rest);
      var tail := [x] + b[k + 1..];
      assert b == b[..k] + tail;
      assert tail[0] == x && tail[1..] == b[k + 1..];
      CountsOfConcat(b[..k], tail);
      CountsOfConcat(b[..k], b[k + 1..]);
    }
  }

  /** A solution is counted correct iff it is flagged correct. */
  lemma {:induction false} CountCorrectPositive(rs: seq<TestsetResult>)
    ensures CountCorrect(rs) >= 1 <==> exists i :: 0 <= i < |rs| && rs[i].solution.isCorrect
  {
    if rs != [] {
      CountCorrectPositive(rs[1..]);
      if exists i :: 0 <= i < |rs[1..]| && rs[1..][i].solution.isCorrect {
        var i :| 0 <= i < |rs[1..]| && rs[1..][i].solution.isCorrect;
        assert rs[i + 1].solution.isCorrect;
      }
      if exists i :: 0 <= i < |rs| && rs[i].solution.isCorrect {
        var i :| 0 <= i < |rs| && rs[i].solution.isCorrect;
        if i > 0 { assert rs[1..][i - 1].solution.isCorrect; }
      }
    }
  }

  /** Results `i` and `j` of `rs` are two different results of correct solutions. */
  predicate CorrectPair(rs: seq<TestsetResult>, i: int, j: int)
  {
    0 <= i < j < |rs| && rs[i].solution.isCorrect && rs[j].solution.isCorrect
  }

  /** At least two results are counted correct iff two different results are of correct solutions. */
  lemma {:induction false} CountCorrectAtLeastTwo(rs: seq<TestsetResult>)
    ensures CountCorrect(rs) >= 2 <==> exists i, j :: CorrectPair(rs, i, j)
  {
    if rs != [] {
      var tail := rs[1..];
      CountCorrectAtLeastTwo(tail);
      CountCorrectPositive(tail);
      if CountCorrect(rs) >= 2 {
        if rs[0].solution.isCorrect {
          var j :| 0 <= j < |tail| && tail[j].solution.isCorrect;
          assert CorrectPair(rs, 0, j + 1);
        } else {
          var i, j :| CorrectPair(tail, i, j);
          assert CorrectPair(rs, i + 1, j + 1);
        }
      }
      if exists i, j :: CorrectPair(rs, i, j) {
        var i, j :| CorrectPair(rs, i, j);
        if i == 0 {
          assert tail[j - 1].solution.isCorrect;
        } else {
          assert CorrectPair(tail, i - 1, j - 1);
        }
      }
    }
  }

  /** Every correct solution agrees iff the agreed count reaches the correct count. */
  lemma {:induction false} AllAgreed(rs: seq<TestsetResult>)
    ensures CountAgreed(rs) == CountCorrect(rs) <==>
      forall i :: 0 <= i < |rs| && rs[i].solution.isCorrect ==> rs[i].expected
  {
    if rs != [] {
      var tail := rs[1..];
      AllAgreed(tail);
      if CountAgreed(rs) == CountCorrect(rs) {
        forall i | 0 <= i < |rs| && rs[i].solution.isCorrect ensures rs[i].expected {
          if i > 0 { assert rs[i] == tail[i - 1]; }
        }
      }
      if forall i :: 0 <= i < |rs| && rs[i].solution.isCorrect ==> rs[i].expected {
        forall i | 0 <= i < |tail| && tail[i].solution.isCorrect ensures tail[i].expected {
          assert tail[i] == rs[i + 1];
        }
      }
    }
  }

  // ---------------------------------------------------------------------------
  // The five grades

  function SolutionsGrade(numCorrects: nat): ItemState
  {
    if numCorrects >= 2 then GOOD
    else if numCorrects >= 1 then NOTBAD
    else BAD
  }

  /** The inputs grade: good with at least twenty test cases, bad otherwise. */
  function InputsGrade(numTests: nat): (r: ItemState)
    ensures r == GOOD <==> numTests >= 20
    ensures r == BAD <==> numTests < 20
  {
    if numTests >= 20 then GOOD else BAD
  }

  function OutputsGrade(numCorrects: nat, numAgreed: nat): ItemState
  {
    if numCorrects >= 2 && numAgreed == numCorrects then GOOD
    else if numAgreed >= 2 then NOTBAD
    else BAD
  }

  /** The validator grade: good iff the testset has a validator. */
  function ValidatorGrade(numValidators: nat): (r: ItemState)
    ensures r == GOOD <==> numValidators > 0
    ensures r == BAD <==> numValidators == 0
  {
    if numValidators > 0 then GOOD else BAD
  }

  /** The judges whose class is not the internal diff judge. */
  function CustomJudges(judges: seq<JudgeCode>): (r: seq<JudgeCode>)
    ensures forall j :: j in r <==> j in judges && j != InternalDiffCode
  {
    if judges == [] then []
    else if judges[0] == InternalDiffCode then CustomJudges(judges[1..])
    else [judges[0]] + CustomJudges(judges[1..])
  }

  function JudgeGrade(needCustomJudge: bool, judges: seq<JudgeCode>): (r: ItemState)
    ensures r == ItemState.NA <==> !needCustomJudge
    ensures r == GOOD <==> needCustomJudge && exists j :: j in judges && j != InternalDiffCode
    ensures r == BAD <==> needCustomJudge && forall j :: j in judges ==> j == InternalDiffCode
    ensures r != NOTBAD
  {
    if needCustomJudge then
      var custom := CustomJudges(judges);
      if |custom| > 0 then
        assert custom[0] in custom;
        GOOD
      else BAD
    else ItemState.NA
  }

  /** The solutions grade, read off the results: good with two correct solutions, not bad with one. */
  lemma SolutionsGradeMeaning(rs: seq<TestsetResult>)
    ensures SolutionsGrade(CountCorrect(rs)) == GOOD <==> exists i, j :: CorrectPair(rs, i, j)
    ensures SolutionsGrade(CountCorrect(rs)) == NOTBAD <==> CountCorrect(rs) == 1
    ensures SolutionsGrade(CountCorrect(rs)) == BAD <==>
      forall i :: 0 <= i < |rs| ==> !rs[i].solution.isCorrect
  {
    CountCorrectAtLeastTwo(rs);
    CountCorrectPositive(rs);
  }

  /**
   * The outputs grade, read off the results: good iff at least two solutions
   * are correct and every correct one agrees; otherwise not bad iff at least
   * two agree; otherwise bad.
   */
  lemma OutputsGradeMeaning(rs: seq<TestsetResult>)
    ensures OutputsGrade(CountCorrect(rs), CountAgreed(rs)) == GOOD <==>
      && CountCorrect(rs) >= 2
      && forall i :: 0 <= i < |rs| && rs[i].solution.isCorrect ==> rs[i].expected
    ensures OutputsGrade(CountCorrect(rs), CountAgreed(rs)) == NOTBAD <==>
      && CountAgreed(rs) >= 2
      && exists i :: 0 <= i < |rs| && rs[i].solution.isCorrect && !rs[i].expected
    ensures OutputsGrade(CountCorrect(rs), CountAgreed(rs)) == BAD <==>
      CountAgreed(rs) < 2
  {
    AllAgreed(rs);
  }

  /** How good a mark is: smaller is better. */
  function Rank(s: ItemState): nat
  {
    match s
    case GOOD => 0
    case NOTBAD => 1
    case BAD => 2
    case NA => 3
  }

  /** The outputs of a problem never grade better than its solutions. */
  lemma OutputsNoBetterThanSolutions(numCorrects: nat, numAgreed: nat)
    requires numAgreed <= numCorrects
    ensures Rank(SolutionsGrade(numCorrects)) <= Rank(OutputsGrade(numCorrects, numAgreed))
  {
  }

  // ---------------------------------------------------------------------------
  // Title and assignees

  /** `problem.title or 'No Title'`. */
  function DisplayTitle(title: string): (r: string)
    ensures r != ""
    ensures title != "" ==> r == title
  {
    if title == "" then "No Title" else title
  }

  /** A list of assignees is joined with commas; a string is kept. */
  function AssigneesText(a: Assignees): string
  {
    match a
    case AssigneeList(names) => Join(names, ',')
    case AssigneeText(text) => text
  }

  /** Names without commas can be read back from the joined assignees. */
  lemma AssigneesReadBack(names: seq<string>)
    requires |names| >= 1
    requires forall k :: 0 <= k < |names| ==> ',' !in names[k]
    ensures Split(AssigneesText(AssigneeList(names)), ',') == names
  {
    SplitJoin(names, ',');
  }

  // ---------------------------------------------------------------------------
  // GenerateSummaryOne

  /**
   * The inner loop of the first pass: the verdict table of one solution,
   * each test name also added to the set of all test names.
   */
  method CollectResults(results: seq<CaseResult>, seen: set<string>) returns (verdicts: map<string, Cell>, testnames: set<string>)
    ensures verdicts == Collected(results)
    ensures testnames == seen + NamesOf(results)
  {
    verdicts, testnames := map[], seen;
    var j := 0;
    while j < |results|
      invariant 0 <= j <= |results|
      invariant verdicts == Collected(results[..j])
      invariant testnames == seen + NamesOf(results[..j])
    {
      var testname := TestName(results[j].infile);
      testnames := testnames + {testname};
      verdicts := verdicts[testname := TestCaseState(results[j].verdict)];
      assert results[..j + 1][..j] == results[..j];
      assert results[..j + 1][j] == results[j];
      j := j + 1;
    }
    assert results[..j] == results;
  }

  /** The test names of the first `i + 1` results add those of the `i`-th to the ones before. */
  lemma AllNamesStep(rs: seq<TestsetResult>, i: int)
    requires 0 <= i < |rs|
    ensures AllNames(rs[..i + 1]) == AllNames(rs[..i]) + NamesOf(rs[i].results)
  {
    assert rs[..i + 1][..i] == rs[..i];
  }

  /** `row` is the verdict table of `r`, before the fill. */
  predicate RowOfResult(row: SolutionRow, r: TestsetResult)
  {
    row.name == r.solution.name && row.verdicts == Collected(r.results)
  }

  /** The verdict table of one solution, its test names added to those seen before. */
  method CollectRow(r: TestsetResult, seen: set<string>) returns (row: SolutionRow, testnames: set<string>)
    ensures RowOfResult(row, r)
    ensures testnames == seen + NamesOf(r.results)
  {
    var verdicts;
    verdicts, testnames := CollectResults(r.results, seen);
    row := SolutionRow(r.solution.name, verdicts);
  }

  /**
   * The first pass of `GenerateSummaryOne`: one verdict table per solution,
   * and the set of every test name seen.
   */
  method CollectVerdicts(ordered: seq<TestsetResult>) returns (rows: seq<SolutionRow>, testnames: set<string>)
    ensures |rows| == |ordered|
    ensures forall i :: 0 <= i < |rows| ==> RowOfResult(rows[i], ordered[i])
    ensures testnames == AllNames(ordered)
  {
    rows, testnames := [], {};
    var i := 0;
    while i < |ordered|
      invariant 0 <= i <= |ordered|
      invariant |rows| == i
      invariant forall k :: 0 <= k < i ==> RowOfResult(rows[k], ordered[k])
      invariant testnames == AllNames(ordered[..i])
    {
      var row;
      row, testnames := CollectRow(ordered[i], testnames);
      rows := rows + [row];
      AllNamesStep(ordered, i);
      i := i + 1;
    }
    assert ordered[..i] == ordered;
  }

  /**
   * The second pass of `GenerateSummaryOne`: every test name a solution has
   * no result for gets the NA cell, in place in that solution's table.
   */
  method FillMissing(rows: seq<SolutionRow>, testnames: set<string>) returns (filled: seq<SolutionRow>)
    ensures |filled| == |rows|
    ensures forall i :: 0 <= i < |rows| ==>
      filled[i].name == rows[i].name && FilledFrom(filled[i].verdicts, rows[i].verdicts, testnames)
  {
    filled := rows;
    var i := 0;
    while i < |filled|
      invariant 0 <= i <= |filled| && |filled| == |rows|
      invariant forall k :: 0 <= k < i ==>
        filled[k].name == rows[k].name && FilledFrom(filled[k].verdicts, rows[k].verdicts, testnames)
      invariant forall k :: i <= k < |filled| ==> filled[k] == rows[k]
    {
      var verdicts := filled[i].verdicts;
      var remaining := testnames;
      while remaining != {}
        invariant remaining <= testnames
        invariant verdicts.Keys == rows[i].verdicts.Keys + (testnames - remaining)
        invariant forall t :: t in verdicts ==>
          verdicts[t] == (if t in rows[i].verdicts then rows[i].verdicts[t] else NaCell)
        decreases remaining
      {
        var testname :| testname in remaining;
        if testname !in verdicts {
          verdicts := verdicts[testname := NaCell];
        }
        remaining := remaining - {testname};
      }
      filled := filled[i := filled[i].(verdicts := verdicts)];
      i := i + 1;
    }
  }

  /** The key under which `sorted` orders plain strings: the string itself. */
  function Itself(t: string): string
  {
    t
  }

  /** `r` lists every string of `done` once, in increasing order. */
  ghost predicate SortedListing(r: seq<string>, done: set<string>)
  {
    && SortedBy(r, Itself)
    && (forall i, j :: 0 <= i < j < |r| ==> r[i] != r[j])
    && (forall t :: t in r <==> t in done)
    && |r| == |done|
  }

  /** Inserting a string not yet listed lists it too. */
  lemma ListingInsert(t: string, r: seq<string>, done: set<string>)
    requires SortedListing(r, done) && t !in done
    ensures SortedListing(Insert(t, r, Itself), done + {t})
  {
    InsertKeepsSorted(t, r, Itself);
    InsertKeepsDistinct(t, r, Itself);
    var r' := Insert(t, r, Itself);
    forall u ensures u in r' <==> u in done + {t} {
      assert u in r' <==> u in multiset(r');
      assert u in r <==> u in multiset(r);
    }
  }

  /** A sorted listing of distinct strings is strictly increasing. */
  lemma ListingIncreasing(r: seq<string>, done: set<string>)
    requires SortedListing(r, done)
    ensures forall i, j :: 0 <= i < j < |r| ==> Lt(r[i], r[j])
  {
    forall i, j | 0 <= i < j < |r| ensures Lt(r[i], r[j]) {
      assert LessEq(Itself(r[i]), Itself(r[j]));
    }
  }

  /** `sorted(testnames)`: every test name once, in increasing order. */
  method SortedNames(names: set<string>) returns (r: seq<string>)
    ensures forall i, j :: 0 <= i < j < |r| ==> Lt(r[i], r[j])
    ensures forall t :: t in r <==> t in names
    ensures |r| == |names|
  {
    r := [];
    var remaining := names;
    while remaining != {}
      invariant remaining <= names
      invariant SortedListing(r, names - remaining)
      decreases remaining
    {
      var t :| t in remaining;
      ListingInsert(t, r, names - remaining);
      assert names - (remaining - {t}) == (names - remaining) + {t};
      r := Insert(t, r, Itself);
      remaining := remaining - {t};
    }
    assert names - remaining == names;
    ListingIncreasing(r, names);
  }

  /**
   * `rows` lists one verdict table per result, in the order of the solution
   * names: the table of the i-th result in that order, with every test name
   * it lacks filled with the NA cell.
   */
  ghost predicate ListsSolutions(rows: seq<SolutionRow>, rs: seq<TestsetResult>)
  {
    TablesFor(rows, Ordered(rs), AllNames(rs))
  }

  /** `rows` holds the tables of `ordered`, one per result and in the order of the solution names. */
  ghost predicate TablesFor(rows: seq<SolutionRow>, ordered: seq<TestsetResult>, names: set<string>)
  {
    && |rows| == |ordered|
    && SortedBy(rows, RowName)
    && forall i :: 0 <= i < |rows| ==> RowFor(rows[i], ordered[i], names)
  }

  /** `row` is the table of `r`: its name, and its verdicts with the names of `names` it lacks filled. */
  ghost predicate RowFor(row: SolutionRow, r: TestsetResult, names: set<string>)
  {
    row.name == r.solution.name && FilledFrom(row.verdicts, Collected(r.results), names)
  }

  /** Every table has exactly the test names `names` as keys, and every cell has a status. */
  ghost predicate CompleteTables(rows: seq<SolutionRow>, names: set<string>)
  {
    forall i :: 0 <= i < |rows| ==>
      && rows[i].verdicts.Keys == names
      && forall t :: t in rows[i].verdicts ==> rows[i].verdicts[t].State?
  }

  /** `testcases` lists every name of `names` once, in increasing order. */
  ghost predicate ListsNamesInOrder(testcases: seq<string>, names: set<string>)
  {
    && (forall i, j :: 0 <= i < j < |testcases| ==> Lt(testcases[i], testcases[j]))
    && (forall t :: t in testcases <==> t in names)
  }

  /** The two passes over the sorted results give tables in the order of the solution names. */
  lemma TablesInOrder(ordered: seq<TestsetResult>, names: set<string>, collected: seq<SolutionRow>, rows: seq<SolutionRow>)
    requires SortedBy(ordered, SolutionNameOf)
    requires |collected| == |ordered|
    requires forall i :: 0 <= i < |collected| ==> RowOfResult(collected[i], ordered[i])
    requires |rows| == |collected|
    requires forall i :: 0 <= i < |collected| ==>
      rows[i].name == collected[i].name && FilledFrom(rows[i].verdicts, collected[i].verdicts, names)
    ensures TablesFor(rows, ordered, names)
  {
    RowsSorted(ordered, rows);
  }

  /** Tables named after the results in order of their solution names are in that order too. */
  lemma RowsSorted(ordered: seq<TestsetResult>, rows: seq<SolutionRow>)
    requires SortedBy(ordered, SolutionNameOf)
    requires |rows| == |ordered|
    requires forall i :: 0 <= i < |rows| ==> rows[i].name == ordered[i].solution.name
    ensures SortedBy(rows, RowName)
  {
    forall i, j | 0 <= i < j < |rows| ensures LessEq(RowName(rows[i]), RowName(rows[j])) {
      assert LessEq(SolutionNameOf(ordered[i]), SolutionNameOf(ordered[j]));
    }
  }

  /** After the fill, every table has all test names as keys and only status cells. */
  lemma TablesComplete(rs: seq<TestsetResult>, collected: seq<SolutionRow>, rows: seq<SolutionRow>)
    requires |collected| == |rs|
    requires forall i :: 0 <= i < |collected| ==> RowOfResult(collected[i], rs[i])
    requires |rows| == |collected|
    requires forall i :: 0 <= i < |collected| ==> FilledFrom(rows[i].verdicts, collected[i].verdicts, AllNames(rs))
    ensures CompleteTables(rows, AllNames(rs))
  {
    EveryNameInAll(rs);
  }

  /**
   * `GenerateSummaryOne`: the summary of one problem from the results of its
   * solutions. The file sizes, hashes and comments of the test cases are
   * not part of this model; a test case is listed by its name.
   */
  method GenerateSummaryOne(problem: Problem, testsetResults: seq<TestsetResult>) returns (s: ProblemSummary)
    ensures ListsSolutions(s.solutions, testsetResults)
    ensures CompleteTables(s.solutions, AllNames(testsetResults))
    ensures ListsNamesInOrder(s.testcases, AllNames(testsetResults))
    ensures s.numCorrects == CountCorrect(testsetResults)
    ensures s.numAgreed == CountAgreed(testsetResults)
    ensures s.numCorrects + s.numIncorrects == |testsetResults|
    ensures s.numAgreed <= s.numCorrects
    ensures s.numTests == problem.numTestCases
    ensures s.solutionState == SolutionsGrade(s.numCorrects)
    ensures s.inputState == InputsGrade(s.numTests)
    ensures s.outputState == OutputsGrade(s.numCorrects, s.numAgreed)
    ensures s.validatorState == ValidatorGrade(problem.numValidators)
    ensures s.judgeState == JudgeGrade(problem.needCustomJudge, problem.judges)
    ensures s.title == DisplayTitle(problem.title) && s.assignees == AssigneesText(problem.assignees)
  {
    var ordered := Ordered(testsetResults);

    var collected, testnames := CollectVerdicts(ordered);
    AllNamesOfPermutation(ordered, testsetResults);
    var rows := FillMissing(collected, testnames);
    TablesComplete(ordered, collected, rows);
    TablesInOrder(ordered, AllNames(testsetResults), collected, rows);
    var testcases := SortedNames(testnames);

    var numSolutions := |rows|;
    var numTests := problem.numTestCases;
    var numCorrects := CountCorrect(ordered);
    var numIncorrects := numSolutions - numCorrects;
    var numAgreed := CountAgreed(ordered);
    CountsOfPermutation(ordered, testsetResults);

    s := ProblemSummary(
      DisplayTitle(problem.title),
      rows,
      testcases,
      AssigneesText(problem.assignees),
      SolutionsGrade(numCorrects), numCorrects, numIncorrects,
      InputsGrade(numTests), numTests,
      OutputsGrade(numCorrects, numAgreed), numAgreed,
      ValidatorGrade(problem.numValidators),
      JudgeGrade(problem.needCustomJudge, problem.judges));
  }
}
