/**
 * `DOMJudgePacker.Pack`: lays out the test cases of a testset in the
 * directory structure of a DOMjudge problem package and zips it.
 *
 * The package directory is modelled as a tree of paths below it (a path is
 * the list of its components; `[]` is the package directory itself). Every
 * filesystem step either succeeds or raises; the set `fails` says which
 * steps raise. A step that raises changes nothing, and the packer then ends
 * with `false`.
 */
module DomjudgePack {
  import opened Strings
  import opened Paths

  /** A path below the package directory, component by component. */
  type Path = seq<string>

  /**
   * What a file of the package holds: text written by the packer, a copy of
   * a file outside the package, or the zip archive of a tree.
   */
  datatype FileNode =
    | Text(content: string)
    | CopyOf(source: string)
    | Archive(dirs: set<Path>, entries: map<Path, FileNode>)

  /** A test case of the testset: its input file and its expected-output file, relative to the testset's output directory. */
  datatype TestCase = TestCase(infile: string, difffile: string)

  /** The filesystem steps of `Pack`, each of which may raise. */
  datatype Step =
    | RemoveTree
    | MakeDir(dir: Path)
    | WriteProblemYaml
    | CopyInput(index: nat)
    | CopyAnswer(index: nat)
    | MakeArchive

  /** The package name of a test's input: its test name with ".in". */
  function PackedInput(infile: string): string
  {
    TestName(infile) + ".in"
  }

  /** The package name of a test's expected output: its test name with ".ans". */
  function PackedAnswer(infile: string): string
  {
    TestName(infile) + ".ans"
  }

  /** The test goes to the sample directory: "sample" occurs in its packed input name. */
  predicate IsSample(infile: string)
  {
    Contains(PackedInput(infile), "sample")
  }

  /** The directory the files of a test go to. */
  function CaseDir(infile: string): (d: Path)
    ensures d == ["data", "sample"] || d == ["data", "secret"]
    ensures d[1] == "sample" <==> IsSample(infile)
  {
    ["data", if IsSample(infile) then "sample" else "secret"]
  }

  function InputPath(c: TestCase): Path
  {
    CaseDir(c.infile) + [PackedInput(c.infile)]
  }

  function AnswerPath(c: TestCase): Path
  {
    CaseDir(c.infile) + [PackedAnswer(c.infile)]
  }

  const ProblemYaml: Path := ["problem.yaml"]

  /** The directories `Pack` creates, the package directory included. */
  const LayoutDirs: set<Path> := {[], ["data"], ["data", "sample"], ["data", "secret"]}

  /** `problem.yaml` names the problem. */
  function YamlText(problemName: string): string
  {
    "name: " + problemName + "\n"
  }

  /** The archive: `<problem id>.zip` in the package directory. */
  function ArchivePath(problemId: string): Path
  {
    [problemId + ".zip"]
  }

  /**
   * The files of the package after `problem.yaml` is written and the given
   * test cases are copied in order; a later case overwrites an earlier one
   * with the same packed name. None of them is an archive.
   */
  function CaseFiles(problemName: string, outDir: string, cases: seq<TestCase>): (m: map<Path, FileNode>)
    ensures NoArchive(m)
  {
    if cases == [] then map[ProblemYaml := Text(YamlText(problemName))]
    else
      var c := cases[|cases| - 1];
      var m := CaseFiles(problemName, outDir, cases[..|cases| - 1]);
      CopyKeepsNoArchive(m, InputPath(c), JoinPath(outDir, c.infile));
      CopyKeepsNoArchive(m[InputPath(c) := CopyOf(JoinPath(outDir, c.infile))], AnswerPath(c), JoinPath(outDir, c.difffile));
      m[InputPath(c) := CopyOf(JoinPath(outDir, c.infile))][AnswerPath(c) := CopyOf(JoinPath(outDir, c.difffile))]
  }

  /** No file of `files` is an archive. */
  predicate NoArchive(files: map<Path, FileNode>)
  {
    forall p :: p in files ==> !files[p].Archive?
  }

  lemma CopyKeepsNoArchive(files: map<Path, FileNode>, dest: Path, source: string)
    requires NoArchive(files)
    ensures NoArchive(files[dest := CopyOf(source)])
  {
  }

  /** Copying the next test case extends the files of the cases before it. */
  lemma CaseFilesStep(problemName: string, outDir: string, cases: seq<TestCase>, i: int)
    requires 0 <= i < |cases|
    ensures CaseFiles(problemName, outDir, cases[..i + 1]) ==
      CaseFiles(problemName, outDir, cases[..i])
        [InputPath(cases[i]) := CopyOf(JoinPath(outDir, cases[i].infile))]
        [AnswerPath(cases[i]) := CopyOf(JoinPath(outDir, cases[i].difffile))]
  {
    assert cases[..i + 1][..i] == cases[..i];
  }

  /** The whole package after a run in which no step raised. */
  function LayoutFiles(problemName: string, problemId: string, outDir: string, cases: seq<TestCase>): map<Path, FileNode>
  {
    var m := CaseFiles(problemName, outDir, cases);
    m[ArchivePath(problemId) := Archive(LayoutDirs, m)]
  }

  /** No step of a run over `n` test cases raises. */
  predicate NoStepFails(n: nat, fails: set<Step>)
  {
    SetupSucceeds(fails) && CopiesSucceed(n, fails) && MakeArchive !in fails
  }

  /** No step of the setup raises: the removal, the four directories, `problem.yaml`. */
  predicate SetupSucceeds(fails: set<Step>)
  {
    && RemoveTree !in fails
    && (forall d :: d in LayoutDirs ==> MakeDir(d) !in fails)
    && WriteProblemYaml !in fails
  }

  /** No copy of the first `n` test cases raises. */
  predicate CopiesSucceed(n: nat, fails: set<Step>)
  {
    forall i :: 0 <= i < n ==> CopyInput(i) !in fails && CopyAnswer(i) !in fails
  }

  lemma CopiesSucceedStep(i: nat, fails: set<Step>)
    requires CopiesSucceed(i, fails) && CopyInput(i) !in fails && CopyAnswer(i) !in fails
    ensures CopiesSucceed(i + 1, fails)
  {
  }

  /** The files of the package directory, updated in place by the packer's steps. */
  class PackageDir {
    var dirs: set<Path>
    var files: map<Path, FileNode>

    constructor (dirs0: set<Path>, files0: map<Path, FileNode>)
      ensures dirs == dirs0 && files == files0
    {
      dirs := dirs0;
      files := files0;
    }

    /**
     * Packs the test cases. The result is `true` iff no step raised, and
     * then the package holds exactly the layout, whatever it held before.
     * A run that fails after the old package was removed leaves no archive,
     * and one whose removal raises leaves the package as it was.
     */
    method Pack(problemName: string, problemId: string, outDir: string, cases: seq<TestCase>, fails: set<Step>)
      returns (ok: bool)
      modifies this
      ensures ok <==> NoStepFails(|cases|, fails)
      ensures ok ==> dirs == LayoutDirs && files == LayoutFiles(problemName, problemId, outDir, cases)
      ensures !ok && RemoveTree !in fails ==> NoArchive(files)
      ensures RemoveTree in fails ==> dirs == old(dirs) && files == old(files)
    {
      ok := SetUp(problemName, fails);
      if !ok {
        return;
      }
      ok := CopyCases(problemName, outDir, cases, fails);
      if !ok {
        return;
      }
      if MakeArchive in fails {
        return false;
      }
      files := files[ArchivePath(problemId) := Archive(dirs, files)];
    }

    /**
     * The setup: removes the old package, makes the package directory,
     * `data`, `data/sample` and `data/secret` in that order, then writes
     * `problem.yaml`. It stops at the first step that raises.
     */
    method SetUp(problemName: string, fails: set<Step>) returns (done: bool)
      modifies this
      ensures done <==> SetupSucceeds(fails)
      ensures done ==> dirs == LayoutDirs && files == map[ProblemYaml := Text(YamlText(problemName))]
      ensures !done && RemoveTree !in fails ==> files == map[]
      ensures RemoveTree in fails ==> dirs == old(dirs) && files == old(files)
    {
      if RemoveTree in fails {
        return false;
      }
      dirs, files := {}, map[];
      if MakeDir([]) in fails {
        return false;
      }
      dirs := dirs + {[]};
      if MakeDir(["data"]) in fails {
        return false;
      }
      dirs := dirs + {["data"]};
      if MakeDir(["data", "sample"]) in fails {
        return false;
      }
      dirs := dirs + {["data", "sample"]};
      if MakeDir(["data", "secret"]) in fails {
        return false;
      }
      dirs := dirs + {["data", "secret"]};
      if WriteProblemYaml in fails {
        return false;
      }
      files := files[ProblemYaml := Text(YamlText(problemName))];
      done := true;
    }

    /**
     * Copies the input and the expected output of each test case, in order,
     * into the directory its name chooses; stops at the first copy that
     * raises.
     */
    method CopyCases(problemName: string, outDir: string, cases: seq<TestCase>, fails: set<Step>) returns (done: bool)
      requires files == map[ProblemYaml := Text(YamlText(problemName))]
      modifies this
      ensures dirs == old(dirs)
      ensures done <==> CopiesSucceed(|cases|, fails)
      ensures done ==> files == CaseFiles(problemName, outDir, cases)
      ensures NoArchive(files)
    {
      for i := 0 to |cases|
        invariant dirs == old(dirs)
        invariant files == CaseFiles(problemName, outDir, cases[..i])
        invariant CopiesSucceed(i, fails)
      {
        var copied := CopyCase(problemName, outDir, cases, i, fails);
        if !copied {
          return false;
        }
        CopiesSucceedStep(i, fails);
      }
      assert cases[..|cases|] == cases;
      done := true;
    }

    /**
     * Copies the input of the `i`-th test case, then its expected output;
     * stops at the first copy that raises.
     */
    method CopyCase(problemName: string, outDir: string, cases: seq<TestCase>, i: int, fails: set<Step>) returns (done: bool)
      requires 0 <= i < |cases|
      requires files == CaseFiles(problemName, outDir, cases[..i])
      modifies this
      ensures dirs == old(dirs)
      ensures done <==> CopyInput(i) !in fails && CopyAnswer(i) !in fails
      ensures done ==> files == CaseFiles(problemName, outDir, cases[..i + 1])
      ensures NoArchive(files)
    {
      var c := cases[i];
      CaseFilesStep(problemName, outDir, cases, i);
      if CopyInput(i) in fails {
        return false;
      }
      CopyKeepsNoArchive(files, InputPath(c), JoinPath(outDir, c.infile));
      files := files[InputPath(c) := CopyOf(JoinPath(outDir, c.infile))];
      if CopyAnswer(i) in fails {
        return false;
      }
      files := files[AnswerPath(c) := CopyOf(JoinPath(outDir, c.difffile))];
      done := true;
    }
  }

  /** Deriving the test name of a packed file gives back the test name it was packed under. */
  lemma PackedNamesKeepTestName(infile: string)
    requires HasNonDot(TestName(infile))
    ensures TestName(PackedInput(infile)) == TestName(infile)
    ensures TestName(PackedAnswer(infile)) == TestName(infile)
  {
    var base := TestName(infile);
    TestNameHasNoSlash(infile);
    assert PackedInput(infile) == base + "." + "in";
    assert PackedAnswer(infile) == base + "." + "ans";
    TestNameOfRenamed(base, "in");
    TestNameOfRenamed(base, "ans");
  }

  /** The ".in" suffix neither makes nor hides "sample": the choice depends on the test name alone. */
  lemma SampleIffTestNameSaysSample(infile: string)
    ensures IsSample(infile) <==> Contains(TestName(infile), "sample")
  {
    ContainsAcrossSeparator(TestName(infile), ".in", "sample");
  }

  /** An input is never packed under the name of an expected output. */
  lemma InputNeverAnswer(a: string, b: string)
    ensures PackedInput(a) != PackedAnswer(b)
  {
    var x, y := PackedInput(a), PackedAnswer(b);
    assert x[|x| - 1] == 'n' && y[|y| - 1] == 's';
  }

  /** Two strings that are equal once the same suffix is appended are equal. */
  lemma SuffixCancels(x: string, y: string, suffix: string)
    requires x + suffix == y + suffix
    ensures x == y
  {
    assert x == (x + suffix)[..|x|];
    assert y == (y + suffix)[..|y|];
  }

  /**
   * Test cases are packed under the same path only when they have the same
   * test name, and an input never lands on an expected output.
   */
  lemma PackedPathsDiffer(a: TestCase, b: TestCase)
    ensures InputPath(a) == InputPath(b) ==> TestName(a.infile) == TestName(b.infile)
    ensures AnswerPath(a) == AnswerPath(b) ==> TestName(a.infile) == TestName(b.infile)
    ensures InputPath(a) != AnswerPath(b)
  {
    assert InputPath(a)[2] == PackedInput(a.infile) && InputPath(b)[2] == PackedInput(b.infile);
    assert AnswerPath(a)[2] == PackedAnswer(a.infile) && AnswerPath(b)[2] == PackedAnswer(b.infile);
    if InputPath(a) == InputPath(b) {
      SuffixCancels(TestName(a.infile), TestName(b.infile), ".in");
    }
    if AnswerPath(a) == AnswerPath(b) {
      SuffixCancels(TestName(a.infile), TestName(b.infile), ".ans");
    }
    InputNeverAnswer(a.infile, b.infile);
  }

  /** No two test cases share a test name. */
  ghost predicate DistinctTestNames(cases: seq<TestCase>)
  {
    cases == [] ||
      (var n := |cases| - 1;
       && DistinctTestNames(cases[..n])
       && forall j :: 0 <= j < n ==> TestName(cases[j].infile) != TestName(cases[n].infile))
  }

  /** Copying the last test case keeps every file whose path it does not write. */
  lemma LaterCopiesKeep(problemName: string, outDir: string, cases: seq<TestCase>, p: Path)
    requires |cases| > 0
    requires p in CaseFiles(problemName, outDir, cases[..|cases| - 1])
    requires p != InputPath(cases[|cases| - 1]) && p != AnswerPath(cases[|cases| - 1])
    ensures p in CaseFiles(problemName, outDir, cases)
    ensures CaseFiles(problemName, outDir, cases)[p] == CaseFiles(problemName, outDir, cases[..|cases| - 1])[p]
  {
    var c := cases[|cases| - 1];
    var m := CaseFiles(problemName, outDir, cases[..|cases| - 1]);
    var m' := m[InputPath(c) := CopyOf(JoinPath(outDir, c.infile))];
    assert CaseFiles(problemName, outDir, cases) == m'[AnswerPath(c) := CopyOf(JoinPath(outDir, c.difffile))];
    assert m'[p] == m[p];
  }

  /**
   * When the test names are distinct, the package holds every test case:
   * its input and its expected output, each copied from the testset's
   * output directory into the directory its name chooses.
   */
  lemma {:induction false} EveryCasePacked(problemName: string, outDir: string, cases: seq<TestCase>, i: int)
    requires DistinctTestNames(cases)
    requires 0 <= i < |cases|
    ensures InputPath(cases[i]) in CaseFiles(problemName, outDir, cases)
    ensures CaseFiles(problemName, outDir, cases)[InputPath(cases[i])] == CopyOf(JoinPath(outDir, cases[i].infile))
    ensures AnswerPath(cases[i]) in CaseFiles(problemName, outDir, cases)
    ensures CaseFiles(problemName, outDir, cases)[AnswerPath(cases[i])] == CopyOf(JoinPath(outDir, cases[i].difffile))
  {
    var n := |cases| - 1;
    var c := cases[n];
    if i == n {
      PackedPathsDiffer(c, c);
    } else {
      var init := cases[..n];
      EveryCasePacked(problemName, outDir, init, i);
      assert init[i] == cases[i];
      assert TestName(cases[i].infile) != TestName(c.infile);
      PackedPathsDiffer(cases[i], c);
      PackedPathsDiffer(c, cases[i]);
      LaterCopiesKeep(problemName, outDir, cases, InputPath(cases[i]));
      LaterCopiesKeep(problemName, outDir, cases, AnswerPath(cases[i]));
    }
  }

  /** `problem.yaml` survives the copies: no test case is packed under its path. */
  lemma {:induction false} YamlKept(problemName: string, outDir: string, cases: seq<TestCase>)
    ensures ProblemYaml in CaseFiles(problemName, outDir, cases)
    ensures CaseFiles(problemName, outDir, cases)[ProblemYaml] == Text(YamlText(problemName))
  {
    if cases != [] {
      var c := cases[|cases| - 1];
      YamlKept(problemName, outDir, cases[..|cases| - 1]);
      assert |InputPath(c)| == 3 && |AnswerPath(c)| == 3;
      LaterCopiesKeep(problemName, outDir, cases, ProblemYaml);
    }
  }

  /** `p` is one of the two paths test case `c` is packed under. */
  predicate PackedUnder(c: TestCase, p: Path)
  {
    p == InputPath(c) || p == AnswerPath(c)
  }

  /** A path the last copy does not write was already in the package before it. */
  lemma EarlierKey(problemName: string, outDir: string, cases: seq<TestCase>, p: Path)
    requires |cases| > 0
    requires p in CaseFiles(problemName, outDir, cases)
    requires !PackedUnder(cases[|cases| - 1], p)
    ensures p in CaseFiles(problemName, outDir, cases[..|cases| - 1])
  {
  }

  /** Besides `problem.yaml`, the package holds only the packed files of the test cases. */
  lemma {:induction false} OnlyPackedFiles(problemName: string, outDir: string, cases: seq<TestCase>, p: Path)
    requires p in CaseFiles(problemName, outDir, cases)
    ensures p == ProblemYaml || exists i :: 0 <= i < |cases| && PackedUnder(cases[i], p)
  {
    if cases != [] {
      var n := |cases| - 1;
      if !PackedUnder(cases[n], p) {
        EarlierKey(problemName, outDir, cases, p);
        OnlyPackedFiles(problemName, outDir, cases[..n], p);
        if p != ProblemYaml {
          var i :| 0 <= i < n && PackedUnder(cases[..n][i], p);
          assert cases[..n][i] == cases[i];
        }
      }
    }
  }

  /** A test named "sample1" goes to data/sample and one named "1" to data/secret. */
  lemma SampleAndSecretExample()
    ensures CaseDir("tests/sample1.in") == ["data", "sample"]
    ensures CaseDir("tests/1.in") == ["data", "secret"]
  {
    assert HasNonDot("sample1") && HasNonDot("1");
    assert "tests/sample1.in" == "tests" + "/" + "sample1" + "." + "in";
    assert "tests/1.in" == "tests" + "/" + "1" + "." + "in";
    TestNameInDir("tests", "sample1", "in");
    TestNameInDir("tests", "1", "in");
    assert OccursAt(PackedInput("tests/sample1.in"), "sample", 0);
  }
}
