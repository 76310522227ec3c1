/**
 * The POSIX path helpers that both the summary and the packer use to turn
 * an input file path into a test name: `os.path.basename`,
 * `os.path.splitext` and `os.path.join`. Each is written as a scan from
 * the end of the string.
 */
module Paths {

  /** `os.path.basename(p)`: what follows the last '/'. */
  function BaseName(p: string): string
  {
    if p == [] then []
    else if p[|p| - 1] == '/' then []
    else BaseName(p[..|p| - 1]) + [p[|p| - 1]]
  }

  /** `s` holds a character other than '.'. */
  predicate HasNonDot(s: string)
  {
    s != [] && (s[|s| - 1] != '.' || HasNonDot(s[..|s| - 1]))
  }

  /**
   * The length of the extension `os.path.splitext` splits off a file name:
   * from the last dot to the end, provided some character before that dot
   * is not a dot (so that ".bashrc" has no extension), and 0 otherwise.
   */
  function ExtLen(name: string): (n: nat)
    ensures n <= |name|
  {
    if name == [] then 0
    else if name[|name| - 1] == '.' then (if HasNonDot(name[..|name| - 1]) then 1 else 0)
    else
      var n := ExtLen(name[..|name| - 1]);
      if n > 0 then n + 1 else 0
  }

  /** The root part of `os.path.splitext(name)`. */
  function Stem(name: string): string
  {
    name[..|name| - ExtLen(name)]
  }

  /** The extension part of `os.path.splitext(name)`. */
  function Ext(name: string): string
  {
    name[|name| - ExtLen(name)..]
  }

  /**
   * What `os.path.splitext` splits off is empty or one dot followed by no
   * other dot, and a non-empty extension leaves a root that is not all dots.
   */
  lemma {:induction false} ExtShape(name: string)
    ensures Stem(name) + Ext(name) == name
    ensures Ext(name) == "" || (Ext(name)[0] == '.' && '.' !in Ext(name)[1..] && HasNonDot(Stem(name)))
  {
    if name != [] && name[|name| - 1] != '.' {
      var init := name[..|name| - 1];
      ExtShape(init);
      if ExtLen(init) > 0 {
        assert Ext(name) == Ext(init) + [name[|name| - 1]];
        assert Stem(name) == Stem(init);
      }
    }
  }

  /** A name is its own base name when it holds no '/'. */
  lemma {:induction false} BaseNameOfPlainName(p: string)
    requires '/' !in p
    ensures BaseName(p) == p
  {
    if p != [] {
      BaseNameOfPlainName(p[..|p| - 1]);
    }
  }

  /** Appending "." and a suffix without dots gives an extension of exactly that length. */
  lemma {:induction false} ExtLenOfRenamed(base: string, suffix: string)
    requires HasNonDot(base) && '.' !in suffix
    ensures ExtLen(base + "." + suffix) == |suffix| + 1
  {
    var name := base + "." + suffix;
    if suffix == [] {
      assert name[..|name| - 1] == base;
    } else {
      var init := suffix[..|suffix| - 1];
      assert name[..|name| - 1] == base + "." + init;
      assert name[|name| - 1] == suffix[|suffix| - 1];
      ExtLenOfRenamed(base, init);
    }
  }

  /**
   * The name of a test case as the summary and the packer derive it:
   * `os.path.splitext(os.path.basename(infile))[0]`.
   */
  function TestName(infile: string): string
  {
    Stem(BaseName(infile))
  }

  /**
   * Appending an extension to a test name and deriving the test name back
   * gives the original name, provided the name holds no '/' and is not made
   * of dots only.
   */
  lemma TestNameOfRenamed(base: string, suffix: string)
    requires '/' !in base && HasNonDot(base)
    requires '.' !in suffix && '/' !in suffix
    ensures TestName(base + "." + suffix) == base
  {
    var n := base + "." + suffix;
    assert '/' !in n by {
      assert forall i :: 0 <= i < |n| ==> n[i] == (if i < |base| then base[i] else if i == |base| then '.' else suffix[i - |base| - 1]);
    }
    BaseNameOfPlainName(n);
    ExtLenOfRenamed(base, suffix);
    assert n[..|base|] == base;
  }

  /** A base name never holds '/'. */
  lemma {:induction false} BaseNameHasNoSlash(p: string)
    ensures '/' !in BaseName(p)
  {
    if p != [] && p[|p| - 1] != '/' {
      BaseNameHasNoSlash(p[..|p| - 1]);
    }
  }

  /** A test name never holds '/'. */
  lemma TestNameHasNoSlash(infile: string)
    ensures '/' !in TestName(infile)
  {
    var b := BaseName(infile);
    BaseNameHasNoSlash(infile);
    assert forall i :: 0 <= i < |Stem(b)| ==> Stem(b)[i] == b[i];
  }

  /** The base name of `dir/name` is `name` when `name` holds no '/'. */
  lemma {:induction false} BaseNameAfterSlash(dir: string, name: string)
    requires '/' !in name
    ensures BaseName(dir + "/" + name) == name
  {
    var p := dir + "/" + name;
    if name == [] {
      assert p[|p| - 1] == '/';
    } else {
      var init := name[..|name| - 1];
      assert p[..|p| - 1] == dir + "/" + init;
      assert p[|p| - 1] == name[|name| - 1];
      BaseNameAfterSlash(dir, init);
      assert name == init + [name[|name| - 1]];
    }
  }

  /** The test name of `dir/base.suffix` is `base`. */
  lemma TestNameInDir(dir: string, base: string, suffix: string)
    requires '/' !in base && HasNonDot(base)
    requires '.' !in suffix && '/' !in suffix
    ensures TestName(dir + "/" + base + "." + suffix) == base
  {
    var name := base + "." + suffix;
    assert '/' !in name by {
      assert forall i :: 0 <= i < |name| ==> name[i] == (if i < |base| then base[i] else if i == |base| then '.' else suffix[i - |base| - 1]);
    }
    assert dir + "/" + base + "." + suffix == dir + "/" + name;
    BaseNameAfterSlash(dir, name);
    BaseNameOfPlainName(name);
    TestNameOfRenamed(base, suffix);
  }

  /**
   * `os.path.join(dir, p)` on POSIX: an absolute `p` replaces `dir`;
   * otherwise `p` follows `dir`, with one '/' between them unless `dir` is
   * empty or already ends in '/'.
   */
  function JoinPath(dir: string, p: string): (r: string)
    ensures |r| >= |p| && r[|r| - |p|..] == p
    ensures |p| > 0 && p[0] == '/' ==> r == p
    ensures !(|p| > 0 && p[0] == '/') ==>
      r[..|r| - |p|] == (if dir == "" || dir[|dir| - 1] == '/' then dir else dir + "/")
  {
    if |p| > 0 && p[0] == '/' then p
    else if dir == "" || dir[|dir| - 1] == '/' then dir + p
    else dir + "/" + p
  }

  /** What follows a prefix that is empty or ends in '/' has its own base name. */
  lemma {:induction false} BaseNameAfterDir(a: string, b: string)
    requires a == "" || a[|a| - 1] == '/'
    ensures BaseName(a + b) == BaseName(b)
  {
    if b == [] {
      assert a + b == a;
    } else {
      var init := b[..|b| - 1];
      assert (a + b)[..|a + b| - 1] == a + init;
      assert (a + b)[|a + b| - 1] == b[|b| - 1];
      BaseNameAfterDir(a, init);
    }
  }

  /** Joining a directory in front of a path leaves its base name, and so its test name, as it was. */
  lemma JoinKeepsBaseName(dir: string, p: string)
    ensures BaseName(JoinPath(dir, p)) == BaseName(p)
    ensures TestName(JoinPath(dir, p)) == TestName(p)
  {
    if !(|p| > 0 && p[0] == '/') {
      var a := if dir == "" || dir[|dir| - 1] == '/' then dir else dir + "/";
      assert JoinPath(dir, p) == a + p;
      BaseNameAfterDir(a, p);
    }
  }
}
