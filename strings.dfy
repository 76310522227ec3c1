/**
 * String operations the summary and the packer rely on, with Python's
 * meaning: ordering of `str` values, `sub in s`, `sep.join(...)`.
 */
module Strings {

  /** Python's `a < b` on `str`: lexicographic by code point, a proper prefix first. */
  predicate Lt(a: string, b: string)
  {
    if |b| == 0 then false
    else if |a| == 0 then true
    else if a[0] != b[0] then a[0] < b[0]
    else Lt(a[1..], b[1..])
  }

  /** Python's `a <= b` on `str`. */
  predicate LessEq(a: string, b: string)
  {
    a == b || Lt(a, b)
  }

  lemma {:induction false} LtTransitive(a: string, b: string, c: string)
    requires Lt(a, b) && Lt(b, c)
    ensures Lt(a, c)
  {
    if |a| > 0 && a[0] == b[0] && b[0] == c[0] {
      LtTransitive(a[1..], b[1..], c[1..]);
    }
  }

  lemma {:induction false} LtTotal(a: string, b: string)
    ensures a == b || Lt(a, b) || Lt(b, a)
  {
    if |a| > 0 && |b| > 0 && a[0] == b[0] {
      LtTotal(a[1..], b[1..]);
      if a[1..] == b[1..] {
        assert a == [a[0]] + a[1..] && b == [b[0]] + b[1..];
      }
    }
  }

  /** `not (b < a)` is `a <= b`: the order is total. */
  lemma NotLtIsLessEq(a: string, b: string)
    requires !Lt(b, a)
    ensures LessEq(a, b)
  {
    LtTotal(a, b);
  }

  lemma LessEqTransitive(a: string, b: string, c: string)
    requires LessEq(a, b) && LessEq(b, c)
    ensures LessEq(a, c)
  {
    if a != b && b != c {
      LtTransitive(a, b, c);
    }
  }

  /** `w` occurs in `s` starting at index `i`. */
  predicate OccursAt(s: string, w: string, i: int)
  {
    0 <= i && i + |w| <= |s| && s[i..i + |w|] == w
  }

  /** Python's `w in s` for strings. */
  predicate Contains(s: string, w: string)
  {
    exists i :: 0 <= i <= |s| && OccursAt(s, w, i)
  }

  /**
   * Appending an extension that starts with a character absent from `w`
   * and is no longer than `w` can neither create nor destroy an occurrence
   * of `w`.
   */
  lemma ContainsAcrossSeparator(s: string, ext: string, w: string)
    requires |ext| > 0 && |ext| <= |w|
    requires ext[0] !in w
    ensures Contains(s + ext, w) <==> Contains(s, w)
  {
    if Contains(s + ext, w) {
      var i :| 0 <= i <= |s + ext| && OccursAt(s + ext, w, i);
      OccurrenceCrossingExtension(s, ext, w, i);
      assert (s + ext)[i..i + |w|] == s[i..i + |w|];
      assert OccursAt(s, w, i);
    }
    if Contains(s, w) {
      var j :| 0 <= j <= |s| && OccursAt(s, w, j);
      assert (s + ext)[j..j + |w|] == s[j..j + |w|];
      assert OccursAt(s + ext, w, j);
    }
  }

  /** An occurrence of `w` in `s + ext` that does not fit in `s` covers the first character of `ext`. */
  lemma OccurrenceCrossingExtension(s: string, ext: string, w: string, i: int)
    requires |ext| > 0 && |ext| <= |w|
    requires OccursAt(s + ext, w, i)
    ensures i + |w| <= |s| || ext[0] in w
  {
    if i + |w| > |s| {
      assert w[|s| - i] == (s + ext)[|s|];
    }
  }

  /** Python's `sep.join(parts)`. */
  function Join(parts: seq<string>, sep: char): (r: string)
    ensures parts == [] ==> r == ""
    ensures |parts| == 1 ==> r == parts[0]
  {
    if |parts| == 0 then ""
    else if |parts| == 1 then parts[0]
    else parts[0] + [sep] + Join(parts[1..], sep)
  }

  /** Python's `s.split(sep)` for a one-character separator. */
  function Split(s: string, sep: char): (r: seq<string>)
    ensures |r| >= 1
    decreases |s|
  {
    var k := FirstIndex(s, sep);
    if k == |s| then [s] else [s[..k]] + Split(s[k + 1..], sep)
  }

  /** The first index holding `c`, or `|s|` when there is none. */
  function FirstIndex(s: string, c: char): (r: nat)
    ensures r <= |s|
    ensures r < |s| ==> s[r] == c
    ensures forall i :: 0 <= i < r ==> s[i] != c
  {
    if |s| == 0 then 0
    else if s[0] == c then 0
    else 1 + FirstIndex(s[1..], c)
  }

  /** Joining parts that do not contain the separator can be undone by splitting. */
  lemma {:induction false} SplitJoin(parts: seq<string>, sep: char)
    requires |parts| >= 1
    requires forall k :: 0 <= k < |parts| ==> sep !in parts[k]
    ensures Split(Join(parts, sep), sep) == parts
  {
    var head := parts[0];
    if |parts| == 1 {
      assert FirstIndex(head, sep) == |head|;
    } else {
      var rest := Join(parts[1..], sep);
      var s := head + [sep] + rest;
      assert Join(parts, sep) == s;
      assert FirstIndex(s, sep) == |head| by {
        FirstIndexAfterPrefix(head, sep, rest);
      }
      assert s[..|head|] == head;
      assert s[|head| + 1..] == rest;
      SplitJoin(parts[1..], sep);
      assert parts == [head] + parts[1..];
    }
  }

  lemma FirstIndexAfterPrefix(head: string, sep: char, rest: string)
    requires sep !in head
    ensures FirstIndex(head + [sep] + rest, sep) == |head|
  {
    var s := head + [sep] + rest;
    assert s[|head|] == sep;
  }
}
