/**
 * Python's `sorted(xs, key=...)` on string keys, modelled as a stable
 * insertion sort: each element goes after every element whose key is not
 * greater than its own.
 */
module Sorting {
  import opened Strings

  /** The keys of `s` never decrease. */
  predicate SortedBy<T>(s: seq<T>, key: T -> string)
  {
    forall i, j :: 0 <= i < j < |s| ==> LessEq(key(s[i]), key(s[j]))
  }

  /** Where `x` goes in `s`: after the leading elements whose keys are not greater than its key. */
  function InsertPos<T>(x: T, s: seq<T>, key: T -> string): (k: nat)
    ensures k <= |s|
    ensures forall i :: 0 <= i < k ==> !Lt(key(x), key(s[i]))
    ensures k < |s| ==> Lt(key(x), key(s[k]))
  {
    if s == [] then 0
    else if Lt(key(x), key(s[0])) then 0
    else 1 + InsertPos(x, s[1..], key)
  }

  function Insert<T>(x: T, s: seq<T>, key: T -> string): (r: seq<T>)
    ensures |r| == |s| + 1
    ensures multiset(r) == multiset(s) + multiset{x}
  {
    var k := InsertPos(x, s, key);
    assert s == s[..k] + s[k..];
    s[..k] + [x] + s[k..]
  }

  lemma InsertKeepsSorted<T>(x: T, s: seq<T>, key: T -> string)
    requires SortedBy(s, key)
    ensures SortedBy(Insert(x, s, key), key)
  {
    var k := InsertPos(x, s, key);
    var r := Insert(x, s, key);
    assert r == s[..k] + [x] + s[k..];
    forall i, j | 0 <= i < j < |r|
      ensures LessEq(key(r[i]), key(r[j]))
    {
      if j < k {
        assert r[i] == s[i] && r[j] == s[j];
      } else if j == k {
        assert r[i] == s[i] && r[j] == x;
        NotLtIsLessEq(key(s[i]), key(x));
      } else if i > k {
        assert r[i] == s[i - 1] && r[j] == s[j - 1];
      } else if i == k {
        assert r[i] == x && r[j] == s[j - 1];
        assert LessEq(key(s[k]), key(s[j - 1]));
        LessEqTransitive(key(x), key(s[k]), key(s[j - 1]));
      } else {
        assert r[i] == s[i] && r[j] == s[j - 1];
      }
    }
  }

  /** Inserting an element that is not yet present keeps the elements pairwise distinct. */
  lemma InsertKeepsDistinct<T>(x: T, s: seq<T>, key: T -> string)
    requires forall i, j :: 0 <= i < j < |s| ==> s[i] != s[j]
    requires x !in s
    ensures forall i, j :: 0 <= i < j < |Insert(x, s, key)| ==> Insert(x, s, key)[i] != Insert(x, s, key)[j]
  {
    var k := InsertPos(x, s, key);
    var r := Insert(x, s, key);
    assert r == s[..k] + [x] + s[k..];
    forall i, j | 0 <= i < j < |r|
      ensures r[i] != r[j]
    {
      if j < k {
        assert r[i] == s[i] && r[j] == s[j];
      } else if j == k {
        assert r[i] == s[i] && r[j] == x;
      } else if i > k {
        assert r[i] == s[i - 1] && r[j] == s[j - 1];
      } else if i == k {
        assert r[i] == x && r[j] == s[j - 1];
      } else {
        assert r[i] == s[i] && r[j] == s[j - 1];
      }
    }
  }

  /** `sorted(s, key=key)`: a permutation of `s` whose keys never decrease. */
  function SortBy<T>(s: seq<T>, key: T -> string): (r: seq<T>)
    ensures |r| == |s|
    ensures multiset(r) == multiset(s)
    ensures SortedBy(r, key)
  {
    if s == [] then []
    else
      var rest := SortBy(s[..|s| - 1], key);
      InsertKeepsSorted(s[|s| - 1], rest, key);
      assert s == s[..|s| - 1] + [s[|s| - 1]];
      Insert(s[|s| - 1], rest, key)
  }
}
