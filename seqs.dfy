/**
 * The JavaScript array operations the pages rely on, as functions on sequences:
 * `findIndex`/`find`, `lastIndexOf` on a mapped array, `filter`, `reverse`,
 * and a count of the elements satisfying a test.
 */
module Seqs {
  import opened Wrappers

  /** `findIndex`: the first index whose element satisfies `p`, or -1. */
  function FirstIndexWhere<T>(s: seq<T>, p: T -> bool): (r: int)
    ensures -1 <= r < |s|
    ensures r >= 0 ==> p(s[r]) && forall j :: 0 <= j < r ==> !p(s[j])
    ensures r < 0 <==> forall j :: 0 <= j < |s| ==> !p(s[j])
  {
    if s == [] then -1
    else if p(s[0]) then 0
    else
      var k := FirstIndexWhere(s[1..], p);
      if k < 0 then -1 else k + 1
  }

  /** `map(f).lastIndexOf(v)`: the last index whose element satisfies `p`, or -1. */
  function LastIndexWhere<T>(s: seq<T>, p: T -> bool): (r: int)
    ensures -1 <= r < |s|
    ensures r >= 0 ==> p(s[r]) && forall j :: r < j < |s| ==> !p(s[j])
    ensures r < 0 <==> forall j :: 0 <= j < |s| ==> !p(s[j])
  {
    if s == [] then -1
    else if p(s[|s| - 1]) then |s| - 1
    else LastIndexWhere(s[..|s| - 1], p)
  }

  /** `find`: the first element satisfying `p`, if there is one. */
  function FindFirst<T>(s: seq<T>, p: T -> bool): (r: Option<T>)
    ensures r.None? <==> forall j :: 0 <= j < |s| ==> !p(s[j])
    ensures r.Some? ==> exists i :: 0 <= i < |s| && s[i] == r.value && p(s[i]) &&
                                    forall j :: 0 <= j < i ==> !p(s[j])
  {
    var k := FirstIndexWhere(s, p);
    if k < 0 then None else Some(s[k])
  }

  /** `slice().reverse()`. */
  function Reverse<T>(s: seq<T>): (r: seq<T>)
    ensures |r| == |s|
    ensures forall i :: 0 <= i < |s| ==> r[i] == s[|s| - 1 - i]
  {
    if s == [] then [] else Reverse(s[1..]) + [s[0]]
  }

  /** `filter`: the elements satisfying `p`, in their original order. */
  function Filter<T(==)>(s: seq<T>, p: T -> bool): (r: seq<T>)
    ensures |r| <= |s|
    ensures forall i :: 0 <= i < |r| ==> r[i] in s && p(r[i])
    ensures forall j :: 0 <= j < |s| && p(s[j]) ==> s[j] in r
  {
    if s == [] then []
    else (if p(s[0]) then [s[0]] else []) + Filter(s[1..], p)
  }

  /** The number of elements satisfying `p`. */
  function Count<T>(s: seq<T>, p: T -> bool): (n: nat)
    ensures n <= |s|
    ensures n == 0 <==> forall j :: 0 <= j < |s| ==> !p(s[j])
  {
    if s == [] then 0
    else (if p(s[|s| - 1]) then 1 else 0) + Count(s[..|s| - 1], p)
  }

  /** `a` can be obtained from `b` by deleting elements (order is kept). */
  predicate Subsequence<T(==)>(a: seq<T>, b: seq<T>)
    decreases |b|
  {
    if a == [] then true
    else if b == [] then false
    else (a[0] == b[0] && Subsequence(a[1..], b[1..])) || Subsequence(a, b[1..])
  }

  /** Searching the reversed sequence from the front finds the last match. */
  lemma FindFirstOfReverse<T>(s: seq<T>, p: T -> bool)
    ensures var k := LastIndexWhere(s, p);
            FindFirst(Reverse(s), p) == if k < 0 then None else Some(s[k])
  {
    var r := Reverse(s);
    var k := LastIndexWhere(s, p);
    var f := FirstIndexWhere(r, p);
    if k < 0 {
      assert forall i :: 0 <= i < |r| ==> !p(r[i]) by {
        forall i | 0 <= i < |r| ensures !p(r[i]) {
          assert r[i] == s[|s| - 1 - i];
        }
      }
    } else {
      var m := |s| - 1 - k;
      assert r[m] == s[k];
      forall i | 0 <= i < m ensures !p(r[i]) {
        assert r[i] == s[|s| - 1 - i];
      }
      assert f == m;
    }
  }

  /** Filtering keeps the elements in their original order. */
  lemma {:induction false} FilterIsSubsequence<T>(s: seq<T>, p: T -> bool)
    ensures Subsequence(Filter(s, p), s)
  {
    if s != [] {
      FilterIsSubsequence(s[1..], p);
      var rest := Filter(s[1..], p);
      assert Filter(s, p) == (if p(s[0]) then [s[0]] else []) + rest;
      if p(s[0]) {
        assert Filter(s, p)[0] == s[0] && Filter(s, p)[1..] == rest;
      } else {
        assert Filter(s, p) == rest;
        SubsequenceDropFront(rest, s);
      }
    }
  }

  /** A subsequence of the tail of `b` is a subsequence of `b`. */
  lemma SubsequenceDropFront<T>(a: seq<T>, b: seq<T>)
    requires b != [] && Subsequence(a, b[1..])
    ensures Subsequence(a, b)
  {
  }

  /** A test that every element passes keeps the whole sequence. */
  lemma {:induction false} FilterKeepsAll<T>(s: seq<T>, p: T -> bool)
    requires forall j :: 0 <= j < |s| ==> p(s[j])
    ensures Filter(s, p) == s
  {
    if s != [] {
      FilterKeepsAll(s[1..], p);
    }
  }

  /** The keys of the elements strictly decrease from front to back. */
  ghost predicate StrictlyDecreasing<T>(s: seq<T>, key: T -> int)
  {
    forall i, j :: 0 <= i < j < |s| ==> key(s[i]) > key(s[j])
  }

  /** Filtering a sequence whose keys strictly decrease gives one whose keys strictly decrease. */
  lemma {:induction false} FilterKeepsDecreasing<T>(s: seq<T>, p: T -> bool, key: T -> int)
    requires StrictlyDecreasing(s, key)
    ensures StrictlyDecreasing(Filter(s, p), key)
  {
    if s != [] {
      var tail := s[1..];
      assert StrictlyDecreasing(tail, key) by {
        forall i, j | 0 <= i < j < |tail| ensures key(tail[i]) > key(tail[j]) {
          assert tail[i] == s[i + 1] && tail[j] == s[j + 1];
        }
      }
      FilterKeepsDecreasing(tail, p, key);
      var rest := Filter(tail, p);
      if p(s[0]) {
        forall k | 0 <= k < |rest| ensures key(s[0]) > key(rest[k]) {
          var m :| 0 <= m < |tail| && tail[m] == rest[k];
          assert s[m + 1] == rest[k];
        }
        PrependKeepsDecreasing(s[0], rest, key);
        assert Filter(s, p) == [s[0]] + rest;
      } else {
        assert Filter(s, p) == rest;
      }
    }
  }

  /** Putting in front an element whose key exceeds every other key keeps the keys decreasing. */
  lemma PrependKeepsDecreasing<T>(x: T, s: seq<T>, key: T -> int)
    requires StrictlyDecreasing(s, key)
    requires forall k :: 0 <= k < |s| ==> key(x) > key(s[k])
    ensures StrictlyDecreasing([x] + s, key)
  {
    var r := [x] + s;
    forall i, j | 0 <= i < j < |r| ensures key(r[i]) > key(r[j]) {
      assert r[j] == s[j - 1];
      if i > 0 { assert r[i] == s[i - 1]; }
    }
  }

  /** Overwriting one element by one that passes `p` exactly when it did keeps the count. */
  lemma {:induction false} CountUpdate<T>(s: seq<T>, k: nat, x: T, p: T -> bool)
    requires k < |s| && p(x) == p(s[k])
    ensures Count(s[k := x], p) == Count(s, p)
  {
    var t := s[k := x];
    if k < |s| - 1 {
      assert t[..|t| - 1] == s[..|s| - 1][k := x];
      CountUpdate(s[..|s| - 1], k, x, p);
    } else {
      assert t[..|t| - 1] == s[..|s| - 1];
    }
  }

  /** Appending one element adds one to the count exactly when it passes `p`. */
  lemma CountAppend<T>(s: seq<T>, x: T, p: T -> bool)
    ensures Count(s + [x], p) == Count(s, p) + (if p(x) then 1 else 0)
  {
    assert (s + [x])[..|s + [x]| - 1] == s;
  }
}
