/** The standard-library `Vec<String>` operations the log fallback applies:
    `sort()` (ascending in `String`'s order) and `dedup()` (drop adjacent repeats).
    Rust orders strings by their UTF-8 bytes, which is the order of their code
    points, compared left to right with a proper prefix first. */
module Sorting {

  /** `a <= b` for Rust strings. */
  predicate LexLe(a: string, b: string)
    decreases |a|
  {
    |a| == 0 || (|b| > 0 && (a[0] < b[0] || (a[0] == b[0] && LexLe(a[1..], b[1..]))))
  }

  lemma {:induction false} LexLeTotal(a: string, b: string)
    ensures LexLe(a, b) || LexLe(b, a)
    decreases |a|
  {
    if |a| > 0 && |b| > 0 && a[0] == b[0] {
      LexLeTotal(a[1..], b[1..]);
    }
  }

  lemma {:induction false} LexLeAntisymmetric(a: string, b: string)
    requires LexLe(a, b) && LexLe(b, a)
    ensures a == b
    decreases |a|
  {
    if |a| > 0 {
      LexLeAntisymmetric(a[1..], b[1..]);
      assert a == [a[0]] + a[1..];
      assert b == [b[0]] + b[1..];
    }
  }

  lemma {:induction false} LexLeTransitive(a: string, b: string, c: string)
    requires LexLe(a, b) && LexLe(b, c)
    ensures LexLe(a, c)
    decreases |a|
  {
    if |a| > 0 && a[0] == b[0] && b[0] == c[0] {
      LexLeTransitive(a[1..], b[1..], c[1..]);
    }
  }

  ghost predicate Sorted(s: seq<string>)
  {
    forall i, j :: 0 <= i < j < |s| ==> LexLe(s[i], s[j])
  }

  /** Ascending with no element repeated. */
  ghost predicate StrictlySorted(s: seq<string>)
  {
    forall i, j :: 0 <= i < j < |s| ==> LexLe(s[i], s[j]) && s[i] != s[j]
  }

  /** An element at most every element of a sorted list can go in front of it. */
  lemma ConsSorted(a: string, t: seq<string>)
    requires Sorted(t)
    requires forall j :: 0 <= j < |t| ==> LexLe(a, t[j])
    ensures Sorted([a] + t)
  {
    forall i, j | 0 <= i < j < |[a] + t| ensures LexLe(([a] + t)[i], ([a] + t)[j]) {
      if i > 0 {
        assert ([a] + t)[i] == t[i - 1];
      }
      assert ([a] + t)[j] == t[j - 1];
    }
  }

  /** A lower bound of `x` and of every element of `rest` bounds every
      element of a permutation of `rest` plus `x`. */
  lemma BoundsPermutation(a: string, x: string, rest: seq<string>, t: seq<string>)
    requires LexLe(a, x)
    requires forall j :: 0 <= j < |rest| ==> LexLe(a, rest[j])
    requires multiset(t) == multiset(rest) + multiset{x}
    ensures forall j :: 0 <= j < |t| ==> LexLe(a, t[j])
  {
    forall j | 0 <= j < |t| ensures LexLe(a, t[j]) {
      assert t[j] in multiset(t);
      if t[j] != x {
        assert t[j] in multiset(rest);
        assert t[j] in rest;
      }
    }
  }

  function Insert(x: string, s: seq<string>): (r: seq<string>)
    requires Sorted(s)
    ensures Sorted(r)
    ensures multiset(r) == multiset(s) + multiset{x}
    ensures |r| == |s| + 1
  {
    if |s| == 0 then [x]
    else if LexLe(x, s[0]) then
      assert forall j :: 0 <= j < |s| ==> LexLe(x, s[j]) by {
        forall j | 0 <= j < |s| ensures LexLe(x, s[j]) {
          if j > 0 {
            LexLeTransitive(x, s[0], s[j]);
          }
        }
      }
      ConsSorted(x, s);
      [x] + s
    else
      LexLeTotal(x, s[0]);
      var tail := Insert(x, s[1..]);
      assert s == [s[0]] + s[1..];
      BoundsPermutation(s[0], x, s[1..], tail);
      ConsSorted(s[0], tail);
      [s[0]] + tail
  }

  /** `v.sort()`: the ascending permutation of the input. */
  function Sort(s: seq<string>): (r: seq<string>)
    ensures Sorted(r)
    ensures multiset(r) == multiset(s)
    ensures |r| == |s|
  {
    if |s| == 0 then []
    else
      assert s == [s[0]] + s[1..];
      Insert(s[0], Sort(s[1..]))
  }

  /** `v.dedup()`: every run of equal adjacent elements collapsed to one. */
  function Dedup(s: seq<string>): (r: seq<string>)
    ensures |r| <= |s|
    ensures |s| > 0 ==> |r| > 0 && r[0] == s[0]
    ensures forall i :: 0 <= i < |r| - 1 ==> r[i] != r[i + 1]
    ensures forall x :: x in r <==> x in s
  {
    if |s| <= 1 then s
    else if s[0] == s[1] then
      var r := Dedup(s[1..]);
      assert s == [s[0]] + s[1..];
      assert s[0] == s[1..][0];
      r
    else
      var r := [s[0]] + Dedup(s[1..]);
      assert s == [s[0]] + s[1..];
      r
  }

  /** `Dedup` keeps the elements in their original order: it is a subsequence,
      so a sorted input stays sorted. */
  lemma {:induction false} DedupSorted(s: seq<string>)
    requires Sorted(s)
    ensures StrictlySorted(Dedup(s))
  {
    if |s| > 1 {
      assert Sorted(s[1..]);
      DedupSorted(s[1..]);
      if s[0] != s[1] {
        var r := Dedup(s);
        var t := Dedup(s[1..]);
        assert r == [s[0]] + t;
        forall j | 0 < j < |r| ensures LexLe(s[0], r[j]) && s[0] != r[j] {
          assert r[j] == t[j - 1];
          assert r[j] in t;
          assert r[j] in s[1..];
          var k :| 0 <= k < |s[1..]| && s[1..][k] == r[j];
          assert LexLe(s[0], s[1 + k]);
          if s[0] == r[j] {
            assert LexLe(s[1], s[1 + k]) || k == 0;
            if k > 0 {
              LexLeAntisymmetric(s[0], s[1]);
            }
          }
        }
      }
    }
  }

  /** `v.truncate(n)` */
  function Truncate<T>(s: seq<T>, n: nat): (r: seq<T>)
    ensures |r| <= n && |r| <= |s|
    ensures r == s[..|r|]
    ensures |s| <= n ==> r == s
    ensures |s| > n ==> |r| == n
  {
    if |s| <= n then s else s[..n]
  }
}
