/** Order-preserving filtering and reversal, the two list operations the
    history queries are built from (`where ...` and `latest()`). */
module Seqs {

  /** The elements of `s` that satisfy `keep`, in their original order. */
  function Filter<T>(s: seq<T>, keep: T -> bool): (r: seq<T>)
    ensures |r| <= |s|
    ensures forall x | x in r :: x in s && keep(x)
    ensures forall x | x in s && keep(x) :: x in r
    decreases |s|
  {
    if |s| == 0 then []
    else if keep(s[0]) then [s[0]] + Filter(s[1..], keep)
    else Filter(s[1..], keep)
  }

  /** `key` strictly increases along `s`. */
  predicate Increasing<T>(s: seq<T>, key: T -> int) {
    forall i, j | 0 <= i < j < |s| :: key(s[i]) < key(s[j])
  }

  /** `key` strictly decreases along `s`. */
  predicate Decreasing<T>(s: seq<T>, key: T -> int) {
    forall i, j | 0 <= i < j < |s| :: key(s[i]) > key(s[j])
  }

  /** Filtering keeps the relative order of what it keeps. */
  lemma {:induction false} FilterKeepsIncreasing<T>(s: seq<T>, keep: T -> bool, key: T -> int)
    requires Increasing(s, key)
    ensures Increasing(Filter(s, keep), key)
    decreases |s|
  {
    if |s| > 0 {
      var rest := Filter(s[1..], keep);
      FilterKeepsIncreasing(s[1..], keep, key);
      if keep(s[0]) {
        var r := [s[0]] + rest;
        forall i, j | 0 <= i < j < |r| ensures key(r[i]) < key(r[j]) {
          if i == 0 {
            assert r[j] in s[1..];
            var k :| 0 <= k < |s[1..]| && s[1..][k] == r[j];
            assert s[k + 1] == r[j];
          } else {
            assert r[i] == rest[i - 1] && r[j] == rest[j - 1];
          }
        }
      }
    }
  }

  function Reverse<T>(s: seq<T>): (r: seq<T>)
    ensures |r| == |s|
    ensures forall i | 0 <= i < |s| :: r[i] == s[|s| - 1 - i]
  {
    seq(|s|, i requires 0 <= i < |s| => s[|s| - 1 - i])
  }

  lemma ReverseOfIncreasing<T>(s: seq<T>, key: T -> int)
    requires Increasing(s, key)
    ensures Decreasing(Reverse(s), key)
  {
  }

  lemma ReverseSameElements<T>(s: seq<T>)
    ensures forall x :: x in Reverse(s) <==> x in s
  {
    var r := Reverse(s);
    forall x | x in s ensures x in r {
      var i :| 0 <= i < |s| && s[i] == x;
      assert r[|s| - 1 - i] == x;
    }
  }

  /** Filtering with two predicates that agree everywhere gives one result. */
  lemma {:induction false} FilterCongruent<T>(s: seq<T>, keep: T -> bool, keep': T -> bool)
    requires forall x | x in s :: keep(x) == keep'(x)
    ensures Filter(s, keep) == Filter(s, keep')
    decreases |s|
  {
    if |s| > 0 {
      assert forall x | x in s[1..] :: x in s;
      FilterCongruent(s[1..], keep, keep');
    }
  }

  /** A contiguous run of a decreasing sequence is decreasing. */
  lemma RunOfDecreasing<T>(s: seq<T>, run: seq<T>, offset: nat, key: T -> int)
    requires Decreasing(s, key)
    requires offset + |run| <= |s|
    requires forall i | 0 <= i < |run| :: run[i] == s[offset + i]
    ensures Decreasing(run, key)
  {
    forall i, j | 0 <= i < j < |run| ensures key(run[i]) > key(run[j]) {
      assert run[i] == s[offset + i];
      assert run[j] == s[offset + j];
    }
  }
}
