/** GetCombinations: the k-element combinations of a list, in the order the
    recursive enumerator yields them. */
module Subsets {

  function Binomial(n: nat, k: nat): nat
  {
    if k == 0 then 1
    else if n == 0 then 0
    else Binomial(n - 1, k - 1) + Binomial(n - 1, k)
  }

  lemma {:induction false} BinomialBelow(n: nat, k: nat)
    requires n < k
    ensures Binomial(n, k) == 0
  {
    if n > 0 {
      BinomialBelow(n - 1, k - 1);
      BinomialBelow(n - 1, k);
    }
  }

  lemma {:induction false} BinomialPositive(n: nat, k: nat)
    requires k <= n
    ensures Binomial(n, k) > 0
  {
    if k > 0 {
      BinomialPositive(n - 1, k - 1);
    }
  }

  /** `x` put in front of each tail. */
  function PrependAll<T>(x: T, tails: seq<seq<T>>): (r: seq<seq<T>>)
    ensures |r| == |tails|
    ensures forall i :: 0 <= i < |tails| ==> r[i] == [x] + tails[i]
  {
    seq(|tails|, i requires 0 <= i < |tails| => [x] + tails[i])
  }

  /** For k = 0 the single empty combination; otherwise, for i from 0 to
      |s| - k, s[i] followed by each (k - 1)-combination of s[i + 1..]. */
  function Combinations<T>(s: seq<T>, k: nat): seq<seq<T>>
    decreases |s|, 1
  {
    if k == 0 then [[]] else CombinationsFrom(s, k, 0)
  }

  /** The part of the enumeration whose first element is s[i] for some i >= start. */
  function CombinationsFrom<T>(s: seq<T>, k: nat, start: nat): seq<seq<T>>
    requires 0 < k && start <= |s|
    decreases |s|, 0, |s| - start
  {
    if start + k > |s| then []
    else PrependAll(s[start], Combinations(s[start + 1..], k - 1)) + CombinationsFrom(s, k, start + 1)
  }

  /** There are C(|s|, k) combinations; C(7, 5) = 21 for two hole cards and
      five board cards. */
  lemma {:induction false} CombinationsCount<T>(s: seq<T>, k: nat)
    ensures |Combinations(s, k)| == Binomial(|s|, k)
    decreases |s|, 1
  {
    if k > 0 {
      CombinationsFromCount(s, k, 0);
    }
  }

  lemma {:induction false} CombinationsFromCount<T>(s: seq<T>, k: nat, start: nat)
    requires 0 < k && start <= |s|
    ensures |CombinationsFrom(s, k, start)| == Binomial(|s| - start, k)
    decreases |s|, 0, |s| - start
  {
    if start + k > |s| {
      BinomialBelow(|s| - start, k);
    } else {
      CombinationsCount(s[start + 1..], k - 1);
      CombinationsFromCount(s, k, start + 1);
    }
  }

  /** c is s with some elements left out, keeping the order of the rest. */
  predicate IsSubsequence<T(==)>(c: seq<T>, s: seq<T>)
    decreases |s|
  {
    if c == [] then true
    else if s == [] then false
    else (c[0] == s[0] && IsSubsequence(c[1..], s[1..])) || IsSubsequence(c, s[1..])
  }

  lemma {:induction false} SubsequenceLength<T>(c: seq<T>, s: seq<T>)
    requires IsSubsequence(c, s)
    ensures |c| <= |s|
    decreases |s|
  {
    if c != [] {
      if c[0] == s[0] && IsSubsequence(c[1..], s[1..]) {
        SubsequenceLength(c[1..], s[1..]);
      } else {
        SubsequenceLength(c, s[1..]);
      }
    }
  }

  /** A subsequence of a suffix is a subsequence of the whole. */
  lemma {:induction false} SubsequenceOfSuffix<T>(c: seq<T>, s: seq<T>, i: nat)
    requires i <= |s| && IsSubsequence(c, s[i..])
    ensures IsSubsequence(c, s)
    decreases i
  {
    if i > 0 {
      assert s[i - 1..][1..] == s[i..];
      SubsequenceOfSuffix(c, s, i - 1);
    }
  }

  /** Every combination has k elements and is a subsequence of s. */
  lemma {:induction false} CombinationsSound<T>(s: seq<T>, k: nat, c: seq<T>)
    requires c in Combinations(s, k)
    ensures |c| == k && IsSubsequence(c, s)
    decreases |s|, 1
  {
    if k > 0 {
      CombinationsFromSound(s, k, 0, c);
      assert s[0..] == s;
    }
  }

  lemma {:induction false} CombinationsFromSound<T>(s: seq<T>, k: nat, start: nat, c: seq<T>)
    requires 0 < k && start <= |s| && c in CombinationsFrom(s, k, start)
    ensures |c| == k && IsSubsequence(c, s[start..])
    decreases |s|, 0, |s| - start
  {
    var heads := PrependAll(s[start], Combinations(s[start + 1..], k - 1));
    if c in heads {
      var i :| 0 <= i < |heads| && heads[i] == c;
      var tail := Combinations(s[start + 1..], k - 1)[i];
      CombinationsSound(s[start + 1..], k - 1, tail);
      assert c == [s[start]] + tail;
      assert c[1..] == tail;
      assert s[start..][1..] == s[start + 1..];
    } else {
      CombinationsFromSound(s, k, start + 1, c);
      assert s[start..][1..] == s[start + 1..];
    }
  }

  /** Every k-element subsequence of s is enumerated. */
  lemma {:induction false} CombinationsComplete<T>(s: seq<T>, k: nat, c: seq<T>)
    requires |c| == k && IsSubsequence(c, s)
    ensures c in Combinations(s, k)
    decreases |s|, 1
  {
    if k > 0 {
      assert s[0..] == s;
      CombinationsFromComplete(s, k, 0, c);
    }
  }

  lemma {:induction false} CombinationsFromComplete<T>(s: seq<T>, k: nat, start: nat, c: seq<T>)
    requires 0 < k && start <= |s| && |c| == k && IsSubsequence(c, s[start..])
    ensures c in CombinationsFrom(s, k, start)
    decreases |s|, 0, |s| - start
  {
    SubsequenceLength(c, s[start..]);
    var suffix := s[start..];
    assert suffix[1..] == s[start + 1..];
    if c[0] == suffix[0] && IsSubsequence(c[1..], suffix[1..]) {
      CombinationsComplete(s[start + 1..], k - 1, c[1..]);
      var tails := Combinations(s[start + 1..], k - 1);
      var i :| 0 <= i < |tails| && tails[i] == c[1..];
      assert c == [s[start]] + tails[i];
      assert PrependAll(s[start], tails)[i] == c;
    } else {
      SubsequenceLength(c, s[start + 1..]);
      CombinationsFromComplete(s, k, start + 1, c);
    }
  }

  /** A subsequence uses each element at most as often as s has it. */
  lemma {:induction false} SubsequenceMultiset<T>(c: seq<T>, s: seq<T>)
    requires IsSubsequence(c, s)
    ensures multiset(c) <= multiset(s)
    decreases |s|
  {
    if c != [] {
      assert s == [s[0]] + s[1..];
      if c[0] == s[0] && IsSubsequence(c[1..], s[1..]) {
        SubsequenceMultiset(c[1..], s[1..]);
        assert c == [c[0]] + c[1..];
      } else {
        SubsequenceMultiset(c, s[1..]);
      }
    }
  }
}
