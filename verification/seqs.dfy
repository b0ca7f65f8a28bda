/**
 Order-preserving filtering of sequences, the one collection operation the
 front end uses (`Array.prototype.filter`), and the subsequence relation that
 says what filtering keeps.
 */
module Seqs {

  /** True iff `a` can be obtained from `b` by deleting elements. */
  predicate IsSubsequence<T(==)>(a: seq<T>, b: seq<T>)
    decreases |b|
  {
    |a| == 0 ||
    (|b| > 0 && ((a[0] == b[0] && IsSubsequence(a[1..], b[1..])) || IsSubsequence(a, b[1..])))
  }

  /** `Array.prototype.filter`: the elements of `s` that `keep` accepts, in order. */
  function Filter<T(==)>(s: seq<T>, keep: T -> bool): (r: seq<T>)
    ensures |r| <= |s|
    ensures forall i :: 0 <= i < |r| ==> keep(r[i])
    ensures forall i :: 0 <= i < |s| && keep(s[i]) ==> s[i] in r
  {
    if |s| == 0 then []
    else if keep(s[0]) then [s[0]] + Filter(s[1..], keep)
    else Filter(s[1..], keep)
  }

  /** Filtering deletes elements and never reorders the ones it keeps. */
  lemma {:induction false} FilterIsSubsequence<T>(s: seq<T>, keep: T -> bool)
    ensures IsSubsequence(Filter(s, keep), s)
  {
    if |s| > 0 {
      FilterIsSubsequence(s[1..], keep);
      assert s == [s[0]] + s[1..];
      if keep(s[0]) {
        SubsequenceCons(s[0], Filter(s[1..], keep), s[1..]);
      } else {
        SubsequenceSkip(s[0], Filter(s[1..], keep), s[1..]);
      }
    }
  }

  /** Each accepted value occurs in the result as often as in the input. */
  lemma {:induction false} FilterMultiplicity<T>(s: seq<T>, keep: T -> bool)
    ensures multiset(Filter(s, keep)) <= multiset(s)
    ensures forall i :: 0 <= i < |s| && keep(s[i]) ==> multiset(Filter(s, keep))[s[i]] == multiset(s)[s[i]]
  {
    if |s| > 0 {
      FilterMultiplicity(s[1..], keep);
      assert s == [s[0]] + s[1..];
      assert multiset(s) == multiset{s[0]} + multiset(s[1..]);
      forall i | 0 <= i < |s| && keep(s[i])
        ensures multiset(Filter(s, keep))[s[i]] == multiset(s)[s[i]]
      {
        if i > 0 {
          assert s[i] == s[1..][i - 1];
        }
      }
    }
  }

  /** Every element of a filtered sequence is an element of the input. */
  lemma {:induction false} FilteredElementIsInInput<T>(s: seq<T>, keep: T -> bool, j: nat)
    requires j < |Filter(s, keep)|
    ensures Filter(s, keep)[j] in s
  {
    assert s == [s[0]] + s[1..];
    if keep(s[0]) {
      if j > 0 {
        FilteredElementIsInInput(s[1..], keep, j - 1);
      }
    } else {
      FilteredElementIsInInput(s[1..], keep, j);
    }
  }

  /** Prepending the same element to both sides keeps the relation. */
  lemma SubsequenceCons<T>(x: T, a: seq<T>, b: seq<T>)
    requires IsSubsequence(a, b)
    ensures IsSubsequence([x] + a, [x] + b)
  {
    assert ([x] + a)[1..] == a;
    assert ([x] + b)[1..] == b;
  }

  /** Prepending an element to the longer side keeps the relation. */
  lemma SubsequenceSkip<T>(x: T, a: seq<T>, b: seq<T>)
    requires IsSubsequence(a, b)
    ensures IsSubsequence(a, [x] + b)
  {
    assert ([x] + b)[1..] == b;
  }

  /** Filtering a sequence whose every element is kept gives it back unchanged. */
  lemma {:induction false} FilterKeepsAll<T>(s: seq<T>, keep: T -> bool)
    requires forall i :: 0 <= i < |s| ==> keep(s[i])
    ensures Filter(s, keep) == s
  {
    if |s| > 0 {
      FilterKeepsAll(s[1..], keep);
    }
  }

  /** Filtering twice with the same test is the same as filtering once. */
  lemma {:induction false} FilterIdempotent<T>(s: seq<T>, keep: T -> bool)
    ensures Filter(Filter(s, keep), keep) == Filter(s, keep)
  {
    FilterKeepsAll(Filter(s, keep), keep);
  }

  /** When exactly the element at `i` is rejected, filtering deletes that one element. */
  lemma {:induction false} FilterDropsOne<T>(s: seq<T>, keep: T -> bool, i: nat)
    requires i < |s|
    requires !keep(s[i])
    requires forall j :: 0 <= j < |s| && j != i ==> keep(s[j])
    ensures Filter(s, keep) == s[..i] + s[i + 1..]
  {
    var tail := s[1..];
    if i == 0 {
      FilterKeepsAll(tail, keep);
    } else {
      forall j | 0 <= j < |tail| && j != i - 1
        ensures keep(tail[j])
      {
        assert tail[j] == s[j + 1];
      }
      FilterDropsOne(tail, keep, i - 1);
      calc {
        Filter(s, keep);
        [s[0]] + Filter(tail, keep);
        [s[0]] + (tail[..i - 1] + tail[i..]);
        { assert tail[..i - 1] == s[1..i]; assert tail[i..] == s[i + 1..]; }
        [s[0]] + (s[1..i] + s[i + 1..]);
        ([s[0]] + s[1..i]) + s[i + 1..];
        { assert [s[0]] + s[1..i] == s[..i]; }
        s[..i] + s[i + 1..];
      }
    }
  }

  /** Filtering distributes over concatenation. */
  lemma {:induction false} FilterConcat<T>(a: seq<T>, b: seq<T>, keep: T -> bool)
    ensures Filter(a + b, keep) == Filter(a, keep) + Filter(b, keep)
  {
    if |a| == 0 {
      assert a + b == b;
    } else {
      assert (a + b)[0] == a[0];
      assert (a + b)[1..] == a[1..] + b;
      FilterConcat(a[1..], b, keep);
    }
  }

  /** Rejected elements at the front do not contribute to the filtered result. */
  lemma {:induction false} FilterDropsRejectedPrefix<T>(s: seq<T>, keep: T -> bool, n: nat)
    requires n <= |s|
    requires forall j :: 0 <= j < n ==> !keep(s[j])
    ensures Filter(s, keep) == Filter(s[n..], keep)
  {
    if n > 0 {
      FilterDropsRejectedPrefix(s[1..], keep, n - 1);
      assert s[1..][n - 1..] == s[n..];
    }
  }
}
