/** Counting, distinctness and order-preserving subsequences over `seq`. */
module Seqs {

  /** No element occurs twice; what React needs of a list of `key`s. */
  predicate Distinct<T(==)>(s: seq<T>)
  {
    forall i, j :: 0 <= i < j < |s| ==> s[i] != s[j]
  }

  /** The number of positions of `s` that hold `x`. */
  function Count<T(==)>(s: seq<T>, x: T): (n: nat)
    ensures n <= |s|
    ensures n > 0 <==> x in s
  {
    if |s| == 0 then 0
    else
      assert x in s <==> s[0] == x || x in s[1..];
      (if s[0] == x then 1 else 0) + Count(s[1..], x)
  }

  /** Putting one element in front adds one occurrence of that element only. */
  lemma CountCons<T>(x: T, s: seq<T>)
    ensures forall y :: Count([x] + s, y) == (if x == y then 1 else 0) + Count(s, y)
  {
    assert ([x] + s)[1..] == s;
  }

  /** In a sequence without repetitions, a value occurs exactly once or not at all. */
  lemma {:induction false} CountInDistinct<T>(s: seq<T>, x: T)
    requires Distinct(s)
    ensures Count(s, x) == (if x in s then 1 else 0)
  {
    if |s| > 0 {
      assert Distinct(s[1..]) by {
        forall i, j | 0 <= i < j < |s[1..]|
          ensures s[1..][i] != s[1..][j]
        {
          assert s[1..][i] == s[i + 1] && s[1..][j] == s[j + 1];
        }
      }
      CountInDistinct(s[1..], x);
      if s[0] == x {
        assert x !in s[1..] by {
          forall k | 0 <= k < |s[1..]| ensures s[1..][k] != x {
            assert s[1..][k] == s[k + 1];
          }
        }
      }
    }
  }

  /** `a` can be obtained from `b` by deleting elements, keeping the order of
      the rest (greedy matching decides this). */
  predicate Subsequence<T(==)>(a: seq<T>, b: seq<T>)
    decreases |b|
  {
    if |a| == 0 then true
    else if |b| == 0 then false
    else if a[0] == b[0] then Subsequence(a[1..], b[1..])
    else Subsequence(a, b[1..])
  }

  /** Every sequence is a subsequence of itself. */
  lemma {:induction false} SubsequenceOfSelf<T>(s: seq<T>)
    ensures Subsequence(s, s)
  {
    if |s| > 0 {
      SubsequenceOfSelf(s[1..]);
    }
  }
}
