/** Ranking by a numeric key: the stable descending sort that
    `arr.sort((a, b) => key(b) - key(a))` performs, and what taking a prefix
    of its output means. */
module Ranking {
  import opened Seqs

  /** Every element's key is at least that of every later element. */
  ghost predicate NonIncreasing<T>(s: seq<T>, key: T -> real) {
    forall i, j | 0 <= i < j < |s| :: key(s[i]) >= key(s[j])
  }

  /** The elements whose key is exactly `v`. */
  function KeyIs<T>(key: T -> real, v: real): T -> bool {
    x => key(x) == v
  }

  /** The elements whose key is strictly greater than `v`. */
  function Above<T>(key: T -> real, v: real): T -> bool {
    x => key(x) > v
  }

  /** The elements whose key is at least `v`. */
  function AtLeast<T>(key: T -> real, v: real): T -> bool {
    x => key(x) >= v
  }

  /** Inserts `x` into a list ranked by decreasing key, in front of the
      first element whose key does not exceed its own: `x` overtakes its ties,
      which is what keeps the sort below stable. */
  function Insert<T>(x: T, s: seq<T>, key: T -> real): (r: seq<T>)
    ensures |r| == |s| + 1
    ensures multiset(r) == multiset(s) + multiset{x}
  {
    if |s| == 0 then [x]
    else if key(s[0]) <= key(x) then [x] + s
    else
      assert s == [s[0]] + s[1..];
      [s[0]] + Insert(x, s[1..], key)
  }

  /** Insertion keeps a ranked list ranked. */
  lemma {:induction false} InsertRanked<T>(x: T, s: seq<T>, key: T -> real)
    requires NonIncreasing(s, key)
    ensures NonIncreasing(Insert(x, s, key), key)
  {
    if |s| > 0 && key(s[0]) > key(x) {
      var tail := Insert(x, s[1..], key);
      InsertRanked(x, s[1..], key);
      assert s == [s[0]] + s[1..];
      forall k | 0 <= k < |tail|
        ensures key(s[0]) >= key(tail[k])
      {
        var y := tail[k];
        assert y in multiset(tail);
        if y != x {
          assert y in multiset(s[1..]);
          var m :| 0 <= m < |s| - 1 && s[1..][m] == y;
          assert s[m + 1] == y;
        }
      }
    }
  }

  /** Stable sort by decreasing key (insertion sort from the back). */
  function SortDesc<T>(s: seq<T>, key: T -> real): (r: seq<T>)
    ensures |r| == |s|
    ensures multiset(r) == multiset(s)
    ensures NonIncreasing(r, key)
  {
    if |s| == 0 then []
    else
      assert s == [s[0]] + s[1..];
      InsertRanked(s[0], SortDesc(s[1..], key), key);
      Insert(s[0], SortDesc(s[1..], key), key)
  }

  lemma {:induction false} InsertTies<T(!new)>(x: T, s: seq<T>, key: T -> real, v: real)
    ensures Filter(Insert(x, s, key), KeyIs(key, v))
         == if key(x) == v then [x] + Filter(s, KeyIs(key, v)) else Filter(s, KeyIs(key, v))
  {
    if |s| > 0 && key(s[0]) > key(x) {
      InsertTies(x, s[1..], key, v);
    }
  }

  /** Stability: for every key value, the elements with that key appear in
      the sorted list in the same order as in the input. */
  lemma {:induction false} SortStable<T(!new)>(s: seq<T>, key: T -> real, v: real)
    ensures Filter(SortDesc(s, key), KeyIs(key, v)) == Filter(s, KeyIs(key, v))
  {
    if |s| > 0 {
      SortStable(s[1..], key, v);
      InsertTies(s[0], SortDesc(s[1..], key), key, v);
    }
  }

  /** In a ranked list, at most `j` elements rank strictly above the one at
      position `j`. */
  lemma RankedAbove<T(!new)>(u: seq<T>, key: T -> real, j: nat)
    requires NonIncreasing(u, key) && j < |u|
    ensures |Filter(u, Above(key, key(u[j])))| <= j
  {
    var above := Above(key, key(u[j]));
    var front, back := u[..j], u[j..];
    assert u == front + back;
    forall i | 0 <= i < |back|
      ensures !above(back[i])
    {
      assert back[i] == u[j + i];
      assert key(u[j]) >= key(u[j + i]) || i == 0;
    }
    FilterConcat(front, back, above);
    FilterNone(back, above);
  }

  /** In a ranked list, at least `j + 1` elements rank at or above the one at
      position `j`. */
  lemma RankedAtLeast<T(!new)>(u: seq<T>, key: T -> real, j: nat)
    requires NonIncreasing(u, key) && j < |u|
    ensures |Filter(u, AtLeast(key, key(u[j])))| >= j + 1
  {
    var atLeast := AtLeast(key, key(u[j]));
    var front, back := u[..j + 1], u[j + 1..];
    assert u == front + back;
    forall i | 0 <= i < |front|
      ensures atLeast(front[i])
    {
      assert front[i] == u[i];
      assert key(u[i]) >= key(u[j]) || i == j;
    }
    FilterConcat(front, back, atLeast);
    FilterAll(front, atLeast);
  }

  /** A selected element of the top `n` has fewer than `n` elements ranked
      strictly above it. */
  lemma TopHasFewAbove<T(!new)>(s: seq<T>, key: T -> real, n: int, x: T)
    requires 0 <= n
    requires x in SliceTo(SortDesc(s, key), n)
    ensures x in s
    ensures |Filter(s, Above(key, key(x)))| < n
  {
    var u := SortDesc(s, key);
    var top := SliceTo(u, n);
    var j :| 0 <= j < |top| && top[j] == x;
    assert top == u[..|top|];
    assert u[j] == x;
    PermutationMembers(u, s, x);
    RankedAbove(u, key, j);
    FilterPermutation(s, u, Above(key, key(x)));
  }

  /** An element with at most `n` elements ranked at or above it (itself
      included) is among the top `n`. */
  lemma FewAtLeastIsTop<T(!new)>(s: seq<T>, key: T -> real, n: int, x: T)
    requires x in s
    requires |Filter(s, AtLeast(key, key(x)))| <= n
    ensures x in SliceTo(SortDesc(s, key), n)
  {
    var u := SortDesc(s, key);
    PermutationMembers(s, u, x);
    var j :| 0 <= j < |u| && u[j] == x;
    RankedAtLeast(u, key, j);
    FilterPermutation(s, u, AtLeast(key, key(x)));
    assert j < n;
    assert SliceTo(u, n)[j] == x;
  }
}
