/** Sequence operations that the source performs with `Array.prototype`
    methods: `filter`, `slice(0, end)` and `find`. */
module Seqs {
  import opened Wrappers

  /** `s.filter(p)`: the elements satisfying `p`, in their original order. */
  function Filter<T(!new)>(s: seq<T>, p: T -> bool): (r: seq<T>)
    ensures |r| <= |s|
    ensures forall i | 0 <= i < |r| :: p(r[i])
  {
    if |s| == 0 then []
    else if p(s[0]) then [s[0]] + Filter(s[1..], p)
    else Filter(s[1..], p)
  }

  /** Filtering keeps every element satisfying `p` exactly as often as it
      occurs, and drops all the others. */
  lemma {:induction false} FilterCount<T(!new)>(s: seq<T>, p: T -> bool)
    ensures forall x :: multiset(Filter(s, p))[x] == if p(x) then multiset(s)[x] else 0
    ensures forall x :: x in Filter(s, p) <==> x in s && p(x)
  {
    if |s| > 0 {
      FilterCount(s[1..], p);
      assert s == [s[0]] + s[1..];
    }
  }

  /** Filtering distributes over concatenation, so filtering a list built page
      after page keeps the pages' order. */
  lemma {:induction false} FilterConcat<T(!new)>(s: seq<T>, t: seq<T>, p: T -> bool)
    ensures Filter(s + t, p) == Filter(s, p) + Filter(t, p)
  {
    if |s| == 0 {
      assert s + t == t;
    } else {
      assert (s + t)[0] == s[0];
      assert (s + t)[1..] == s[1..] + t;
      FilterConcat(s[1..], t, p);
    }
  }

  /** Filtering keeps everything when every element satisfies `p`. */
  lemma {:induction false} FilterAll<T(!new)>(s: seq<T>, p: T -> bool)
    requires forall i | 0 <= i < |s| :: p(s[i])
    ensures Filter(s, p) == s
  {
    if |s| > 0 {
      FilterAll(s[1..], p);
    }
  }

  /** Filtering keeps nothing when no element satisfies `p`. */
  lemma {:induction false} FilterNone<T(!new)>(s: seq<T>, p: T -> bool)
    requires forall i | 0 <= i < |s| :: !p(s[i])
    ensures Filter(s, p) == []
  {
    if |s| > 0 {
      FilterNone(s[1..], p);
    }
  }

  /** Two orderings of the same elements have equally many elements
      satisfying `p`. */
  lemma FilterPermutation<T(!new)>(s: seq<T>, t: seq<T>, p: T -> bool)
    requires multiset(s) == multiset(t)
    ensures multiset(Filter(s, p)) == multiset(Filter(t, p))
    ensures |Filter(s, p)| == |Filter(t, p)|
  {
    var fs, ft := Filter(s, p), Filter(t, p);
    FilterCount(s, p);
    FilterCount(t, p);
    assert forall x :: multiset(fs)[x] == multiset(ft)[x];
    assert multiset(fs) == multiset(ft);
    calc {
      |fs|;
      |multiset(fs)|;
      |multiset(ft)|;
      |ft|;
    }
  }

  /** The middle part of a three-part concatenation. */
  lemma MiddleOfConcat<T>(x: seq<T>, y: seq<T>, z: seq<T>)
    ensures (x + y + z)[|x|..|x| + |y|] == y
    ensures (x + y + z)[..|x|] == x
  {
  }

  /** Rearranging a sequence keeps its elements. */
  lemma PermutationMembers<T>(s: seq<T>, t: seq<T>, x: T)
    requires multiset(s) == multiset(t)
    ensures x in s <==> x in t
  {
    assert x in s <==> x in multiset(s);
    assert x in t <==> x in multiset(t);
  }

  /** A prefix holds no element more often than the whole sequence. */
  lemma PrefixSubMultiset<T>(p: seq<T>, s: seq<T>)
    requires p <= s
    ensures multiset(p) <= multiset(s)
  {
    assert s == p + s[|p|..];
  }

  /** The end index that `slice(0, end)` uses on an array of length `len`:
      a negative end counts back from the end of the array. */
  function SliceEnd(len: nat, end: int): (k: nat)
    ensures k <= len
    ensures 0 <= end ==> k == if end < len then end else len
    ensures end < 0 ==> k == if len + end < 0 then 0 else len + end
  {
    if end < 0 then (if len + end < 0 then 0 else len + end)
    else if end < len then end
    else len
  }

  /** `s.slice(0, end)`: a fresh prefix of `s`. */
  function SliceTo<T>(s: seq<T>, end: int): (r: seq<T>)
    ensures r <= s
    ensures |r| == SliceEnd(|s|, end)
  {
    s[..SliceEnd(|s|, end)]
  }

  /** The position of the first element satisfying `p`, or `None`: what
      `s.find(p)` looks up (it returns `s[i]` for this `i`, `undefined` for
      `None`). */
  function FindFirst<T>(s: seq<T>, p: T -> bool): (r: Option<nat>)
    ensures r.Some? ==> r.value < |s| && p(s[r.value])
    ensures r.Some? ==> forall j | 0 <= j < r.value :: !p(s[j])
    ensures r.None? <==> forall j | 0 <= j < |s| :: !p(s[j])
  {
    if |s| == 0 then None
    else if p(s[0]) then Some(0)
    else match FindFirst(s[1..], p)
      case None => None
      case Some(i) => Some(i + 1)
  }
}
