/** Sequence helpers shared by the three components of the model: filtering,
    de-duplication in first-occurrence order (pandas' drop_duplicates), sums,
    counting, and a stable sort driven by a comparator. */
module Seqs {

  datatype Option<T> = None | Some(value: T)

  /** No element occurs twice. */
  predicate NoDup<T(==)>(s: seq<T>) {
    forall i, j :: 0 <= i < j < |s| ==> s[i] != s[j]
  }

  /** The elements of s that satisfy p, in their original order. */
  function Filter<T(!new)>(s: seq<T>, p: T -> bool): (r: seq<T>)
    ensures |r| <= |s|
    ensures forall x :: x in r <==> x in s && p(x)
  {
    if s == [] then []
    else Filter(s[..|s| - 1], p) + (if p(s[|s| - 1]) then [s[|s| - 1]] else [])
  }

  /** How many elements of s satisfy p. */
  function CountWhere<T(!new)>(s: seq<T>, p: T -> bool): nat {
    |Filter(s, p)|
  }

  lemma {:induction false} FilterAppend<T(!new)>(a: seq<T>, b: seq<T>, p: T -> bool)
    ensures Filter(a + b, p) == Filter(a, p) + Filter(b, p)
    decreases |b|
  {
    if b == [] {
      assert a + b == a;
    } else {
      var b' := b[..|b| - 1];
      assert (a + b)[..|a + b| - 1] == a + b';
      FilterAppend(a, b', p);
    }
  }

  /** Filtering keeps the multiplicity of every selected value and drops the others. */
  lemma {:induction false} FilterMultiset<T(!new)>(s: seq<T>, p: T -> bool, x: T)
    ensures multiset(Filter(s, p))[x] == if p(x) then multiset(s)[x] else 0
  {
    if s != [] {
      var s' := s[..|s| - 1];
      assert s == s' + [s[|s| - 1]];
      FilterMultiset(s', p, x);
    }
  }

  /** Two sequences holding the same elements have as many elements satisfying p. */
  lemma CountWherePerm<T(!new)>(s: seq<T>, t: seq<T>, p: T -> bool)
    requires multiset(s) == multiset(t)
    ensures CountWhere(s, p) == CountWhere(t, p)
  {
    forall x ensures multiset(Filter(s, p))[x] == multiset(Filter(t, p))[x] {
      FilterMultiset(s, p, x);
      FilterMultiset(t, p, x);
    }
    assert multiset(Filter(s, p)) == multiset(Filter(t, p));
    calc {
      CountWhere(s, p);
      |multiset(Filter(s, p))|;
      |multiset(Filter(t, p))|;
      CountWhere(t, p);
    }
  }

  lemma {:induction false} FilterAll<T(!new)>(s: seq<T>, p: T -> bool)
    requires forall k :: 0 <= k < |s| ==> p(s[k])
    ensures Filter(s, p) == s
  {
    if s != [] {
      FilterAll(s[..|s| - 1], p);
    }
  }

  lemma {:induction false} FilterNone<T(!new)>(s: seq<T>, p: T -> bool)
    requires forall k :: 0 <= k < |s| ==> !p(s[k])
    ensures Filter(s, p) == []
  {
    if s != [] {
      FilterNone(s[..|s| - 1], p);
    }
  }

  /** The concatenation of a sequence of sequences (pandas' concat of frames). */
  function Concat<T>(ss: seq<seq<T>>): seq<T> {
    if ss == [] then [] else Concat(ss[..|ss| - 1]) + ss[|ss| - 1]
  }

  /** pandas' drop_duplicates: the first occurrence of every value, in input order. */
  function Distinct<T(==,!new)>(s: seq<T>): (r: seq<T>)
    ensures NoDup(r)
    ensures forall x :: x in r <==> x in s
    ensures |r| <= |s|
  {
    if s == [] then []
    else
      var d := Distinct(s[..|s| - 1]);
      if s[|s| - 1] in d then d else d + [s[|s| - 1]]
  }

  /** Sum of a sequence of reals. */
  function SumReal(s: seq<real>): real {
    if s == [] then 0.0 else SumReal(s[..|s| - 1]) + s[|s| - 1]
  }

  /** Sum of a sequence of integers. */
  function SumInt(s: seq<int>): int {
    if s == [] then 0 else SumInt(s[..|s| - 1]) + s[|s| - 1]
  }

  /** The first n elements of s, or all of s when it is shorter (pandas' head(n)). */
  function Take<T>(s: seq<T>, n: nat): (r: seq<T>)
    ensures |r| == if |s| < n then |s| else n
    ensures r <= s
  {
    if |s| <= n then s else s[..n]
  }

  // ---------------------------------------------------------------------------
  // Counting occurrences against a list of distinct values: the histogram in the
  // simulator and the top-scorer tally in the scoreboard both rest on this.

  /** The occurrences in xs of every value listed in support, added up. */
  function SumCounts<T(==)>(support: seq<T>, xs: seq<T>): nat {
    if support == [] then 0
    else multiset(xs)[support[0]] + SumCounts(support[1..], xs)
  }

  lemma {:induction false} SumCountsSnoc<T>(support: seq<T>, xs: seq<T>, w: T)
    ensures SumCounts(support, xs + [w]) == SumCounts(support, xs) + multiset(support)[w]
  {
    if support != [] {
      assert support == [support[0]] + support[1..];
      SumCountsSnoc(support[1..], xs, w);
    }
  }

  lemma {:induction false} NoDupOccursOnce<T>(s: seq<T>, x: T)
    requires NoDup(s) && x in s
    ensures multiset(s)[x] == 1
  {
    assert s == [s[0]] + s[1..];
    if s[0] == x {
      assert x !in s[1..];
    } else {
      NoDupOccursOnce(s[1..], x);
    }
  }

  /** When support lists distinct values and covers every element of xs, the counts
      over support add up to the length of xs: every element is counted exactly once. */
  lemma {:induction false} SumCountsTotal<T>(support: seq<T>, xs: seq<T>)
    requires NoDup(support)
    requires forall x :: x in xs ==> x in support
    ensures SumCounts(support, xs) == |xs|
  {
    if xs == [] {
      SumCountsEmpty(support);
    } else {
      var xs', w := xs[..|xs| - 1], xs[|xs| - 1];
      assert xs == xs' + [w];
      SumCountsTotal(support, xs');
      SumCountsSnoc(support, xs', w);
      NoDupOccursOnce(support, w);
    }
  }

  lemma {:induction false} SumCountsEmpty<T>(support: seq<T>)
    ensures SumCounts(support, []) == 0
  {
    if support != [] {
      SumCountsEmpty(support[1..]);
    }
  }

  lemma {:induction false} NoDupMultiset<T>(s: seq<T>, x: T)
    requires NoDup(s)
    ensures multiset(s)[x] <= 1
  {
    if s != [] {
      var s' := s[..|s| - 1];
      assert s == s' + [s[|s| - 1]];
      NoDupMultiset(s', x);
      if x == s[|s| - 1] {
        assert x !in s';
      }
    }
  }

  /** Distinctness is a property of the multiset of elements, so any permutation of a
      duplicate-free sequence is duplicate-free. */
  lemma NoDupPerm<T>(s: seq<T>, t: seq<T>)
    requires NoDup(s) && multiset(s) == multiset(t)
    ensures NoDup(t)
  {
    SubMultisetNoDup(s, t);
  }

  /** Every element of a sub-multiset of a duplicate-free sequence occurs once too. */
  lemma SubMultisetNoDup<T>(s: seq<T>, t: seq<T>)
    requires NoDup(s) && multiset(t) <= multiset(s)
    ensures NoDup(t)
  {
    forall i, j | 0 <= i < j < |t| ensures t[i] != t[j] {
      if t[i] == t[j] {
        assert t == t[..j] + t[j..];
        assert t[i] in t[..j] && t[j] in t[j..];
        assert multiset(t)[t[i]] == multiset(t[..j])[t[i]] + multiset(t[j..])[t[i]];
        NoDupMultiset(s, t[i]);
        assert false;
      }
    }
  }

  /** Python's list.remove: drops the first occurrence of x. */
  function RemoveFirst<T(==)>(s: seq<T>, x: T): (r: seq<T>)
    requires x in s
    ensures |r| == |s| - 1
    ensures multiset(r) == multiset(s) - multiset{x}
  {
    var k := IndexOf(s, x).value;
    assert s == s[..k] + [x] + s[k + 1..];
    s[..k] + s[k + 1..]
  }

  // ---------------------------------------------------------------------------
  // Stable insertion sort by a comparator. le(a, b) means "a may come before b".

  ghost predicate TotalPreorder<T(!new)>(le: (T, T) -> bool) {
    && (forall a, b :: le(a, b) || le(b, a))
    && (forall a, b, c :: le(a, b) && le(b, c) ==> le(a, c))
  }

  predicate SortedBy<T>(s: seq<T>, le: (T, T) -> bool) {
    forall i, j :: 0 <= i < j < |s| ==> le(s[i], s[j])
  }

  /** Inserts x in front of the first element it may precede. */
  function Insert<T>(x: T, s: seq<T>, le: (T, T) -> bool): (r: seq<T>)
    ensures multiset(r) == multiset(s) + multiset{x}
    ensures |r| == |s| + 1
  {
    if s == [] || le(x, s[0]) then [x] + s
    else
      assert s == [s[0]] + s[1..];
      [s[0]] + Insert(x, s[1..], le)
  }

  /** Stable sort: elements that compare both ways keep their input order. */
  function SortBy<T>(s: seq<T>, le: (T, T) -> bool): (r: seq<T>)
    ensures multiset(r) == multiset(s)
    ensures |r| == |s|
  {
    if s == [] then []
    else
      assert s == [s[0]] + s[1..];
      Insert(s[0], SortBy(s[1..], le), le)
  }

  lemma {:induction false} InsertSorted<T(!new)>(x: T, s: seq<T>, le: (T, T) -> bool)
    requires TotalPreorder(le) && SortedBy(s, le)
    ensures SortedBy(Insert(x, s, le), le)
  {
    if s == [] || le(x, s[0]) {
    } else {
      var tail := Insert(x, s[1..], le);
      assert SortedBy(s[1..], le);
      InsertSorted(x, s[1..], le);
      forall y | y in tail ensures le(s[0], y) {
        assert y in multiset(tail);
        assert y == x || y in s[1..];
      }
      assert Insert(x, s, le) == [s[0]] + tail;
    }
  }

  lemma {:induction false} SortBySorted<T(!new)>(s: seq<T>, le: (T, T) -> bool)
    requires TotalPreorder(le)
    ensures SortedBy(SortBy(s, le), le)
  {
    if s != [] {
      SortBySorted(s[1..], le);
      InsertSorted(s[0], SortBy(s[1..], le), le);
    }
  }

  /** The order of reals used when numbers are sorted ascending. */
  predicate AtMost(a: real, b: real) {
    a <= b
  }

  lemma AtMostTotalPreorder()
    ensures TotalPreorder(AtMost)
  {
  }

  /** Sorting reals with AtMost puts them in ascending order. */
  lemma SortedReals(s: seq<real>)
    ensures SortedBy(SortBy(s, AtMost), AtMost)
  {
    AtMostTotalPreorder();
    SortBySorted(s, AtMost);
  }

  /** Index of the first occurrence of x in s (Python's list.index / str.find). */
  function IndexOf<T(==)>(s: seq<T>, x: T): (r: Option<nat>)
    ensures r.Some? ==> r.value < |s| && s[r.value] == x && x !in s[..r.value]
    ensures r.None? ==> x !in s
  {
    if s == [] then None
    else if s[0] == x then Some(0)
    else match IndexOf(s[1..], x)
      case None => None
      case Some(k) => assert s[..k + 1] == [s[0]] + s[1..][..k]; Some(k + 1)
  }

  /** An element of s sits at some index of its permutation t. */
  lemma PermIndex<T>(s: seq<T>, t: seq<T>, a: nat) returns (i: nat)
    requires multiset(s) == multiset(t) && a < |s|
    ensures i < |t| && t[i] == s[a]
  {
    assert s[a] in multiset(t);
    i :| i < |t| && t[i] == s[a];
  }

  /** The elements of a permutation are those of the original. */
  lemma PermMembers<T>(s: seq<T>, t: seq<T>)
    requires multiset(s) == multiset(t)
    ensures forall x :: x in s <==> x in t
  {
    forall x ensures x in s <==> x in t {
      assert x in s <==> x in multiset(s);
      assert x in t <==> x in multiset(t);
    }
  }
}
