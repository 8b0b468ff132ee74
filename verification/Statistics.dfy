/** The median, as numpy computes it: the middle of the sorted values, or the mean of the middle two. */
module Statistics {
  import opened Common

  ghost predicate IsSorted(s: Vec) {
    forall i, j :: 0 <= i < j < |s| ==> s[i] <= s[j]
  }

  function Insert(x: real, s: Vec): (r: Vec)
    ensures |r| == |s| + 1
  {
    if s == [] || x <= s[0] then [x] + s else [s[0]] + Insert(x, s[1..])
  }

  function Sort(s: Vec): (r: Vec)
    ensures |r| == |s|
  {
    if s == [] then [] else Insert(s[0], Sort(s[1..]))
  }

  function Median(s: Vec): real
    requires |s| > 0
  {
    var t := Sort(s);
    var h := |t| / 2;
    if |t| % 2 == 1 then t[h] else (t[h - 1] + t[h]) / 2.0
  }

  lemma {:induction false} InsertKeepsValues(x: real, s: Vec)
    ensures multiset(Insert(x, s)) == multiset(s) + multiset{x}
  {
    if s != [] && x > s[0] {
      InsertKeepsValues(x, s[1..]);
      assert s == [s[0]] + s[1..];
    }
  }

  lemma {:induction false} InsertKeepsOrder(x: real, s: Vec)
    requires IsSorted(s)
    ensures IsSorted(Insert(x, s))
    ensures forall i :: 0 <= i < |s| + 1 ==> Insert(x, s)[i] == x || Insert(x, s)[i] in s
  {
    if s != [] && x > s[0] {
      InsertKeepsOrder(x, s[1..]);
    }
  }

  /** Sorting yields the same values in ascending order. */
  lemma {:induction false} SortIsSorted(s: Vec)
    ensures IsSorted(Sort(s)) && multiset(Sort(s)) == multiset(s)
  {
    if s != [] {
      SortIsSorted(s[1..]);
      InsertKeepsOrder(s[0], Sort(s[1..]));
      InsertKeepsValues(s[0], Sort(s[1..]));
      assert s == [s[0]] + s[1..];
    }
  }

  // ---------------------------------------------------------------- the median without sorting

  function CountAtMost(s: Vec, x: real): (n: nat) {
    if s == [] then 0 else CountAtMost(s[1..], x) + if s[0] <= x then 1 else 0
  }

  function CountAtLeast(s: Vec, x: real): (n: nat) {
    if s == [] then 0 else CountAtLeast(s[1..], x) + if s[0] >= x then 1 else 0
  }

  /** x is the r-th smallest value of s: r of them are at most x, and all but r - 1 at least x. */
  ghost predicate IsRank(s: Vec, x: real, r: nat) {
    x in s && CountAtMost(s, x) >= r && CountAtLeast(s, x) + r >= |s| + 1
  }

  /** No value is both at most a and at least something larger. */
  lemma {:induction false} CountsDisjoint(s: Vec, a: real, b: real)
    requires a < b
    ensures CountAtMost(s, a) + CountAtLeast(s, b) <= |s|
  {
    if s != [] {
      CountsDisjoint(s[1..], a, b);
    }
  }

  /** At most one value has a given rank. */
  lemma RankIsUnique(s: Vec, a: real, b: real, r: nat)
    requires IsRank(s, a, r) && IsRank(s, b, r)
    ensures a == b
  {
    if a < b {
      CountsDisjoint(s, a, b);
    } else if b < a {
      CountsDisjoint(s, b, a);
    }
  }

  lemma {:induction false} CountInsert(x: real, s: Vec, v: real)
    ensures CountAtMost(Insert(x, s), v) == CountAtMost(s, v) + if x <= v then 1 else 0
    ensures CountAtLeast(Insert(x, s), v) == CountAtLeast(s, v) + if x >= v then 1 else 0
  {
    if s != [] && x > s[0] {
      CountInsert(x, s[1..], v);
      assert ([s[0]] + Insert(x, s[1..]))[1..] == Insert(x, s[1..]);
    } else {
      assert ([x] + s)[1..] == s;
    }
  }

  lemma {:induction false} CountSort(s: Vec, v: real)
    ensures CountAtMost(Sort(s), v) == CountAtMost(s, v) && CountAtLeast(Sort(s), v) == CountAtLeast(s, v)
  {
    if s != [] {
      CountSort(s[1..], v);
      CountInsert(s[0], Sort(s[1..]), v);
    }
  }

  lemma {:induction false} CountSorted(t: Vec, k: nat)
    requires IsSorted(t) && k < |t|
    ensures CountAtMost(t, t[k]) >= k + 1 && CountAtLeast(t, t[k]) >= |t| - k
  {
    if k > 0 {
      CountSorted(t[1..], k - 1);
    } else if |t| > 1 {
      CountSorted(t[1..], 0);
      CountAtLeastMonotone(t[1..], t[0], t[1]);
    }
  }

  lemma {:induction false} CountAtLeastMonotone(s: Vec, a: real, b: real)
    requires a <= b
    ensures CountAtLeast(s, a) >= CountAtLeast(s, b) && CountAtMost(s, a) <= CountAtMost(s, b)
  {
    if s != [] {
      CountAtLeastMonotone(s[1..], a, b);
    }
  }

  lemma SortedRank(s: Vec, k: nat, r: nat, x: real)
    requires k < |s| && r == k + 1 && x == Sort(s)[k]
    ensures IsRank(s, x, r)
  {
    SortIsSorted(s);
    CountSorted(Sort(s), k);
    CountSort(s, x);
    assert x in multiset(s);
  }

  /** m is the mean of a and b, the two middle values of s: one value when their number is odd. */
  ghost predicate IsMiddleOf(s: Vec, a: real, b: real, m: real) {
    IsRank(s, a, (|s| + 1) / 2) && IsRank(s, b, |s| / 2 + 1) && m == (a + b) / 2.0
  }

  ghost predicate IsMiddle(s: Vec, m: real) {
    exists a, b :: IsMiddleOf(s, a, b, m)
  }

  lemma RanksAscend(s: Vec, a: real, b: real, r: nat, q: nat)
    requires IsRank(s, a, r) && IsRank(s, b, q) && r <= q
    ensures a <= b
  {
    if b < a {
      CountsDisjoint(s, b, a);
    }
  }

  lemma HalvesAround(s: Vec, a: real, b: real, m: real)
    requires IsMiddleOf(s, a, b, m)
    ensures 2 * CountAtMost(s, m) >= |s| && 2 * CountAtLeast(s, m) >= |s|
  {
    RanksAscend(s, a, b, (|s| + 1) / 2, |s| / 2 + 1);
    CountAtLeastMonotone(s, a, m);
    CountAtLeastMonotone(s, m, b);
  }

  lemma MeanOfOne(a: real)
    ensures a == (a + a) / 2.0
  {
  }

  lemma MiddlePositions(n: nat)
    requires n > 0
    ensures 0 < (n + 1) / 2 <= n / 2 + 1 <= n
    ensures if n % 2 == 1 then (n + 1) / 2 == n / 2 + 1 else (n + 1) / 2 == n / 2
  {
  }

  lemma MedianOfSorted(s: Vec, a: real, b: real)
    requires |s| > 0
    requires 0 < (|s| + 1) / 2 <= |s| && a == Sort(s)[(|s| + 1) / 2 - 1]
    requires |s| / 2 < |s| && b == Sort(s)[|s| / 2]
    ensures Median(s) == (a + b) / 2.0
  {
    MiddlePositions(|s|);
    if |s| % 2 == 1 {
      MeanOfOne(b);
    }
  }

  /**
   The median is the mean of the middle values, so at least half of the values are at most the median and at least
   half are at least the median.
   */
  lemma MedianIsMiddle(s: Vec)
    requires |s| > 0
    ensures IsMiddle(s, Median(s))
    ensures 2 * CountAtMost(s, Median(s)) >= |s| && 2 * CountAtLeast(s, Median(s)) >= |s|
  {
    MiddlePositions(|s|);
    var lo, hi, m := (|s| + 1) / 2, |s| / 2 + 1, Median(s);
    var a, b := Sort(s)[lo - 1], Sort(s)[hi - 1];
    assert m == (a + b) / 2.0 by {
      MedianOfSorted(s, a, b);
    }
    assert IsRank(s, a, lo) && IsRank(s, b, hi) by {
      SortedRank(s, lo - 1, lo, a);
      SortedRank(s, hi - 1, hi, b);
    }
    assert IsMiddleOf(s, a, b, m);
    HalvesAround(s, a, b, m);
  }

  /** Nothing else is in the middle. */
  lemma MiddleIsUnique(s: Vec, m: real, n: real)
    requires IsMiddle(s, m) && IsMiddle(s, n)
    ensures m == n
  {
    var a, b :| IsMiddleOf(s, a, b, m);
    var c, d :| IsMiddleOf(s, c, d, n);
    RankIsUnique(s, a, c, (|s| + 1) / 2);
    RankIsUnique(s, b, d, |s| / 2 + 1);
  }
}
