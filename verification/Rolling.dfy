/** Overlapping rolling windows inside the segments between breaks (waterflood_app/models/rolling.py). */
module Rolling {

  datatype Span = Span(start: nat, end: nat)

  /** Window length, step between starts, and the shortest segment worth a window. */
  datatype Settings = Settings(length: nat, step: nat, minLen: nat) {
    /** Without a positive step the loop does not end; the other two keep windows from being empty. */
    predicate Valid() {
      length > 0 && step > 0 && minLen > 0
    }
  }

  function Least(a: nat, b: nat): nat {
    if a <= b then a else b
  }

  /** The windows of segment [s, b) from start s on. */
  function SegmentSpans(r: Settings, s: nat, b: nat): (spans: seq<Span>)
    requires r.Valid()
    decreases if s <= b then b - s + 1 else 0
  {
    if s + r.minLen > b then []
    else
      var e := Least(s + r.length, b);
      [Span(s, e)] + if e == b then [] else SegmentSpans(r, s + r.step, b)
  }

  /** Sorted distinct cut points: both ends and every break strictly between. */
  function CutsFrom(breaks: set<nat>, k: nat, n: nat): (cuts: seq<nat>)
    requires k <= n
    ensures |cuts| > 0 && cuts[|cuts| - 1] == n
    decreases n - k
  {
    if k == n then [n]
    else if k == 0 || k in breaks then [k] + CutsFrom(breaks, k + 1, n)
    else CutsFrom(breaks, k + 1, n)
  }

  ghost predicate Ascending(cuts: seq<nat>) {
    forall i, j :: 0 <= i < j < |cuts| ==> cuts[i] < cuts[j]
  }

  lemma {:induction false} CutsAscend(breaks: set<nat>, k: nat, n: nat)
    requires k <= n
    ensures forall c :: c in CutsFrom(breaks, k, n) ==> k <= c <= n
    ensures Ascending(CutsFrom(breaks, k, n))
    decreases n - k
  {
    if k < n {
      CutsAscend(breaks, k + 1, n);
      var rest := CutsFrom(breaks, k + 1, n);
      assert forall i :: 0 <= i < |rest| ==> rest[i] in rest;
    }
  }

  /** The cut points are both ends and the breaks between them. */
  lemma {:induction false} CutsAre(breaks: set<nat>, k: nat, n: nat, c: nat)
    requires k <= n
    ensures c in CutsFrom(breaks, k, n) <==> k <= c <= n && (c == 0 || c == n || c in breaks)
    decreases n - k
  {
    if k < n {
      CutsAre(breaks, k + 1, n, c);
    }
  }

  /** All windows of the segments between the first c + 1 cuts. */
  function SpansUpTo(r: Settings, cuts: seq<nat>, c: nat): (spans: seq<Span>)
    requires r.Valid() && c < |cuts|
  {
    if c == 0 then [] else SpansUpTo(r, cuts, c - 1) + SegmentSpans(r, cuts[c - 1], cuts[c])
  }

  lemma OneMore(r: Settings, s: nat, b: nat, e: nat, out: seq<Span>, whole: seq<Span>)
    requires r.Valid() && s + r.minLen <= b && e == Least(s + r.length, b) && whole == out + SegmentSpans(r, s, b)
    ensures e == b ==> whole == out + [Span(s, e)]
    ensures e != b ==> whole == out + [Span(s, e)] + SegmentSpans(r, s + r.step, b)
  {
  }

  /** The inner loop: windows of one segment, until one reaches its end or the next would be too short. */
  method SegmentWindows(r: Settings, a: nat, b: nat) returns (out: seq<Span>)
    requires r.Valid()
    ensures out == SegmentSpans(r, a, b)
  {
    out := [];
    var s := a;
    while s + r.minLen <= b
      invariant SegmentSpans(r, a, b) == out + SegmentSpans(r, s, b)
      decreases b + r.step - s
    {
      var e := Least(s + r.length, b);
      OneMore(r, s, b, e, out, SegmentSpans(r, a, b));
      out := out + [Span(s, e)];
      if e == b {
        return;
      }
      s := s + r.step;
    }
  }

  method WindowBounds(n: nat, r: Settings, breaks: set<nat>) returns (out: seq<Span>)
    requires r.length > 0 && r.step > 0 && r.minLen > 0
    ensures out == AllSpans(n, r, breaks)
  {
    var cuts := CutsFrom(breaks, 0, n);
    out := [];
    for c := 1 to |cuts|
      invariant out == SpansUpTo(r, cuts, c - 1)
    {
      var spans := SegmentWindows(r, cuts[c - 1], cuts[c]);
      out := out + spans;
    }
  }

  function AllSpans(n: nat, r: Settings, breaks: set<nat>): (spans: seq<Span>)
    requires r.Valid()
  {
    var cuts := CutsFrom(breaks, 0, n);
    SpansUpTo(r, cuts, |cuts| - 1)
  }

  // ---------------------------------------------------------------- what the windows of a segment are

  /** Windows stay in their segment and are between min(min_len, length) and length steps long. */
  lemma {:induction false} SpanBounds(r: Settings, s: nat, b: nat, i: nat)
    requires r.Valid() && i < |SegmentSpans(r, s, b)|
    ensures var w := SegmentSpans(r, s, b)[i];
            s <= w.start && w.end <= b && Least(r.minLen, r.length) <= w.end - w.start <= r.length
    decreases if s <= b then b - s + 1 else 0
  {
    if i > 0 {
      SpanBounds(r, s + r.step, b, i - 1);
    }
  }

  /** Starts are equally spaced, and only the last window can be shorter than the full length. */
  lemma {:induction false} SpansAreRegular(r: Settings, s: nat, b: nat, i: nat)
    requires r.Valid() && i < |SegmentSpans(r, s, b)|
    ensures SegmentSpans(r, s, b)[i].start == s + i * r.step
    ensures i + 1 < |SegmentSpans(r, s, b)| ==> SegmentSpans(r, s, b)[i].end == SegmentSpans(r, s, b)[i].start + r.length
    decreases if s <= b then b - s + 1 else 0
  {
    if i > 0 {
      SpansAreRegular(r, s + r.step, b, i - 1);
      assert (i - 1) * r.step + r.step == i * r.step;
    }
  }

  ghost predicate Covered(spans: seq<Span>, t: nat) {
    exists i :: 0 <= i < |spans| && spans[i].start <= t < spans[i].end
  }

  /** No step of [s, b) is outside every window. */
  ghost predicate Covers(r: Settings, s: nat, b: nat)
    requires r.Valid()
  {
    forall t: nat :: s <= t < b ==> Covered(SegmentSpans(r, s, b), t)
  }

  lemma {:induction false} CoversWhen(r: Settings, s: nat, b: nat)
    requires r.Valid() && s + r.minLen <= b && r.step + r.minLen <= r.length + 1
    ensures Covers(r, s, b)
    decreases if s <= b then b - s + 1 else 0
  {
    var spans, e := SegmentSpans(r, s, b), Least(s + r.length, b);
    if e < b {
      CoversWhen(r, s + r.step, b);
    }
    forall t: nat | s <= t < b
      ensures Covered(spans, t)
    {
      if t < e {
        assert spans[0].start <= t < spans[0].end;
      } else {
        assert Covered(SegmentSpans(r, s + r.step, b), t);
        var i :| 0 <= i < |SegmentSpans(r, s + r.step, b)|
          && SegmentSpans(r, s + r.step, b)[i].start <= t < SegmentSpans(r, s + r.step, b)[i].end;
        assert spans[i + 1] == SegmentSpans(r, s + r.step, b)[i];
      }
    }
  }

  /** A segment one step longer than the window leaves its last step out when the next start is too late. */
  lemma LeavesGap(r: Settings, s: nat)
    requires r.Valid() && r.step + r.minLen > r.length + 1
    ensures var b := s + if r.minLen <= r.length + 1 then r.length + 1 else r.minLen;
            s + r.minLen <= b && !Covers(r, s, b)
  {
    var b := s + if r.minLen <= r.length + 1 then r.length + 1 else r.minLen;
    assert SegmentSpans(r, s + r.step, b) == [];
    assert SegmentSpans(r, s, b) == [Span(s, s + r.length)];
    assert !Covered(SegmentSpans(r, s, b), s + r.length);
  }

  /** Every segment of at least min_len steps is covered without gaps exactly when step + min_len <= length + 1. */
  lemma CoverageIff(r: Settings, s: nat)
    requires r.Valid()
    ensures (forall b: nat {:trigger Covers(r, s, b)} :: s + r.minLen <= b ==> Covers(r, s, b))
            <==> r.step + r.minLen <= r.length + 1
  {
    if r.step + r.minLen <= r.length + 1 {
      forall b: nat {:trigger Covers(r, s, b)} | s + r.minLen <= b
        ensures Covers(r, s, b)
      {
        CoversWhen(r, s, b);
      }
    } else {
      LeavesGap(r, s);
    }
  }

  // ---------------------------------------------------------------- over the whole history

  lemma {:induction false} FromSegment(r: Settings, cuts: seq<nat>, c: nat, i: nat) returns (d: nat, j: nat)
    requires r.Valid() && c < |cuts| && i < |SpansUpTo(r, cuts, c)|
    ensures 0 < d <= c && j < |SegmentSpans(r, cuts[d - 1], cuts[d])|
    ensures SpansUpTo(r, cuts, c)[i] == SegmentSpans(r, cuts[d - 1], cuts[d])[j]
  {
    var before := SpansUpTo(r, cuts, c - 1);
    if i < |before| {
      d, j := FromSegment(r, cuts, c - 1, i);
    } else {
      d, j := c, i - |before|;
    }
  }

  lemma NoCutBetween(cuts: seq<nat>, d: nat, k: nat)
    requires Ascending(cuts) && 0 < d < |cuts| && k in cuts
    ensures k <= cuts[d - 1] || cuts[d] <= k
  {
    var a :| 0 <= a < |cuts| && cuts[a] == k;
    if a < d {
      assert a == d - 1 || cuts[a] < cuts[d - 1];
    } else {
      assert a == d || cuts[d] < cuts[a];
    }
  }

  /** No window crosses a break, and every window has its length. */
  lemma SpansNeverCross(n: nat, r: Settings, breaks: set<nat>, i: nat, k: nat)
    requires r.Valid() && i < |AllSpans(n, r, breaks)| && k in breaks
    ensures var w := AllSpans(n, r, breaks)[i];
            && Least(r.minLen, r.length) <= w.end - w.start <= r.length && w.end <= n
            && !(w.start < k < w.end)
  {
    var cuts := CutsFrom(breaks, 0, n);
    CutsAscend(breaks, 0, n);
    var d, j := FromSegment(r, cuts, |cuts| - 1, i);
    SpanBounds(r, cuts[d - 1], cuts[d], j);
    assert cuts[d] in cuts;
    CutsAre(breaks, 0, n, k);
    if k < n {
      NoCutBetween(cuts, d, k);
    }
  }

  lemma {:induction false} SegmentIncluded(r: Settings, cuts: seq<nat>, d: nat, c: nat, t: nat)
    requires r.Valid() && 0 < d <= c < |cuts| && Covered(SegmentSpans(r, cuts[d - 1], cuts[d]), t)
    ensures Covered(SpansUpTo(r, cuts, c), t)
  {
    var before, here := SpansUpTo(r, cuts, c - 1), SegmentSpans(r, cuts[c - 1], cuts[c]);
    if d < c {
      SegmentIncluded(r, cuts, d, c - 1, t);
      var i :| 0 <= i < |before| && before[i].start <= t < before[i].end;
      assert (before + here)[i] == before[i];
    } else {
      var i :| 0 <= i < |here| && here[i].start <= t < here[i].end;
      assert (before + here)[|before| + i] == here[i];
    }
  }

  /** With such settings every step of every segment of at least min_len steps is in some window. */
  lemma AllLongSegmentsCovered(n: nat, r: Settings, breaks: set<nat>, d: nat, t: nat)
    requires r.Valid() && r.step + r.minLen <= r.length + 1
    requires var cuts := CutsFrom(breaks, 0, n);
             0 < d < |cuts| && cuts[d - 1] + r.minLen <= cuts[d] && cuts[d - 1] <= t < cuts[d]
    ensures Covered(AllSpans(n, r, breaks), t)
  {
    var cuts := CutsFrom(breaks, 0, n);
    CoversWhen(r, cuts[d - 1], cuts[d]);
    SegmentIncluded(r, cuts, d, |cuts| - 1, t);
  }
}
