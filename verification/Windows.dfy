/** Break events cut the history into windows, and short windows are merged (waterflood_app/prep/events.py). */
module Windows {
  import opened Common

  datatype Window = Window(start: nat, end: nat, reason: string) {
    function Steps(): int {
      end - start
    }
  }

  /** An event as the loop reads it; the type already in upper case. */
  datatype Event = Event(well: string, date: Option<int>, kind: string, text: string)

  // ---------------------------------------------------------------- break steps

  /** First grid step at or after a date, or the number of steps. */
  method StepOf(dates: seq<int>, d: int) returns (k: nat)
    ensures k <= |dates| && (forall i :: 0 <= i < k ==> dates[i] < d) && (k < |dates| ==> d <= dates[k])
    ensures k == StepAt(dates, d, 0)
  {
    k := 0;
    while k < |dates| && dates[k] < d
      invariant k <= |dates| && (forall i :: 0 <= i < k ==> dates[i] < d) && StepAt(dates, d, 0) == StepAt(dates, d, k)
    {
      k := k + 1;
    }
  }

  function StepAt(dates: seq<int>, d: int, k: nat): nat
    requires k <= |dates|
    decreases |dates| - k
  {
    if k == |dates| || d <= dates[k] then k else StepAt(dates, d, k + 1)
  }

  /** This event cuts the history at step k. */
  predicate Cuts(dates: seq<int>, kinds: set<string>, e: Event, k: nat) {
    e.date.Some? && e.kind in kinds && 0 < k < |dates| && k == StepAt(dates, e.date.value, 0)
  }

  /** Event i is the first of the events to cut at step k. */
  ghost predicate FirstToCut(dates: seq<int>, kinds: set<string>, events: seq<Event>, i: nat, k: nat) {
    && i < |events| && Cuts(dates, kinds, events[i], k)
    && forall j :: 0 <= j < i ==> !Cuts(dates, kinds, events[j], k)
  }

  /** The break steps of the first n events with their texts, an earlier event before a later one. */
  function BreaksOf(dates: seq<int>, events: seq<Event>, kinds: set<string>, n: nat): (breaks: map<nat, string>)
    requires n <= |events|
    ensures forall k :: k in breaks ==> 0 < k < |dates|
  {
    if n == 0 then map[]
    else
      var before, e := BreaksOf(dates, events, kinds, n - 1), events[n - 1];
      if e.date.None? then before
      else
        var k := StepAt(dates, e.date.value, 0);
        if Cuts(dates, kinds, e, k) && k !in before then before[k := e.text] else before
  }

  /** Break steps, each with the text of the first event that cuts there. */
  method Breaks(dates: seq<int>, events: seq<Event>, kinds: set<string>) returns (breaks: map<nat, string>)
    ensures forall k :: k in breaks <==> exists i :: 0 <= i < |events| && Cuts(dates, kinds, events[i], k)
    ensures forall k :: k in breaks ==> 0 < k < |dates|
    ensures forall i: nat, k: nat :: FirstToCut(dates, kinds, events, i, k) ==> k in breaks && breaks[k] == events[i].text
    ensures breaks == BreaksOf(dates, events, kinds, |events|)
  {
    breaks := map[];
    for n := 0 to |events|
      invariant breaks == BreaksOf(dates, events, kinds, n)
      invariant forall k :: k in breaks <==> exists i :: 0 <= i < n && Cuts(dates, kinds, events[i], k)
      invariant forall i: nat, k: nat :: i < n && FirstToCut(dates, kinds, events, i, k) ==> k in breaks && breaks[k] == events[i].text
    {
      var e := events[n];
      if e.date.Some? && e.kind in kinds {
        var k := StepOf(dates, e.date.value);
        if 0 < k < |dates| && k !in breaks {
          breaks := breaks[k := e.text];
        }
      }
    }
  }

  // ---------------------------------------------------------------- cutting

  const FULL := "full history"

  /** Windows follow each other without gap or overlap, from first to last; all but the first hold a step. */
  ghost predicate Tiles(ws: seq<Window>, first: nat, last: nat)
    decreases |ws|
  {
    && |ws| > 0
    && var w := ws[|ws| - 1];
       && w.end == last
       && if |ws| == 1 then w.start == first <= last
          else w.start < last && Tiles(ws[..|ws| - 1], first, w.start)
  }

  lemma TilesAppend(ws: seq<Window>, first: nat, mid: nat, w: Window)
    requires Tiles(ws, first, mid) && w.start == mid < w.end
    ensures Tiles(ws + [w], first, w.end)
  {
    assert (ws + [w])[..|ws|] == ws;
  }

  lemma TilesStretch(ws: seq<Window>, first: nat, mid: nat, w: Window)
    requires Tiles(ws, first, mid) && mid <= w.end && w.start == ws[|ws| - 1].start
    ensures Tiles(ws[..|ws| - 1] + [w], first, w.end)
  {
    var k := |ws| - 1;
    assert (ws[..k] + [w])[..k] == ws[..k];
  }

  lemma {:induction false} TilesEnds(ws: seq<Window>, first: nat, last: nat)
    requires Tiles(ws, first, last)
    ensures ws[0].start == first && first <= last
  {
    if |ws| > 1 {
      TilesEnds(ws[..|ws| - 1], first, ws[|ws| - 1].start);
    }
  }

  /** Earlier windows end where later ones start, or before. */
  lemma {:induction false} TilesAscend(ws: seq<Window>, first: nat, last: nat, i: nat, j: nat)
    requires Tiles(ws, first, last) && i < j < |ws|
    ensures first <= ws[i].start <= ws[i].end <= ws[j].start < ws[j].end <= last
    ensures i + 1 == j ==> ws[i].end == ws[j].start
    ensures 0 < i ==> first <= ws[i].start < ws[i].end
  {
    var k := |ws| - 1;
    var front := ws[..k];
    TilesEnds(front, first, ws[k].start);
    if j < k {
      TilesAscend(front, first, ws[k].start, i, j);
    } else if i < k - 1 {
      TilesAscend(front, first, ws[k].start, i, k - 1);
    } else if i > 0 {
      TilesAscend(front, first, ws[k].start, 0, i);
    }
  }

  ghost predicate StartsAt(ws: seq<Window>, k: nat) {
    exists i :: 0 < i < |ws| && ws[i].start == k
  }

  lemma StartsAppend(ws: seq<Window>, w: Window, k: nat)
    requires ws != []
    ensures StartsAt(ws + [w], k) <==> StartsAt(ws, k) || w.start == k
  {
    if i :| 0 < i < |ws| && ws[i].start == k {
      assert (ws + [w])[i].start == k;
    }
    assert (ws + [w])[|ws|] == w;
  }

  lemma StartsReplace(ws: seq<Window>, w: Window, k: nat)
    requires ws != [] && w.start == ws[|ws| - 1].start
    ensures StartsAt(ws[..|ws| - 1] + [w], k) <==> StartsAt(ws, k)
  {
    var after := ws[..|ws| - 1] + [w];
    assert forall i :: 0 <= i < |ws| ==> after[i].start == ws[i].start;
    if i :| 0 < i < |ws| && ws[i].start == k {
      assert after[i].start == k;
    }
    if i :| 0 < i < |after| && after[i].start == k {
      assert ws[i].start == k;
    }
  }

  /** The windows between the breaks seen so far, and the break the next one begins at. */
  ghost predicate CutUpTo(ws: seq<Window>, breaks: map<nat, string>, start: nat, k: nat) {
    && (if ws == [] then start == 0 else Tiles(ws, 0, start) && start in breaks)
    && forall b: nat {:trigger StartsAt(ws, b)} :: 0 < b < k ==>
         (b in breaks <==> StartsAt(ws, b) || (b == start && start > 0))
  }

  /** What the reasons say: the break a window begins at. */
  ghost predicate Labelled(ws: seq<Window>, breaks: map<nat, string>) {
    forall i :: 0 <= i < |ws| ==>
      if i == 0 then ws[i].reason == "full history" else ws[i].start in breaks && ws[i].reason == "after " + breaks[ws[i].start]
  }

  lemma CutHere(ws: seq<Window>, breaks: map<nat, string>, start: nat, k: nat, w: Window)
    requires CutUpTo(ws, breaks, start, k) && start < k && w.start == start && w.end == k
    ensures Tiles(ws + [w], 0, k)
    ensures forall b: nat {:trigger StartsAt(ws + [w], b)} :: 0 < b < k ==> (b in breaks <==> StartsAt(ws + [w], b))
  {
    if ws != [] {
      TilesAppend(ws, 0, start, w);
    }
    forall b: nat {:trigger StartsAt(ws + [w], b)} | 0 < b < k
      ensures b in breaks <==> StartsAt(ws + [w], b)
    {
      if ws != [] {
        StartsAppend(ws, w, b);
        if ws != [] {
          TilesEnds(ws, 0, start);
        }
      }
      assert b in breaks <==> StartsAt(ws, b) || (b == start && start > 0);
    }
  }

  /** The windows between consecutive breaks. */
  method Cut(n: nat, breaks: map<nat, string>) returns (ws: seq<Window>)
    requires forall k :: k in breaks ==> 0 < k < n
    ensures Tiles(ws, 0, n) && Labelled(ws, breaks)
    ensures forall k: nat {:trigger StartsAt(ws, k)} :: k in breaks <==> StartsAt(ws, k)
  {
    if n == 0 {
      return [Window(0, 0, FULL)];
    }
    ws := [];
    var start := 0;
    for k := 1 to n
      invariant start < k && CutUpTo(ws, breaks, start, k) && Labelled(ws, breaks)
    {
      if k in breaks {
        var w := Window(start, k, if start == 0 then FULL else "after " + breaks[start]);
        CutHere(ws, breaks, start, k, w);
        StartsOnlyBelow(ws + [w], k);
        ws := ws + [w];
        start := k;
      }
    }
    var w := Window(start, n, if start == 0 then FULL else "after " + breaks[start]);
    CutHere(ws, breaks, start, n, w);
    StartsOnlyBelow(ws + [w], n);
    ws := ws + [w];
  }

  /** Inner boundaries lie strictly inside. */
  lemma StartsOnlyBelow(ws: seq<Window>, last: nat)
    requires Tiles(ws, 0, last)
    ensures forall k: nat {:trigger StartsAt(ws, k)} :: StartsAt(ws, k) ==> 0 <= k < last
    ensures |ws| > 1 ==> forall i :: 0 < i < |ws| ==> ws[i].start < last
  {
    forall i | 0 < i < |ws|
      ensures ws[i].start < last
    {
      TilesAscend(ws, 0, last, 0, i);
    }
  }

  // ---------------------------------------------------------------- merging

  /** A break survives when there is enough history before it and enough up to the next break. */
  predicate Survives(w: Window, minSteps: int) {
    w.start >= minSteps && w.Steps() >= minSteps
  }

  /** One of the first n windows begins at k and survives. */
  ghost predicate SurvivesAt(ws: seq<Window>, n: nat, minSteps: int, k: nat)
    requires n <= |ws|
  {
    exists j :: 0 < j < n && ws[j].start == k && Survives(ws[j], minSteps)
  }

  /** Long enough, all of them but perhaps a single one. */
  ghost predicate LongEnough(ws: seq<Window>, minSteps: int) {
    forall i :: 0 <= i < |ws| ==> |ws| == 1 || ws[i].Steps() >= minSteps
  }

  /** merged covers what the first n windows cover, and begins a new window exactly at the surviving breaks. */
  ghost predicate Merges(merged: seq<Window>, ws: seq<Window>, n: nat, minSteps: int)
    requires 0 < n <= |ws|
  {
    && Tiles(merged, 0, ws[n - 1].end) && LongEnough(merged, minSteps)
    && forall k: nat {:trigger StartsAt(merged, k)} :: StartsAt(merged, k) <==> SurvivesAt(ws, n, minSteps, k)
  }

  lemma SurvivesNext(ws: seq<Window>, n: nat, minSteps: int, k: nat)
    requires 0 < n < |ws|
    ensures SurvivesAt(ws, n + 1, minSteps, k) <==>
            SurvivesAt(ws, n, minSteps, k) || (ws[n].start == k && Survives(ws[n], minSteps))
  {
  }

  lemma Extended(merged: seq<Window>, ws: seq<Window>, n: nat, minSteps: int, w: Window)
    requires 0 < n < |ws| && Merges(merged, ws, n, minSteps) && !Survives(ws[n], minSteps)
    requires ws[n - 1].end == ws[n].start < ws[n].end == w.end && w.start == merged[|merged| - 1].start
    ensures Merges(merged[..|merged| - 1] + [w], ws, n + 1, minSteps)
  {
    var after := merged[..|merged| - 1] + [w];
    TilesStretch(merged, 0, ws[n - 1].end, w);
    forall k: nat {:trigger StartsAt(after, k)}
      ensures StartsAt(after, k) <==> SurvivesAt(ws, n + 1, minSteps, k)
    {
      StartsReplace(merged, w, k);
      SurvivesNext(ws, n, minSteps, k);
    }
  }

  lemma Appended(merged: seq<Window>, ws: seq<Window>, n: nat, minSteps: int)
    requires 0 < n < |ws| && Merges(merged, ws, n, minSteps)
    requires ws[n - 1].end == ws[n].start < ws[n].end
    requires ws[n].Steps() >= minSteps && merged[|merged| - 1].Steps() >= minSteps
    ensures Merges(merged + [ws[n]], ws, n + 1, minSteps)
  {
    var after := merged + [ws[n]];
    TilesAppend(merged, 0, ws[n - 1].end, ws[n]);
    TilesEnds(merged, 0, ws[n - 1].end);
    assert ws[n].start >= merged[|merged| - 1].Steps() by {
      if |merged| > 1 {
        TilesAscend(merged, 0, ws[n - 1].end, 0, |merged| - 1);
      }
    }
    forall k: nat {:trigger StartsAt(after, k)}
      ensures StartsAt(after, k) <==> SurvivesAt(ws, n + 1, minSteps, k)
    {
      StartsAppend(merged, ws[n], k);
      SurvivesNext(ws, n, minSteps, k);
    }
  }

  lemma MergedFirst(ws: seq<Window>, minSteps: int)
    requires |ws| > 0 && Tiles(ws, 0, ws[|ws| - 1].end)
    ensures Merges([ws[0]], ws, 1, minSteps)
  {
    TilesEnds(ws, 0, ws[|ws| - 1].end);
    if |ws| > 1 {
      TilesAscend(ws, 0, ws[|ws| - 1].end, 0, 1);
    }
    assert [ws[0]][..0] == [];
  }

  /** What the merging loop relies on between two windows: a short last window is the only one so far. */
  lemma ShortIsOnly(merged: seq<Window>, ws: seq<Window>, n: nat, minSteps: int)
    requires 0 < n < |ws| && Merges(merged, ws, n, minSteps) && Tiles(ws, 0, ws[|ws| - 1].end)
    ensures ws[n - 1].end == ws[n].start < ws[n].end
    ensures merged[|merged| - 1].Steps() < minSteps ==> !Survives(ws[n], minSteps)
  {
    TilesAscend(ws, 0, ws[|ws| - 1].end, n - 1, n);
    TilesEnds(merged, 0, ws[n - 1].end);
  }

  /** Window j is long and begins so early that it is joined to the first merged window. */
  ghost predicate TakenByFirst(ws: seq<Window>, n: nat, minSteps: int, j: nat)
    requires n <= |ws|
  {
    0 < j < n && ws[j].start < minSteps <= ws[j].Steps()
  }

  /**
   A merged window has the reason of the window that begins with it; the first one instead has that of the long
   window it took in while it was short, if there is one.
   */
  ghost predicate Reasons(merged: seq<Window>, ws: seq<Window>, n: nat, minSteps: int)
    requires 0 < n <= |ws| && |merged| > 0
  {
    && (forall i, j :: 0 < i < |merged| && 0 < j < n && merged[i].start == ws[j].start ==> merged[i].reason == ws[j].reason)
    && (forall j: nat :: TakenByFirst(ws, n, minSteps, j) ==> merged[0].reason == ws[j].reason)
    && ((forall j: nat :: !TakenByFirst(ws, n, minSteps, j)) ==> merged[0].reason == ws[0].reason)
  }

  /** Where the windows merged so far begin, seen from the next window. */
  lemma BeginBefore(merged: seq<Window>, ws: seq<Window>, n: nat, minSteps: int)
    requires 0 < n < |ws| && Tiles(ws, 0, ws[|ws| - 1].end) && Merges(merged, ws, n, minSteps)
    ensures ws[n - 1].end == ws[n].start
    ensures forall i :: 0 < i < |merged| ==> merged[i].start < ws[n].start
    ensures forall j :: 0 < j < n ==> ws[j].start < ws[n].start
    ensures forall j :: 0 < j < n ==> ws[j].Steps() <= ws[n].start
    ensures merged[|merged| - 1].Steps() <= ws[n].start
    ensures |merged| == 1 ==> merged[0].Steps() == ws[n].start
  {
    var last := ws[|ws| - 1].end;
    TilesAscend(ws, 0, last, n - 1, n);
    StartsOnlyBelow(merged, ws[n - 1].end);
    TilesEnds(merged, 0, ws[n - 1].end);
    forall j | 0 < j < n
      ensures ws[j].start < ws[n].start && ws[j].Steps() <= ws[n].start
    {
      TilesAscend(ws, 0, last, j, n);
    }
    if |merged| > 1 {
      TilesAscend(merged, 0, ws[n - 1].end, 0, |merged| - 1);
    }
  }

  lemma TakenNext(ws: seq<Window>, n: nat, minSteps: int)
    requires 0 < n < |ws|
    ensures forall j: nat :: TakenByFirst(ws, n + 1, minSteps, j) <==>
              TakenByFirst(ws, n, minSteps, j) || (j == n && ws[n].start < minSteps <= ws[n].Steps())
  {
  }

  lemma ReasonsExtended(merged: seq<Window>, ws: seq<Window>, n: nat, minSteps: int, w: Window)
    requires 0 < n < |ws| && Tiles(ws, 0, ws[|ws| - 1].end)
    requires Merges(merged, ws, n, minSteps) && Reasons(merged, ws, n, minSteps)
    requires w.start == merged[|merged| - 1].start
    requires ws[n].Steps() < minSteps && w.reason == merged[|merged| - 1].reason
    ensures Reasons(merged[..|merged| - 1] + [w], ws, n + 1, minSteps)
  {
    BeginBefore(merged, ws, n, minSteps);
    TakenNext(ws, n, minSteps);
    var after := merged[..|merged| - 1] + [w];
    assert forall i :: 0 <= i < |merged| ==> after[i].start == merged[i].start && after[i].reason == merged[i].reason;
  }

  lemma ReasonsTaken(merged: seq<Window>, ws: seq<Window>, n: nat, minSteps: int, w: Window)
    requires 0 < n < |ws| && Tiles(ws, 0, ws[|ws| - 1].end)
    requires Merges(merged, ws, n, minSteps) && merged[|merged| - 1].Steps() < minSteps <= ws[n].Steps()
    requires w.reason == ws[n].reason
    ensures Reasons(merged[..|merged| - 1] + [w], ws, n + 1, minSteps)
  {
    BeginBefore(merged, ws, n, minSteps);
    TakenNext(ws, n, minSteps);
    assert |merged| == 1;
    assert merged[..0] + [w] == [w];
    assert TakenByFirst(ws, n + 1, minSteps, n);
  }

  lemma ReasonsAppended(merged: seq<Window>, ws: seq<Window>, n: nat, minSteps: int)
    requires 0 < n < |ws| && Tiles(ws, 0, ws[|ws| - 1].end)
    requires Merges(merged, ws, n, minSteps) && Reasons(merged, ws, n, minSteps)
    requires ws[n].Steps() >= minSteps && merged[|merged| - 1].Steps() >= minSteps
    ensures Reasons(merged + [ws[n]], ws, n + 1, minSteps)
  {
    BeginBefore(merged, ws, n, minSteps);
    TakenNext(ws, n, minSteps);
    var after := merged + [ws[n]];
    assert forall i :: 0 <= i < |merged| ==> after[i] == merged[i];
  }

  /** Short windows go into the previous one; a short first window goes into the next. */
  method Merge(ws: seq<Window>, minSteps: int) returns (merged: seq<Window>)
    requires |ws| > 0 && Tiles(ws, 0, ws[|ws| - 1].end)
    ensures Merges(merged, ws, |ws|, minSteps) && Reasons(merged, ws, |ws|, minSteps)
  {
    merged := [];
    for n := 0 to |ws|
      invariant n == 0 ==> merged == []
      invariant n > 0 ==> Merges(merged, ws, n, minSteps) && Reasons(merged, ws, n, minSteps)
    {
      var w := ws[n];
      if n == 0 {
        MergedFirst(ws, minSteps);
      } else {
        ShortIsOnly(merged, ws, n, minSteps);
      }
      if merged != [] && w.Steps() < minSteps {
        var prev := merged[|merged| - 1];
        var longer := Window(prev.start, w.end, prev.reason);
        Extended(merged, ws, n, minSteps, longer);
        ReasonsExtended(merged, ws, n, minSteps, longer);
        merged := merged[..|merged| - 1] + [longer];
      } else if merged == [] && w.Steps() < minSteps && |ws| > 1 {
        merged := [w];
      } else if merged != [] && merged[|merged| - 1].Steps() < minSteps {
        var longer := Window(merged[|merged| - 1].start, w.end, w.reason);
        Extended(merged, ws, n, minSteps, longer);
        ReasonsTaken(merged, ws, n, minSteps, longer);
        merged := merged[..|merged| - 1] + [longer];
      } else {
        if merged != [] {
          Appended(merged, ws, n, minSteps);
          ReasonsAppended(merged, ws, n, minSteps);
        }
        merged := merged + [w];
      }
    }
  }

  // ---------------------------------------------------------------- build_windows

  /** The next break after k, or the end of the history. */
  function NextCut(breaks: map<nat, string>, k: nat, n: nat): (c: nat)
    requires k <= n
    ensures c <= n && (k < n ==> k < c)
    decreases n - k
  {
    if k + 1 >= n then n else if k + 1 in breaks then k + 1 else NextCut(breaks, k + 1, n)
  }

  lemma {:induction false} NextCutIs(breaks: map<nat, string>, k: nat, c: nat, n: nat)
    requires k < c <= n && (c < n ==> c in breaks) && forall b: nat :: k < b < c ==> b !in breaks
    ensures NextCut(breaks, k, n) == c
    decreases n - k
  {
    if k + 1 < c {
      NextCutIs(breaks, k + 1, c, n);
    }
  }

  /** A window of the cut ends at the next break. */
  lemma CutEnds(ws: seq<Window>, breaks: map<nat, string>, n: nat, i: nat)
    requires Tiles(ws, 0, n) && 0 < i < |ws|
    requires forall k: nat {:trigger StartsAt(ws, k)} :: k in breaks <==> StartsAt(ws, k)
    ensures ws[i].start < n && ws[i].end == NextCut(breaks, ws[i].start, n)
  {
    TilesAscend(ws, 0, n, 0, i);
    if i + 1 < |ws| {
      TilesAscend(ws, 0, n, i, i + 1);
      assert StartsAt(ws, ws[i + 1].start);
    }
    forall b: nat | ws[i].start < b < ws[i].end
      ensures b !in breaks
    {
      if StartsAt(ws, b) {
        var j :| 0 < j < |ws| && ws[j].start == b;
        if j < i {
          TilesAscend(ws, 0, n, j, i);
        } else if i < j {
          TilesAscend(ws, 0, n, i, j);
        }
      }
    }
    NextCutIs(breaks, ws[i].start, ws[i].end, n);
  }

  /**
   The windows tile the history; every inner boundary is a break, and a break is kept exactly when at least
   min_steps steps lie before it and before the next break; all windows are that long unless there is only one.
   */
  ghost predicate AreWindows(merged: seq<Window>, breaks: map<nat, string>, n: nat, minSteps: int)
    requires forall k :: k in breaks ==> 0 < k < n
  {
    && Tiles(merged, 0, n)
    && LongEnough(merged, minSteps)
    && forall k: nat {:trigger StartsAt(merged, k)} :: 0 < k < n ==>
         (StartsAt(merged, k) <==> k in breaks && k >= minSteps && NextCut(breaks, k, n) - k >= minSteps)
  }

  lemma MergedAreWindows(ws: seq<Window>, merged: seq<Window>, breaks: map<nat, string>, n: nat, minSteps: int)
    requires forall k :: k in breaks ==> 0 < k < n
    requires Tiles(ws, 0, n) && Merges(merged, ws, |ws|, minSteps)
    requires forall k: nat {:trigger StartsAt(ws, k)} :: k in breaks <==> StartsAt(ws, k)
    ensures AreWindows(merged, breaks, n, minSteps)
  {
    forall k: nat {:trigger StartsAt(merged, k)} | 0 < k < n
      ensures StartsAt(merged, k) <==> k in breaks && k >= minSteps && NextCut(breaks, k, n) - k >= minSteps
    {
      if StartsAt(merged, k) {
        var j :| 0 < j < |ws| && ws[j].start == k && Survives(ws[j], minSteps);
        CutEnds(ws, breaks, n, j);
        assert StartsAt(ws, k);
      }
      if k in breaks && k >= minSteps && NextCut(breaks, k, n) - k >= minSteps {
        assert StartsAt(ws, k);
        var j :| 0 < j < |ws| && ws[j].start == k;
        CutEnds(ws, breaks, n, j);
        assert Survives(ws[j], minSteps);
      }
    }
  }

  /**
   Windows carry the text of the break they begin at; the first one is the full history unless a break before
   min_steps has that many steps up to the next break: then it carries that break's text.
   */
  ghost predicate AreReasons(merged: seq<Window>, breaks: map<nat, string>, n: nat, minSteps: int)
    requires (forall k :: k in breaks ==> 0 < k < n) && |merged| > 0
  {
    && (forall i :: 0 < i < |merged| && merged[i].start in breaks ==> merged[i].reason == "after " + breaks[merged[i].start])
    && (forall k: nat {:trigger NextCut(breaks, k, n)} :: k in breaks && k < minSteps <= NextCut(breaks, k, n) - k ==>
          merged[0].reason == "after " + breaks[k])
    && ((forall k: nat {:trigger NextCut(breaks, k, n)} :: k in breaks ==> !(k < minSteps <= NextCut(breaks, k, n) - k)) ==>
          merged[0].reason == "full history")
  }

  /** The window of the cut that begins at a break ends at the next one and carries its text. */
  lemma CutAt(ws: seq<Window>, breaks: map<nat, string>, n: nat, k: nat) returns (j: nat)
    requires Tiles(ws, 0, n) && Labelled(ws, breaks) && k in breaks
    requires forall k: nat {:trigger StartsAt(ws, k)} :: k in breaks <==> StartsAt(ws, k)
    ensures 0 < j < |ws| && k < n && ws[j].start == k && ws[j].end == NextCut(breaks, k, n)
    ensures ws[j].reason == "after " + breaks[k]
  {
    assert StartsAt(ws, k);
    j :| 0 < j < |ws| && ws[j].start == k;
    CutEnds(ws, breaks, n, j);
  }

  lemma MergedReasons(ws: seq<Window>, merged: seq<Window>, breaks: map<nat, string>, n: nat, minSteps: int)
    requires forall k :: k in breaks ==> 0 < k < n
    requires Tiles(ws, 0, n) && Labelled(ws, breaks) && |merged| > 0 && Reasons(merged, ws, |ws|, minSteps)
    requires forall k: nat {:trigger StartsAt(ws, k)} :: k in breaks <==> StartsAt(ws, k)
    ensures AreReasons(merged, breaks, n, minSteps)
  {
    forall i | 0 < i < |merged| && merged[i].start in breaks
      ensures merged[i].reason == "after " + breaks[merged[i].start]
    {
      var j := CutAt(ws, breaks, n, merged[i].start);
    }
    forall k: nat {:trigger NextCut(breaks, k, n)} | k in breaks && k < minSteps <= NextCut(breaks, k, n) - k
      ensures merged[0].reason == "after " + breaks[k]
    {
      var j := CutAt(ws, breaks, n, k);
      assert TakenByFirst(ws, |ws|, minSteps, j);
    }
    if j: nat :| TakenByFirst(ws, |ws|, minSteps, j) {
      CutEnds(ws, breaks, n, j);
      assert StartsAt(ws, ws[j].start);
    }
  }

  method BuildWindows(dates: seq<int>, events: seq<Event>, kinds: set<string>, minSteps: int) returns (merged: seq<Window>)
    ensures AreWindows(merged, BreaksOf(dates, events, kinds, |events|), |dates|, minSteps)
    ensures AreReasons(merged, BreaksOf(dates, events, kinds, |events|), |dates|, minSteps)
  {
    var breaks := Breaks(dates, events, kinds);
    var ws := Cut(|dates|, breaks);
    merged := Merge(ws, minSteps);
    MergedAreWindows(ws, merged, breaks, |dates|, minSteps);
    MergedReasons(ws, merged, breaks, |dates|, minSteps);
  }
}
