/**
 Sectors (waterflood_app/prep/sectors.py): connected components with wells on both sides, in order of their first
 wells; wells without an edge join the sector of their nearest opposite-role well, when that well is in one.
 The adjacency is any Boolean matrix: how the distance cutoff and the blocks fill it does not matter here.
 */
module Sectors {
  import opened Common
  import opened Components

  datatype Sector = Sector(injectors: seq<nat>, producers: seq<nat>) {
    predicate Has(ni: nat, v: nat) {
      if v < ni then v in injectors else v - ni in producers
    }

    /** The well joins the sector, at the end of its list. */
    function With(ni: nat, v: nat): Sector {
      if v < ni then Sector(injectors + [v], producers) else Sector(injectors, producers + [v - ni])
    }
  }

  // ---------------------------------------------------------------- isolated wells

  /** A well with no edge. */
  ghost predicate Isolated(edges: Edges, ni: nat, np: nat, v: nat)
    requires IsAdjacency(edges, ni, np) && v < ni + np
  {
    forall u: nat :: u < ni + np ==> !Adjacent(edges, ni, np, v, u)
  }

  lemma PathLeaves(edges: Edges, ni: nat, np: nat, s: seq<nat>)
    requires IsAdjacency(edges, ni, np) && IsPath(edges, ni, np, s) && |s| > 1
    ensures !Isolated(edges, ni, np, s[0])
  {
    assert Adjacent(edges, ni, np, s[0], s[1]);
  }

  /** An isolated well is joined to nothing but itself. */
  lemma IsolatedIsAlone(edges: Edges, ni: nat, np: nat, v: nat, u: nat)
    requires IsAdjacency(edges, ni, np) && v < ni + np && u < ni + np
    requires Isolated(edges, ni, np, v) && Joined(edges, ni, np, v, u)
    ensures u == v
  {
    var s :| IsPath(edges, ni, np, s) && s[0] == v && s[|s| - 1] == u;
    if |s| > 1 {
      PathLeaves(edges, ni, np, s);
    }
  }

  function Alone(ni: nat, v: nat): Group {
    if v < ni then Group([v], []) else Group([], [v - ni])
  }

  lemma Member(s: seq<nat>, k: nat)
    requires k < |s|
    ensures s[k] in s
  {
  }

  lemma Rises(s: seq<nat>, a: nat, b: nat)
    requires Ascending(s) && a < b < |s|
    ensures s[a] < s[b]
  {
  }

  lemma AscendingSingle(s: seq<nat>, v: nat)
    requires Ascending(s) && forall u :: u in s <==> u == v
    ensures s == [v]
  {
    assert v in s;
    Member(s, 0);
    if |s| > 1 {
      Member(s, 1);
      Rises(s, 0, 1);
    }
  }

  lemma NothingIn(s: seq<nat>)
    requires forall u :: u !in s
    ensures s == []
  {
    if s != [] {
      Member(s, 0);
    }
  }

  /** The group of an isolated well holds nothing else. */
  lemma IsolatedGroup(comps: seq<Group>, edges: Edges, ni: nat, np: nat, g: nat, v: nat)
    requires IsAdjacency(edges, ni, np) && AreComponents(comps, edges, ni, np) && g < |comps| && v < ni + np
    requires comps[g].Has(ni, v) && Isolated(edges, ni, np, v)
    ensures comps[g] == Alone(ni, v)
  {
    forall u: nat | u < ni + np && comps[g].Has(ni, u)
      ensures u == v
    {
      assert Joined(edges, ni, np, v, u);
      IsolatedIsAlone(edges, ni, np, v, u);
    }
    assert forall u :: u in comps[g].inj ==> comps[g].Has(ni, u);
    assert forall u :: u in comps[g].prod ==> comps[g].Has(ni, ni + u);
    if v < ni {
      AscendingSingle(comps[g].inj, v);
      NothingIn(comps[g].prod);
    } else {
      AscendingSingle(comps[g].prod, v - ni);
      NothingIn(comps[g].inj);
    }
  }

  /** The group of any other well has wells on both sides. */
  lemma ConnectedGroup(comps: seq<Group>, edges: Edges, ni: nat, np: nat, g: nat, v: nat)
    requires IsAdjacency(edges, ni, np) && AreComponents(comps, edges, ni, np) && g < |comps| && v < ni + np
    requires comps[g].Has(ni, v) && !Isolated(edges, ni, np, v)
    ensures comps[g].inj != [] && comps[g].prod != []
  {
    var u: nat :| u < ni + np && Adjacent(edges, ni, np, v, u);
    JoinedByEdge(edges, ni, np, v, u);
    assert IsPlaced(comps, ni, u);
    var h :| 0 <= h < |comps| && comps[h].Has(ni, u);
    assert h == g;
  }

  // ---------------------------------------------------------------- the three kinds of components

  /** The injectors that are the only well of one of the first n components, in that order. */
  function LoneInjectors(comps: seq<Group>, n: nat): (s: seq<nat>)
    requires n <= |comps|
  {
    if n == 0 then []
    else if |comps[n - 1].inj| == 1 && comps[n - 1].prod == [] then LoneInjectors(comps, n - 1) + [comps[n - 1].inj[0]]
    else LoneInjectors(comps, n - 1)
  }

  function LoneProducers(comps: seq<Group>, n: nat): (s: seq<nat>)
    requires n <= |comps|
  {
    if n == 0 then []
    else if |comps[n - 1].prod| == 1 && comps[n - 1].inj == [] then LoneProducers(comps, n - 1) + [comps[n - 1].prod[0]]
    else LoneProducers(comps, n - 1)
  }

  /** Those of the first n components that have wells on both sides. */
  function Real(comps: seq<Group>, n: nat): (s: seq<Group>)
    requires n <= |comps|
  {
    if n == 0 then []
    else if comps[n - 1].inj != [] && comps[n - 1].prod != [] then Real(comps, n - 1) + [comps[n - 1]]
    else Real(comps, n - 1)
  }

  lemma GroupsDiffer(comps: seq<Group>, edges: Edges, ni: nat, np: nat, g: nat, h: nat)
    requires IsAdjacency(edges, ni, np) && AreComponents(comps, edges, ni, np) && g < h < |comps|
    ensures Apart(comps[g], comps[h], ni, np) && comps[g] != comps[h]
  {
    forall v: nat | v < ni + np && comps[g].Has(ni, v)
      ensures !comps[h].Has(ni, v)
    {
      JoinedToItself(edges, ni, np, v);
    }
    assert IsGroup(comps[g], ni, np);
    if comps[g].inj != [] {
      assert comps[g].inj[0] in comps[g].inj;
      assert comps[g].Has(ni, comps[g].inj[0]);
    } else {
      assert comps[g].Has(ni, ni + comps[g].prod[0]);
    }
  }

  /** One of the first n components is the well alone. */
  ghost predicate StandsAlone(comps: seq<Group>, ni: nat, n: nat, v: nat)
    requires n <= |comps|
  {
    exists g :: 0 <= g < n && comps[g] == Alone(ni, v)
  }

  lemma StandsAloneNext(comps: seq<Group>, ni: nat, n: nat, v: nat)
    requires 0 < n <= |comps|
    ensures StandsAlone(comps, ni, n, v) <==> StandsAlone(comps, ni, n - 1, v) || comps[n - 1] == Alone(ni, v)
  {
  }

  lemma NotAloneBefore(comps: seq<Group>, edges: Edges, ni: nat, np: nat, n: nat, v: nat)
    requires IsAdjacency(edges, ni, np) && AreComponents(comps, edges, ni, np) && 0 < n <= |comps| && comps[n - 1] == Alone(ni, v)
    ensures !StandsAlone(comps, ni, n - 1, v)
  {
    if g :| 0 <= g < n - 1 && comps[g] == Alone(ni, v) {
      GroupsDiffer(comps, edges, ni, np, g, n - 1);
    }
  }

  lemma AppendDistinct(s: seq<nat>, v: nat)
    requires Distinct(s) && v !in s
    ensures Distinct(s + [v])
  {
    forall a, b | 0 <= a < b < |s| + 1
      ensures (s + [v])[a] != (s + [v])[b]
    {
      if b == |s| {
        assert s[a] in s;
      }
    }
  }

  lemma OneOf(s: seq<nat>, v: nat)
    requires |s| == 1 && s[0] == v
    ensures s == [v] && v in s
  {
  }

  /** The isolated injectors are the injectors that are alone in their component. */
  lemma {:induction false} LoneInjectorsAre(comps: seq<Group>, edges: Edges, ni: nat, np: nat, n: nat)
    requires IsAdjacency(edges, ni, np) && AreComponents(comps, edges, ni, np) && n <= |comps|
    ensures forall a :: 0 <= a < |LoneInjectors(comps, n)| ==> LoneInjectors(comps, n)[a] < ni
    ensures Distinct(LoneInjectors(comps, n))
    ensures forall v: nat :: v < ni ==> (v in LoneInjectors(comps, n) <==> StandsAlone(comps, ni, n, v))
  {
    if n > 0 {
      LoneInjectorsAre(comps, edges, ni, np, n - 1);
      var was, s, c := LoneInjectors(comps, n - 1), LoneInjectors(comps, n), comps[n - 1];
      assert IsGroup(c, ni, np);
      if |c.inj| == 1 && c.prod == [] {
        OneOf(c.inj, c.inj[0]);
        NotAloneBefore(comps, edges, ni, np, n, c.inj[0]);
        assert c.inj[0] !in was;
        AppendDistinct(was, c.inj[0]);
      }
      forall v: nat | v < ni
        ensures v in s <==> StandsAlone(comps, ni, n, v)
      {
        StandsAloneNext(comps, ni, n, v);
      }
    }
  }

  lemma {:induction false} LoneProducersAre(comps: seq<Group>, edges: Edges, ni: nat, np: nat, n: nat)
    requires IsAdjacency(edges, ni, np) && AreComponents(comps, edges, ni, np) && n <= |comps|
    ensures forall a :: 0 <= a < |LoneProducers(comps, n)| ==> LoneProducers(comps, n)[a] < np
    ensures Distinct(LoneProducers(comps, n))
    ensures forall v: nat :: v < np ==> (v in LoneProducers(comps, n) <==> StandsAlone(comps, ni, n, ni + v))
  {
    if n > 0 {
      LoneProducersAre(comps, edges, ni, np, n - 1);
      var was, s, c := LoneProducers(comps, n - 1), LoneProducers(comps, n), comps[n - 1];
      assert IsGroup(c, ni, np);
      if |c.prod| == 1 && c.inj == [] {
        OneOf(c.prod, c.prod[0]);
        NotAloneBefore(comps, edges, ni, np, n, ni + c.prod[0]);
        assert c.prod[0] !in was;
        AppendDistinct(was, c.prod[0]);
      }
      forall v: nat | v < np
        ensures v in s <==> StandsAlone(comps, ni, n, ni + v)
      {
        StandsAloneNext(comps, ni, n, ni + v);
      }
    }
  }

  /** No well is in both groups. */
  ghost predicate Apart(a: Group, b: Group, ni: nat, np: nat) {
    forall v: nat :: v < ni + np && a.Has(ni, v) ==> !b.Has(ni, v)
  }

  ghost predicate AllApart(s: seq<Group>, ni: nat, np: nat) {
    forall a, b :: 0 <= a < b < |s| ==> Apart(s[a], s[b], ni, np)
  }

  /** Exactly the components with wells on both sides, pairwise apart. */
  lemma {:induction false} RealAre(comps: seq<Group>, edges: Edges, ni: nat, np: nat, n: nat)
    requires IsAdjacency(edges, ni, np) && AreComponents(comps, edges, ni, np) && n <= |comps|
    ensures AllApart(Real(comps, n), ni, np)
    ensures forall c :: c in Real(comps, n) <==> c in comps[..n] && c.inj != [] && c.prod != []
  {
    if n > 0 {
      RealAre(comps, edges, ni, np, n - 1);
      var s, c := Real(comps, n - 1), comps[n - 1];
      assert comps[..n] == comps[..n - 1] + [c];
      forall a | 0 <= a < |s|
        ensures Apart(s[a], c, ni, np)
      {
        assert s[a] in s;
        var g :| 0 <= g < n - 1 && comps[g] == s[a];
        GroupsDiffer(comps, edges, ni, np, g, n - 1);
      }
    }
  }

  // ---------------------------------------------------------------- the order of the sectors

  function MinOf(s: seq<nat>): (m: nat)
    requires s != []
    ensures m in s && forall k :: k in s ==> m <= k
  {
    if |s| == 1 then s[0]
    else
      assert s == [s[0]] + s[1..];
      if s[0] <= MinOf(s[1..]) then s[0] else MinOf(s[1..])
  }

  ghost predicate BothSides(s: seq<Group>) {
    forall a :: 0 <= a < |s| ==> s[a].inj != [] && s[a].prod != []
  }

  /** By smallest injector, then by smallest producer. */
  predicate Before(a: Group, b: Group)
    requires a.inj != [] && a.prod != [] && b.inj != [] && b.prod != []
  {
    MinOf(a.inj) < MinOf(b.inj) || (MinOf(a.inj) == MinOf(b.inj) && MinOf(a.prod) <= MinOf(b.prod))
  }

  function InsertGroup(x: Group, s: seq<Group>): (r: seq<Group>)
    requires BothSides(s) && x.inj != [] && x.prod != []
    ensures BothSides(r) && |r| == |s| + 1
    ensures forall c :: c in r <==> c == x || c in s
  {
    if s == [] || Before(x, s[0]) then [x] + s
    else
      assert s == [s[0]] + s[1..];
      [s[0]] + InsertGroup(x, s[1..])
  }

  function SortGroups(s: seq<Group>): (r: seq<Group>)
    requires BothSides(s)
    ensures BothSides(r) && |r| == |s|
    ensures forall c :: c in r <==> c in s
  {
    if s == [] then []
    else
      assert s == [s[0]] + s[1..];
      InsertGroup(s[0], SortGroups(s[1..]))
  }

  lemma {:induction false} InsertApart(x: Group, s: seq<Group>, ni: nat, np: nat)
    requires BothSides(s) && x.inj != [] && x.prod != [] && AllApart(s, ni, np)
    requires forall c :: c in s ==> Apart(x, c, ni, np)
    ensures AllApart(InsertGroup(x, s), ni, np)
  {
    if s != [] && !Before(x, s[0]) {
      InsertApart(x, s[1..], ni, np);
      var rest := InsertGroup(x, s[1..]);
      forall b | 0 <= b < |rest|
        ensures Apart(s[0], rest[b], ni, np)
      {
        assert rest[b] in rest;
        if rest[b] != x {
          var a :| 0 <= a < |s[1..]| && s[1..][a] == rest[b];
        } else {
          assert Apart(x, s[0], ni, np);
        }
      }
    }
  }

  lemma {:induction false} SortApart(s: seq<Group>, ni: nat, np: nat)
    requires BothSides(s) && AllApart(s, ni, np)
    ensures AllApart(SortGroups(s), ni, np)
  {
    if s != [] {
      SortApart(s[1..], ni, np);
      forall c | c in SortGroups(s[1..])
        ensures Apart(s[0], c, ni, np)
      {
        assert c in s[1..];
        var a :| 0 <= a < |s[1..]| && s[1..][a] == c;
        assert Apart(s[0], s[a + 1], ni, np);
      }
      InsertApart(s[0], SortGroups(s[1..]), ni, np);
    }
  }

  ghost predicate InOrder(s: seq<Group>)
    requires BothSides(s)
  {
    forall a, b :: 0 <= a < b < |s| ==> Before(s[a], s[b])
  }

  lemma {:induction false} InsertInOrder(x: Group, s: seq<Group>)
    requires BothSides(s) && x.inj != [] && x.prod != [] && InOrder(s)
    ensures InOrder(InsertGroup(x, s))
  {
    if s != [] && !Before(x, s[0]) {
      InsertInOrder(x, s[1..]);
      var rest := InsertGroup(x, s[1..]);
      forall b | 0 <= b < |rest|
        ensures Before(s[0], rest[b])
      {
        assert rest[b] in rest;
        if rest[b] != x {
          var a :| 0 <= a < |s[1..]| && s[1..][a] == rest[b];
        }
      }
    }
  }

  /** Sectors are numbered by their first injector, then their first producer. */
  lemma {:induction false} SortInOrder(s: seq<Group>)
    requires BothSides(s)
    ensures InOrder(SortGroups(s))
  {
    if s != [] {
      SortInOrder(s[1..]);
      InsertInOrder(s[0], SortGroups(s[1..]));
    }
  }

  // ---------------------------------------------------------------- sectors

  ghost predicate Placed(sectors: seq<Sector>, ni: nat, v: nat) {
    exists s :: 0 <= s < |sectors| && sectors[s].Has(ni, v)
  }

  ghost predicate Within(s: Sector, ni: nat, np: nat) {
    && (forall v :: v in s.injectors ==> v < ni) && (forall v :: v in s.producers ==> v < np)
    && Distinct(s.injectors) && Distinct(s.producers)
  }

  /** No well is in two sectors, or twice in one. */
  ghost predicate Disjoint(sectors: seq<Sector>, ni: nat, np: nat) {
    && (forall s :: 0 <= s < |sectors| ==> Within(sectors[s], ni, np))
    && forall s, t, v: nat :: 0 <= s < |sectors| && 0 <= t < |sectors| ==>
         sectors[s].Has(ni, v) && sectors[t].Has(ni, v) ==> s == t
  }

  function SectorsOf(s: seq<Group>): (r: seq<Sector>)
    ensures |r| == |s|
    ensures forall k :: 0 <= k < |s| ==> r[k] == Sector(s[k].inj, s[k].prod)
  {
    seq(|s|, k requires 0 <= k < |s| => Sector(s[k].inj, s[k].prod))
  }

  /** Wells with edges share a sector exactly when a path of edges joins them. */
  ghost predicate SplitByPaths(sectors: seq<Sector>, edges: Edges, ni: nat, np: nat)
    requires IsAdjacency(edges, ni, np)
  {
    forall u: nat, v: nat, s :: u < ni + np && v < ni + np && 0 <= s < |sectors| ==>
      sectors[s].Has(ni, u) && !Isolated(edges, ni, np, u) && !Isolated(edges, ni, np, v) ==>
      (sectors[s].Has(ni, v) <==> Joined(edges, ni, np, u, v))
  }

  /** Both lists begin with the smallest well that has an edge. */
  ghost predicate Led(s: Sector, edges: Edges, ni: nat, np: nat)
    requires IsAdjacency(edges, ni, np)
  {
    && s.injectors != [] && s.injectors[0] < ni && !Isolated(edges, ni, np, s.injectors[0])
    && (forall i :: i in s.injectors && i < ni && !Isolated(edges, ni, np, i) ==> s.injectors[0] <= i)
    && s.producers != [] && s.producers[0] < np && !Isolated(edges, ni, np, ni + s.producers[0])
    && forall j :: j in s.producers && j < np && !Isolated(edges, ni, np, ni + j) ==> s.producers[0] <= j
  }

  /** Sectors are numbered by their first injectors. */
  ghost predicate Numbered(sectors: seq<Sector>, edges: Edges, ni: nat, np: nat)
    requires IsAdjacency(edges, ni, np)
  {
    && (forall s :: 0 <= s < |sectors| ==> Led(sectors[s], edges, ni, np))
    && forall s, t :: 0 <= s < t < |sectors| ==> sectors[s].injectors[0] < sectors[t].injectors[0]
  }

  /** One sector for each component with an edge, in order. */
  ghost predicate HoldsComponents(sectors: seq<Sector>, edges: Edges, ni: nat, np: nat)
    requires IsAdjacency(edges, ni, np)
  {
    Disjoint(sectors, ni, np) && SplitByPaths(sectors, edges, ni, np) && Numbered(sectors, edges, ni, np)
  }

  ghost predicate FromComponents(sectors: seq<Sector>, edges: Edges, ni: nat, np: nat)
    requires IsAdjacency(edges, ni, np)
  {
    && HoldsComponents(sectors, edges, ni, np)
    && forall v: nat {:trigger Placed(sectors, ni, v)} :: v < ni + np ==> (Placed(sectors, ni, v) <==> !Isolated(edges, ni, np, v))
  }

  lemma ApartAt(s: seq<Group>, ni: nat, np: nat, a: nat, b: nat, v: nat)
    requires AllApart(s, ni, np) && a < |s| && b < |s| && a != b && v < ni + np && s[a].Has(ni, v)
    ensures !s[b].Has(ni, v)
  {
    if a < b {
      assert Apart(s[a], s[b], ni, np);
    } else {
      assert Apart(s[b], s[a], ni, np);
    }
  }

  lemma {:induction false} MinOfAscending(s: seq<nat>)
    requires s != [] && Ascending(s)
    ensures MinOf(s) == s[0]
  {
    if |s| > 1 {
      MinOfAscending(s[1..]);
      Rises(s, 0, 1);
    }
  }

  lemma RealDisjoint(comps: seq<Group>, sorted: seq<Group>, edges: Edges, ni: nat, np: nat)
    requires IsAdjacency(edges, ni, np) && AreComponents(comps, edges, ni, np) && AllApart(sorted, ni, np)
    requires forall c :: c in sorted ==> c in comps
    ensures Disjoint(SectorsOf(sorted), ni, np)
  {
    var sectors := SectorsOf(sorted);
    forall s | 0 <= s < |sectors|
      ensures Within(sectors[s], ni, np)
    {
      assert sorted[s] in sorted;
      var g :| 0 <= g < |comps| && comps[g] == sorted[s];
      assert IsGroup(comps[g], ni, np);
    }
    forall s: nat, t: nat, v: nat | s < |sectors| && t < |sectors| && s != t && sectors[s].Has(ni, v)
      ensures !sectors[t].Has(ni, v)
    {
      assert Within(sectors[s], ni, np) && v < ni + np;
      assert sorted[s].Has(ni, v);
      ApartAt(sorted, ni, np, s, t, v);
    }
  }

  lemma RealSplit(comps: seq<Group>, sorted: seq<Group>, edges: Edges, ni: nat, np: nat)
    requires IsAdjacency(edges, ni, np) && AreComponents(comps, edges, ni, np)
    requires forall c :: c in sorted ==> c in comps
    ensures SplitByPaths(SectorsOf(sorted), edges, ni, np)
  {
    var sectors := SectorsOf(sorted);
    forall u: nat, v: nat, s | u < ni + np && v < ni + np && 0 <= s < |sectors| && sectors[s].Has(ni, u)
      ensures sectors[s].Has(ni, v) <==> Joined(edges, ni, np, u, v)
    {
      assert sorted[s] in sorted && sorted[s].Has(ni, u);
      var g :| 0 <= g < |comps| && comps[g] == sorted[s];
      assert IsPlaced(comps, ni, v);
      var h :| 0 <= h < |comps| && comps[h].Has(ni, v);
      assert sectors[s].Has(ni, v) <==> comps[g].Has(ni, v);
    }
  }

  lemma RealNumbered(comps: seq<Group>, sorted: seq<Group>, edges: Edges, ni: nat, np: nat)
    requires IsAdjacency(edges, ni, np) && AreComponents(comps, edges, ni, np)
    requires AllApart(sorted, ni, np) && BothSides(sorted) && InOrder(sorted)
    requires forall c :: c in sorted ==> c in comps
    ensures Numbered(SectorsOf(sorted), edges, ni, np)
  {
    var sectors := SectorsOf(sorted);
    forall s | 0 <= s < |sectors|
      ensures Led(sectors[s], edges, ni, np) && MinOf(sorted[s].inj) == sorted[s].inj[0] < ni
    {
      assert sorted[s] in sorted;
      var g :| 0 <= g < |comps| && comps[g] == sorted[s];
      assert IsGroup(comps[g], ni, np);
      HeadIsLed(comps, edges, ni, np, g);
      MinOfAscending(sorted[s].inj);
    }
    forall s, t | 0 <= s < t < |sectors|
      ensures sectors[s].injectors[0] < sectors[t].injectors[0]
    {
      assert Before(sorted[s], sorted[t]);
      assert sorted[s].Has(ni, sorted[s].inj[0]) && sorted[t].Has(ni, sorted[t].inj[0]);
      assert Apart(sorted[s], sorted[t], ni, np);
    }
  }

  lemma HeadIsLed(comps: seq<Group>, edges: Edges, ni: nat, np: nat, g: nat)
    requires IsAdjacency(edges, ni, np) && AreComponents(comps, edges, ni, np) && g < |comps|
    requires comps[g].inj != [] && comps[g].prod != []
    ensures Led(Sector(comps[g].inj, comps[g].prod), edges, ni, np)
  {
    var c := comps[g];
    assert IsGroup(c, ni, np) && c.inj[0] in c.inj && c.prod[0] in c.prod;
    assert c.Has(ni, c.inj[0]) && c.Has(ni, ni + c.prod[0]);
    if Isolated(edges, ni, np, c.inj[0]) {
      IsolatedGroup(comps, edges, ni, np, g, c.inj[0]);
    }
    if Isolated(edges, ni, np, ni + c.prod[0]) {
      IsolatedGroup(comps, edges, ni, np, g, ni + c.prod[0]);
    }
    HeadIsLeast(c.inj);
    HeadIsLeast(c.prod);
  }

  lemma HeadIsLeast(s: seq<nat>)
    requires s != [] && Ascending(s)
    ensures forall i :: i in s ==> s[0] <= i
  {
    forall i | i in s
      ensures s[0] <= i
    {
      var a :| 0 <= a < |s| && s[a] == i;
      if a > 0 {
        Rises(s, 0, a);
      }
    }
  }

  lemma RealSectors(comps: seq<Group>, sorted: seq<Group>, edges: Edges, ni: nat, np: nat)
    requires IsAdjacency(edges, ni, np) && AreComponents(comps, edges, ni, np)
    requires AllApart(sorted, ni, np) && BothSides(sorted) && InOrder(sorted)
    requires forall c :: c in sorted <==> c in comps && c.inj != [] && c.prod != []
    ensures FromComponents(SectorsOf(sorted), edges, ni, np)
  {
    RealDisjoint(comps, sorted, edges, ni, np);
    RealSplit(comps, sorted, edges, ni, np);
    RealNumbered(comps, sorted, edges, ni, np);
    forall v: nat {:trigger Placed(SectorsOf(sorted), ni, v)} | v < ni + np
      ensures Placed(SectorsOf(sorted), ni, v) <==> !Isolated(edges, ni, np, v)
    {
      RealPlaces(comps, sorted, edges, ni, np, v);
    }
  }

  lemma RealPlaces(comps: seq<Group>, sorted: seq<Group>, edges: Edges, ni: nat, np: nat, v: nat)
    requires IsAdjacency(edges, ni, np) && AreComponents(comps, edges, ni, np) && v < ni + np
    requires forall c :: c in sorted <==> c in comps && c.inj != [] && c.prod != []
    ensures Placed(SectorsOf(sorted), ni, v) <==> !Isolated(edges, ni, np, v)
  {
    var sectors := SectorsOf(sorted);
    assert IsPlaced(comps, ni, v);
    var g :| 0 <= g < |comps| && comps[g].Has(ni, v);
    if Isolated(edges, ni, np, v) {
      if Placed(sectors, ni, v) {
        var s :| 0 <= s < |sectors| && sectors[s].Has(ni, v);
        assert sorted[s] in sorted && sorted[s].Has(ni, v);
        var h :| 0 <= h < |comps| && comps[h] == sorted[s];
        IsolatedGroup(comps, edges, ni, np, h, v);
      }
    } else {
      ConnectedGroup(comps, edges, ni, np, g, v);
      assert comps[g] in sorted;
      var s :| 0 <= s < |sorted| && sorted[s] == comps[g];
      assert sectors[s].Has(ni, v);
    }
  }

  // ---------------------------------------------------------------- nearest wells

  /** First position of the smallest of the first n values. */
  function Argmin(v: Vec, n: nat): (k: nat)
    requires 0 < n <= |v|
    ensures k < n
  {
    if n == 1 then 0
    else
      var k := Argmin(v, n - 1);
      if v[n - 1] < v[k] then n - 1 else k
  }

  lemma {:induction false} ArgminIsFirstSmallest(v: Vec, n: nat)
    requires 0 < n <= |v|
    ensures forall i :: 0 <= i < n ==> v[Argmin(v, n)] <= v[i]
    ensures forall i :: 0 <= i < Argmin(v, n) ==> v[Argmin(v, n)] < v[i]
  {
    if n > 1 {
      ArgminIsFirstSmallest(v, n - 1);
    }
  }

  /** The nearest well of the opposite role, as a vertex. */
  function Nearest(d: Matrix, ni: nat, np: nat, v: nat): (u: nat)
    requires Shape(d, ni, np) && 0 < ni && 0 < np && v < ni + np
    ensures if v < ni then ni <= u < ni + np else u < ni
  {
    if v < ni then ni + Argmin(d[v], np) else Argmin(Column(d, v - ni), ni)
  }

  /** No opposite well is nearer, and none before it in order is as near. */
  lemma NearestIsNearest(d: Matrix, ni: nat, np: nat, v: nat)
    requires Shape(d, ni, np) && 0 < ni && 0 < np && v < ni + np
    ensures var u := Nearest(d, ni, np, v);
            if v < ni then
              && ni <= u < ni + np
              && (forall j :: 0 <= j < np ==> d[v][u - ni] <= d[v][j])
              && (forall j :: 0 <= j < u - ni ==> d[v][u - ni] < d[v][j])
            else
              && u < ni
              && (forall i :: 0 <= i < ni ==> d[u][v - ni] <= d[i][v - ni])
              && (forall i :: 0 <= i < u ==> d[u][v - ni] < d[i][v - ni])
  {
    if v < ni {
      ArgminIsFirstSmallest(d[v], np);
    } else {
      var c := Column(d, v - ni);
      ArgminIsFirstSmallest(c, ni);
      assert forall i :: 0 <= i < ni ==> c[i] == d[i][v - ni];
    }
  }

  // ---------------------------------------------------------------- joining isolated wells

  /** The first sector that has the well, or the number of sectors. */
  method Holding(sectors: seq<Sector>, ni: nat, u: nat) returns (s: nat)
    ensures s <= |sectors|
    ensures s < |sectors| ==> sectors[s].Has(ni, u)
    ensures s == |sectors| ==> !Placed(sectors, ni, u)
  {
    s := 0;
    while s < |sectors| && !sectors[s].Has(ni, u)
      invariant s <= |sectors| && forall t :: 0 <= t < s ==> !sectors[t].Has(ni, u)
    {
      s := s + 1;
    }
  }

  /** The sectors after v, in none of them, joined sector s. */
  ghost predicate Added(sectors: seq<Sector>, after: seq<Sector>, ni: nat, s: nat, v: nat) {
    && |after| == |sectors|
    && forall t, u: nat :: 0 <= t < |after| ==> (after[t].Has(ni, u) <==> sectors[t].Has(ni, u) || (t == s && u == v))
  }

  lemma AddedPlaces(sectors: seq<Sector>, after: seq<Sector>, ni: nat, s: nat, v: nat)
    requires Added(sectors, after, ni, s, v) && s < |sectors|
    ensures forall u: nat {:trigger Placed(after, ni, u)} :: Placed(after, ni, u) <==> Placed(sectors, ni, u) || u == v
  {
    forall u: nat {:trigger Placed(after, ni, u)}
      ensures Placed(after, ni, u) <==> Placed(sectors, ni, u) || u == v
    {
      if Placed(sectors, ni, u) {
        var t :| 0 <= t < |sectors| && sectors[t].Has(ni, u);
        assert after[t].Has(ni, u);
      }
      assert after[s].Has(ni, v);
    }
  }

  /** Isolated wells at the ends of the lists disturb no component. */
  lemma GainsIsolated(sectors: seq<Sector>, after: seq<Sector>, edges: Edges, ni: nat, np: nat)
    requires IsAdjacency(edges, ni, np) && HoldsComponents(sectors, edges, ni, np)
    requires |after| == |sectors| && Disjoint(after, ni, np)
    requires forall t :: 0 <= t < |after| ==>
      sectors[t].injectors <= after[t].injectors && sectors[t].producers <= after[t].producers
    requires forall t, u: nat :: 0 <= t < |after| && u < ni + np && !Isolated(edges, ni, np, u) ==>
      (after[t].Has(ni, u) <==> sectors[t].Has(ni, u))
    ensures HoldsComponents(after, edges, ni, np)
  {
    forall t | 0 <= t < |after|
      ensures Led(after[t], edges, ni, np) && after[t].injectors[0] == sectors[t].injectors[0]
    {
      StillLed(sectors[t], after[t], edges, ni, np);
    }
  }

  lemma StillLed(s: Sector, after: Sector, edges: Edges, ni: nat, np: nat)
    requires IsAdjacency(edges, ni, np) && Led(s, edges, ni, np)
    requires s.injectors <= after.injectors && s.producers <= after.producers
    requires forall u: nat :: u < ni + np && !Isolated(edges, ni, np, u) ==> (after.Has(ni, u) <==> s.Has(ni, u))
    ensures Led(after, edges, ni, np) && after.injectors[0] == s.injectors[0]
  {
    assert after.injectors[0] == s.injectors[0];
    forall i | i in after.injectors && i < ni && !Isolated(edges, ni, np, i)
      ensures s.injectors[0] <= i
    {
      assert after.Has(ni, i);
    }
    assert after.producers[0] == s.producers[0];
    forall j | j in after.producers && j < np && !Isolated(edges, ni, np, ni + j)
      ensures s.producers[0] <= j
    {
      assert after.Has(ni, ni + j);
    }
  }

  lemma Joins(sectors: seq<Sector>, edges: Edges, ni: nat, np: nat, s: nat, v: nat)
    requires IsAdjacency(edges, ni, np) && HoldsComponents(sectors, edges, ni, np)
    requires s < |sectors| && v < ni + np && !Placed(sectors, ni, v) && Isolated(edges, ni, np, v)
    ensures var after := sectors[s := sectors[s].With(ni, v)];
            HoldsComponents(after, edges, ni, np) && Added(sectors, after, ni, s, v)
  {
    var after := sectors[s := sectors[s].With(ni, v)];
    assert !sectors[s].Has(ni, v);
    forall t, u: nat | 0 <= t < |after|
      ensures after[t].Has(ni, u) <==> sectors[t].Has(ni, u) || (t == s && u == v)
    {
    }
    assert Disjoint(after, ni, np);
    GainsIsolated(sectors, after, edges, ni, np);
  }

  /** Every isolated well that is in a sector is there with its nearest well. */
  ghost predicate WithNearest(sectors: seq<Sector>, edges: Edges, ni: nat, np: nat, d: Matrix)
    requires IsAdjacency(edges, ni, np) && Shape(d, ni, np) && 0 < ni && 0 < np
  {
    forall s, v: nat {:trigger sectors[s].Has(ni, v)} :: 0 <= s < |sectors| && v < ni + np ==>
      sectors[s].Has(ni, v) && Isolated(edges, ni, np, v) ==> sectors[s].Has(ni, Nearest(d, ni, np, v))
  }

  lemma JoinsNearest(
      sectors: seq<Sector>, after: seq<Sector>, edges: Edges, ni: nat, np: nat, d: Matrix, s: nat, v: nat)
    requires IsAdjacency(edges, ni, np) && Shape(d, ni, np) && 0 < ni && 0 < np
    requires s < |sectors| && v < ni + np && Added(sectors, after, ni, s, v)
    requires WithNearest(sectors, edges, ni, np, d) && sectors[s].Has(ni, Nearest(d, ni, np, v))
    ensures WithNearest(after, edges, ni, np, d)
  {
    forall t, u: nat | 0 <= t < |after| && u < ni + np && after[t].Has(ni, u) && Isolated(edges, ni, np, u)
      ensures after[t].Has(ni, Nearest(d, ni, np, u))
    {
      if !sectors[t].Has(ni, u) {
        assert t == s && u == v;
      }
      assert sectors[t].Has(ni, Nearest(d, ni, np, u));
    }
  }

  /** Where v ends up: in a sector if it was in one, or if it has been handled and its nearest well was in one. */
  ghost predicate Joining(
      was: seq<Sector>, sectors: seq<Sector>, ni: nat, np: nat, lone: seq<nat>, lo: nat, n: nat, d: Matrix)
    requires Shape(d, ni, np) && 0 < ni && 0 < np && n <= |lone| && forall a :: 0 <= a < |lone| ==> lo + lone[a] < ni + np
  {
    forall v: nat {:trigger Placed(sectors, ni, v)} :: v < ni + np ==>
      (Placed(sectors, ni, v) <==>
       Placed(was, ni, v) || exists a :: 0 <= a < n && lo + lone[a] == v && Placed(was, ni, Nearest(d, ni, np, v)))
  }

  lemma JoiningStep(
      was: seq<Sector>, joined: seq<Sector>, after: seq<Sector>, ni: nat, np: nat, lone: seq<nat>, lo: nat, n: nat, d: Matrix)
    requires Shape(d, ni, np) && 0 < ni && 0 < np && n < |lone| && forall a :: 0 <= a < |lone| ==> lo + lone[a] < ni + np
    requires Joining(was, joined, ni, np, lone, lo, n, d)
    requires forall u: nat {:trigger Placed(after, ni, u)} :: u < ni + np ==>
      (Placed(after, ni, u) <==>
       Placed(joined, ni, u) || (u == lo + lone[n] && Placed(was, ni, Nearest(d, ni, np, u))))
    ensures Joining(was, after, ni, np, lone, lo, n + 1, d)
  {
    forall u: nat {:trigger Placed(after, ni, u)} | u < ni + np
      ensures Placed(after, ni, u) <==>
        Placed(was, ni, u) || exists a :: 0 <= a < n + 1 && lo + lone[a] == u && Placed(was, ni, Nearest(d, ni, np, u))
    {
      assert Placed(joined, ni, u) <==>
        Placed(was, ni, u) || exists a :: 0 <= a < n && lo + lone[a] == u && Placed(was, ni, Nearest(d, ni, np, u));
    }
  }

  /** Neither the well in turn nor its nearest well has been handled in this pass. */
  lemma Unmoved(
      was: seq<Sector>, joined: seq<Sector>, ni: nat, np: nat, lone: seq<nat>, lo: nat, n: nat, d: Matrix)
    requires Shape(d, ni, np) && 0 < ni && 0 < np && n < |lone| && (lo == 0 || lo == ni)
    requires Distinct(lone) && forall a :: 0 <= a < |lone| ==> lone[a] < (if lo == 0 then ni else np)
    requires Joining(was, joined, ni, np, lone, lo, n, d)
    ensures var v := lo + lone[n];
            && (Placed(joined, ni, v) <==> Placed(was, ni, v))
            && (Placed(joined, ni, Nearest(d, ni, np, v)) <==> Placed(was, ni, Nearest(d, ni, np, v)))
  {
    var v := lo + lone[n];
    var u := Nearest(d, ni, np, v);
    forall a | 0 <= a < n
      ensures lo + lone[a] != v && lo + lone[a] != u
    {
    }
  }

  lemma JoinStep(
      was: seq<Sector>, joined: seq<Sector>, edges: Edges, ni: nat, np: nat, lone: seq<nat>, lo: nat, n: nat, d: Matrix,
      s: nat)
    requires IsAdjacency(edges, ni, np) && HoldsComponents(joined, edges, ni, np)
    requires Shape(d, ni, np) && 0 < ni && 0 < np && n < |lone| && (lo == 0 || lo == ni)
    requires Distinct(lone) && forall a :: 0 <= a < |lone| ==> lone[a] < (if lo == 0 then ni else np)
    requires Isolated(edges, ni, np, lo + lone[n]) && !Placed(was, ni, lo + lone[n])
    requires Joining(was, joined, ni, np, lone, lo, n, d) && WithNearest(joined, edges, ni, np, d)
    requires s < |joined| && joined[s].Has(ni, Nearest(d, ni, np, lo + lone[n]))
    ensures var after := joined[s := joined[s].With(ni, lo + lone[n])];
            && HoldsComponents(after, edges, ni, np) && WithNearest(after, edges, ni, np, d)
            && Joining(was, after, ni, np, lone, lo, n + 1, d)
  {
    var v := lo + lone[n];
    var after := joined[s := joined[s].With(ni, v)];
    Unmoved(was, joined, ni, np, lone, lo, n, d);
    assert Placed(joined, ni, Nearest(d, ni, np, v));
    Joins(joined, edges, ni, np, s, v);
    AddedPlaces(joined, after, ni, s, v);
    JoinsNearest(joined, after, edges, ni, np, d, s, v);
    JoiningStep(was, joined, after, ni, np, lone, lo, n, d);
  }

  /** One pass: every isolated well of one side joins the sector of its nearest opposite well, if that is in one. */
  method JoinNearest(sectors: seq<Sector>, edges: Edges, ni: nat, np: nat, lone: seq<nat>, lo: nat, d: Matrix)
    returns (joined: seq<Sector>)
    requires IsAdjacency(edges, ni, np) && HoldsComponents(sectors, edges, ni, np)
    requires Shape(d, ni, np) && 0 < ni && 0 < np && (lo == 0 || lo == ni)
    requires Distinct(lone) && forall a :: 0 <= a < |lone| ==> lone[a] < (if lo == 0 then ni else np)
    requires forall a :: 0 <= a < |lone| ==> Isolated(edges, ni, np, lo + lone[a]) && !Placed(sectors, ni, lo + lone[a])
    requires WithNearest(sectors, edges, ni, np, d)
    ensures |joined| == |sectors| && HoldsComponents(joined, edges, ni, np)
    ensures Joining(sectors, joined, ni, np, lone, lo, |lone|, d)
    ensures WithNearest(joined, edges, ni, np, d)
  {
    joined := sectors;
    for n := 0 to |lone|
      invariant |joined| == |sectors| && HoldsComponents(joined, edges, ni, np)
      invariant Joining(sectors, joined, ni, np, lone, lo, n, d)
      invariant WithNearest(joined, edges, ni, np, d)
    {
      var v := lo + lone[n];
      var u := Nearest(d, ni, np, v);
      var s := Holding(joined, ni, u);
      if s < |joined| {
        JoinStep(sectors, joined, edges, ni, np, lone, lo, n, d, s);
        joined := joined[s := joined[s].With(ni, v)];
      } else {
        Unmoved(sectors, joined, ni, np, lone, lo, n, d);
        JoiningStep(sectors, joined, joined, ni, np, lone, lo, n, d);
      }
    }
  }

  // ---------------------------------------------------------------- sectorize

  /** There is an edge at all. */
  ghost predicate HasEdge(edges: Edges, ni: nat, np: nat)
    requires IsAdjacency(edges, ni, np)
  {
    exists v: nat :: v < ni + np && !Isolated(edges, ni, np, v)
  }

  /**
   The wells that end up in no sector: with coordinates and at least one edge, an isolated injector whose nearest
   producer is isolated too, and an isolated producer whose nearest injector is such an injector.
   */
  ghost predicate LeftOut(edges: Edges, ni: nat, np: nat, d: Option<Matrix>, v: nat)
    requires IsAdjacency(edges, ni, np) && v < ni + np && (d.Some? ==> Shape(d.value, ni, np))
  {
    && 0 < ni && 0 < np && HasEdge(edges, ni, np) && d.Some? && Isolated(edges, ni, np, v)
    && var u := Nearest(d.value, ni, np, v);
       && Isolated(edges, ni, np, u)
       && (ni <= v ==> Isolated(edges, ni, np, Nearest(d.value, ni, np, u)))
  }

  /** Where isolated wells are: with their nearest well, or in the first sector when there are no coordinates. */
  ghost predicate IsolatedJoin(sectors: seq<Sector>, edges: Edges, ni: nat, np: nat, d: Option<Matrix>)
    requires IsAdjacency(edges, ni, np) && (d.Some? ==> Shape(d.value, ni, np)) && 0 < ni && 0 < np
  {
    match d
    case Some(dist) => WithNearest(sectors, edges, ni, np, dist)
    case None => forall s, v: nat :: 0 <= s < |sectors| && v < ni + np ==>
      sectors[s].Has(ni, v) && Isolated(edges, ni, np, v) ==> s == 0
  }

  /**
   What sectorize promises: no well twice, every well somewhere but the ones LeftOut names, and, when there is an
   edge, one sector for each component with an edge, in order of first injectors, joined by isolated wells.
   */
  ghost predicate IsSectorization(sectors: seq<Sector>, edges: Edges, ni: nat, np: nat, d: Option<Matrix>)
    requires IsAdjacency(edges, ni, np) && (d.Some? ==> Shape(d.value, ni, np))
  {
    && |sectors| > 0 && Disjoint(sectors, ni, np)
    && (forall v: nat {:trigger Placed(sectors, ni, v)} :: v < ni + np ==>
         (Placed(sectors, ni, v) <==> !LeftOut(edges, ni, np, d, v)))
    && if 0 < ni && 0 < np && HasEdge(edges, ni, np)
       then HoldsComponents(sectors, edges, ni, np) && IsolatedJoin(sectors, edges, ni, np, d)
       else |sectors| == 1
  }

  function Upto(n: nat): (s: seq<nat>)
    ensures |s| == n && forall k :: 0 <= k < n ==> s[k] == k
  {
    seq(n, k requires 0 <= k < n => k)
  }

  lemma SingleSector(edges: Edges, ni: nat, np: nat, d: Option<Matrix>)
    requires IsAdjacency(edges, ni, np) && (d.Some? ==> Shape(d.value, ni, np))
    requires ni == 0 || np == 0 || !HasEdge(edges, ni, np)
    ensures IsSectorization([Sector(Upto(ni), Upto(np))], edges, ni, np, d)
  {
    var sectors := [Sector(Upto(ni), Upto(np))];
    forall v: nat | v < ni + np
      ensures sectors[0].Has(ni, v)
    {
      assert if v < ni then Upto(ni)[v] == v else Upto(np)[v - ni] == v - ni;
    }
    forall v: nat {:trigger Placed(sectors, ni, v)} | v < ni + np
      ensures Placed(sectors, ni, v)
    {
      assert sectors[0].Has(ni, v);
    }
  }

  lemma EdgeMakesReal(comps: seq<Group>, edges: Edges, ni: nat, np: nat, v: nat)
    requires IsAdjacency(edges, ni, np) && AreComponents(comps, edges, ni, np) && v < ni + np
    requires !Isolated(edges, ni, np, v)
    ensures Real(comps, |comps|) != []
  {
    RealAre(comps, edges, ni, np, |comps|);
    assert comps[..|comps|] == comps;
    assert IsPlaced(comps, ni, v);
    var g :| 0 <= g < |comps| && comps[g].Has(ni, v);
    ConnectedGroup(comps, edges, ni, np, g, v);
    assert comps[g] in Real(comps, |comps|);
  }

  lemma RealHasEdge(comps: seq<Group>, edges: Edges, ni: nat, np: nat, g: nat)
    requires IsAdjacency(edges, ni, np) && AreComponents(comps, edges, ni, np) && g < |comps|
    requires comps[g].inj != [] && comps[g].prod != []
    ensures HasEdge(edges, ni, np)
  {
    var v := comps[g].inj[0];
    assert IsGroup(comps[g], ni, np) && v in comps[g].inj;
    assert comps[g].Has(ni, v);
    if Isolated(edges, ni, np, v) {
      IsolatedGroup(comps, edges, ni, np, g, v);
    }
  }

  lemma NoRealNoEdge(comps: seq<Group>, edges: Edges, ni: nat, np: nat)
    requires IsAdjacency(edges, ni, np) && AreComponents(comps, edges, ni, np)
    ensures Real(comps, |comps|) == [] <==> !HasEdge(edges, ni, np)
  {
    var whole := Real(comps, |comps|);
    if v: nat :| v < ni + np && !Isolated(edges, ni, np, v) {
      EdgeMakesReal(comps, edges, ni, np, v);
    }
    if whole != [] {
      RealAre(comps, edges, ni, np, |comps|);
      assert whole[0] in whole;
      var g :| 0 <= g < |comps| && comps[g] == whole[0];
      RealHasEdge(comps, edges, ni, np, g);
    }
  }

  /** A well is alone in its component exactly when it has no edge. */
  lemma AloneIffIsolated(comps: seq<Group>, edges: Edges, ni: nat, np: nat, v: nat)
    requires IsAdjacency(edges, ni, np) && AreComponents(comps, edges, ni, np) && v < ni + np
    ensures StandsAlone(comps, ni, |comps|, v) <==> Isolated(edges, ni, np, v)
  {
    assert IsPlaced(comps, ni, v);
    var g :| 0 <= g < |comps| && comps[g].Has(ni, v);
    if Isolated(edges, ni, np, v) {
      IsolatedGroup(comps, edges, ni, np, g, v);
    } else if h :| 0 <= h < |comps| && comps[h] == Alone(ni, v) {
      assert comps[h].Has(ni, v);
      ConnectedGroup(comps, edges, ni, np, h, v);
    }
  }

  /** The lists of isolated injectors and producers, each once. */
  ghost predicate AreLone(li: seq<nat>, lp: seq<nat>, edges: Edges, ni: nat, np: nat)
    requires IsAdjacency(edges, ni, np)
  {
    && Distinct(li) && (forall a :: 0 <= a < |li| ==> li[a] < ni)
    && Distinct(lp) && (forall a :: 0 <= a < |lp| ==> lp[a] < np)
    && (forall v: nat :: v < ni ==> (v in li <==> Isolated(edges, ni, np, v)))
    && (forall v: nat :: v < np ==> (v in lp <==> Isolated(edges, ni, np, ni + v)))
  }

  lemma LoneIff(li: seq<nat>, lp: seq<nat>, edges: Edges, ni: nat, np: nat, v: nat)
    requires IsAdjacency(edges, ni, np) && AreLone(li, lp, edges, ni, np) && v < ni + np
    ensures (if v < ni then v in li else v - ni in lp) <==> Isolated(edges, ni, np, v)
  {
    assert v >= ni ==> (v - ni in lp <==> Isolated(edges, ni, np, ni + (v - ni)));
  }

  /** The lists of isolated wells hold each of them once. */
  lemma LoneWells(comps: seq<Group>, edges: Edges, ni: nat, np: nat)
    requires IsAdjacency(edges, ni, np) && AreComponents(comps, edges, ni, np)
    ensures AreLone(LoneInjectors(comps, |comps|), LoneProducers(comps, |comps|), edges, ni, np)
  {
    LoneInjectorsAre(comps, edges, ni, np, |comps|);
    LoneProducersAre(comps, edges, ni, np, |comps|);
    forall v: nat | v < ni + np
      ensures StandsAlone(comps, ni, |comps|, v) <==> Isolated(edges, ni, np, v)
    {
      AloneIffIsolated(comps, edges, ni, np, v);
    }
  }

  /** After both passes the wells in no sector are the ones LeftOut names. */
  lemma JoinedAll(
      first: seq<Sector>, second: seq<Sector>, last: seq<Sector>, edges: Edges, ni: nat, np: nat,
      li: seq<nat>, lp: seq<nat>, d: Matrix, v: nat)
    requires IsAdjacency(edges, ni, np) && Shape(d, ni, np) && 0 < ni && 0 < np && HasEdge(edges, ni, np) && v < ni + np
    requires FromComponents(first, edges, ni, np) && AreLone(li, lp, edges, ni, np)
    requires Joining(first, second, ni, np, li, 0, |li|, d) && Joining(second, last, ni, np, lp, ni, |lp|, d)
    ensures Placed(last, ni, v) <==> !LeftOut(edges, ni, np, Some(d), v)
  {
    LoneIff(li, lp, edges, ni, np, v);
    assert Placed(last, ni, v) <==>
      (Placed(second, ni, v) || exists a :: 0 <= a < |lp| && ni + lp[a] == v && Placed(second, ni, Nearest(d, ni, np, v)));
    if v < ni {
      AfterInjectors(first, second, edges, ni, np, li, lp, d, v);
    } else {
      var u := Nearest(d, ni, np, v);
      AfterInjectors(first, second, edges, ni, np, li, lp, d, u);
      assert Placed(second, ni, v) <==> Placed(first, ni, v);
      assert Placed(first, ni, v) <==> !Isolated(edges, ni, np, v);
    }
  }

  lemma AfterInjectors(
      first: seq<Sector>, second: seq<Sector>, edges: Edges, ni: nat, np: nat, li: seq<nat>, lp: seq<nat>, d: Matrix, v: nat)
    requires IsAdjacency(edges, ni, np) && Shape(d, ni, np) && 0 < np && HasEdge(edges, ni, np) && v < ni
    requires FromComponents(first, edges, ni, np) && AreLone(li, lp, edges, ni, np)
    requires Joining(first, second, ni, np, li, 0, |li|, d)
    ensures Placed(second, ni, v) <==> !LeftOut(edges, ni, np, Some(d), v)
  {
    assert Placed(second, ni, v) <==>
      (Placed(first, ni, v) || exists a :: 0 <= a < |li| && 0 + li[a] == v && Placed(first, ni, Nearest(d, ni, np, v)));
    assert Placed(first, ni, Nearest(d, ni, np, v)) <==> !Isolated(edges, ni, np, Nearest(d, ni, np, v));
    assert v in li <==> Isolated(edges, ni, np, v);
    assert Placed(first, ni, v) <==> !Isolated(edges, ni, np, v);
  }

  lemma DistinctAppend(s: seq<nat>, t: seq<nat>)
    requires Distinct(s) && Distinct(t) && forall v :: v in t ==> v !in s
    ensures Distinct(s + t)
  {
    forall a, b | 0 <= a < b < |s + t|
      ensures (s + t)[a] != (s + t)[b]
    {
      if a < |s| <= b {
        assert t[b - |s|] in t;
      }
    }
  }

  function FirstExtended(sectors: seq<Sector>, li: seq<nat>, lp: seq<nat>): (after: seq<Sector>)
    requires |sectors| > 0
    ensures |after| == |sectors|
  {
    sectors[0 := Sector(sectors[0].injectors + li, sectors[0].producers + lp)]
  }

  lemma ExtendedHas(sectors: seq<Sector>, li: seq<nat>, lp: seq<nat>, ni: nat)
    requires |sectors| > 0
    ensures var after := FirstExtended(sectors, li, lp);
            forall t, v: nat {:trigger after[t].Has(ni, v)} :: 0 <= t < |sectors| ==>
              (after[t].Has(ni, v) <==> sectors[t].Has(ni, v) || (t == 0 && if v < ni then v in li else v - ni in lp))
  {
    var after := FirstExtended(sectors, li, lp);
    forall t, v: nat {:trigger after[t].Has(ni, v)} | 0 <= t < |sectors|
      ensures after[t].Has(ni, v) <==> sectors[t].Has(ni, v) || (t == 0 && if v < ni then v in li else v - ni in lp)
    {
      if t == 0 {
        assert after[0] == Sector(sectors[0].injectors + li, sectors[0].producers + lp);
      }
    }
  }

  lemma ExtendedWithin(s: Sector, li: seq<nat>, lp: seq<nat>, edges: Edges, ni: nat, np: nat)
    requires IsAdjacency(edges, ni, np) && Within(s, ni, np) && AreLone(li, lp, edges, ni, np)
    requires forall v: nat :: v < ni + np && Isolated(edges, ni, np, v) ==> !s.Has(ni, v)
    ensures Within(Sector(s.injectors + li, s.producers + lp), ni, np)
  {
    forall v | v in li
      ensures v !in s.injectors
    {
      assert v < ni;
      assert !s.Has(ni, v);
    }
    forall v | v in lp
      ensures v !in s.producers
    {
      assert v < np;
      assert !s.Has(ni, ni + v);
    }
    DistinctAppend(s.injectors, li);
    DistinctAppend(s.producers, lp);
  }

  lemma ExtendedHolds(sectors: seq<Sector>, edges: Edges, ni: nat, np: nat, li: seq<nat>, lp: seq<nat>)
    requires IsAdjacency(edges, ni, np) && |sectors| > 0
    requires FromComponents(sectors, edges, ni, np) && AreLone(li, lp, edges, ni, np)
    ensures HoldsComponents(FirstExtended(sectors, li, lp), edges, ni, np)
  {
    var after := FirstExtended(sectors, li, lp);
    ExtendedHas(sectors, li, lp, ni);
    forall v: nat, t | v < ni + np && Isolated(edges, ni, np, v) && 0 <= t < |sectors|
      ensures !sectors[t].Has(ni, v)
    {
      assert !Placed(sectors, ni, v);
    }
    assert Within(sectors[0], ni, np);
    ExtendedWithin(sectors[0], li, lp, edges, ni, np);
    forall t | 0 <= t < |after|
      ensures Within(after[t], ni, np)
    {
      assert Within(sectors[t], ni, np);
    }
    forall s: nat, t: nat, v: nat | s < |after| && t < |after| && after[s].Has(ni, v) && after[t].Has(ni, v)
      ensures s == t
    {
      assert Within(after[s], ni, np) && v < ni + np;
      LoneIff(li, lp, edges, ni, np, v);
    }
    forall t, u: nat | 0 <= t < |after| && u < ni + np && !Isolated(edges, ni, np, u)
      ensures after[t].Has(ni, u) <==> sectors[t].Has(ni, u)
    {
      LoneIff(li, lp, edges, ni, np, u);
    }
    GainsIsolated(sectors, after, edges, ni, np);
  }

  /** Without coordinates all isolated wells join the first sector. */
  lemma JoinFirst(sectors: seq<Sector>, edges: Edges, ni: nat, np: nat, li: seq<nat>, lp: seq<nat>)
    requires IsAdjacency(edges, ni, np) && |sectors| > 0 && 0 < ni && 0 < np && HasEdge(edges, ni, np)
    requires FromComponents(sectors, edges, ni, np) && AreLone(li, lp, edges, ni, np)
    ensures IsSectorization(FirstExtended(sectors, li, lp), edges, ni, np, None)
  {
    var after := FirstExtended(sectors, li, lp);
    ExtendedHas(sectors, li, lp, ni);
    ExtendedHolds(sectors, edges, ni, np, li, lp);
    forall v: nat {:trigger Placed(after, ni, v)} | v < ni + np
      ensures Placed(after, ni, v)
    {
      if Isolated(edges, ni, np, v) {
        LoneIff(li, lp, edges, ni, np, v);
        assert after[0].Has(ni, v);
      } else {
        assert Placed(sectors, ni, v);
        var t :| 0 <= t < |sectors| && sectors[t].Has(ni, v);
        assert after[t].Has(ni, v);
      }
    }
    forall s, v: nat | 0 <= s < |after| && v < ni + np && after[s].Has(ni, v) && Isolated(edges, ni, np, v)
      ensures s == 0
    {
      assert !Placed(sectors, ni, v);
    }
  }

  /** The two passes over the isolated wells. */
  method JoinBoth(first: seq<Sector>, edges: Edges, ni: nat, np: nat, li: seq<nat>, lp: seq<nat>, d: Matrix)
    returns (sectors: seq<Sector>)
    requires IsAdjacency(edges, ni, np) && Shape(d, ni, np) && 0 < ni && 0 < np && HasEdge(edges, ni, np)
    requires |first| > 0 && FromComponents(first, edges, ni, np) && AreLone(li, lp, edges, ni, np)
    ensures IsSectorization(sectors, edges, ni, np, Some(d))
  {
    forall s, v: nat | 0 <= s < |first| && v < ni + np && first[s].Has(ni, v)
      ensures !Isolated(edges, ni, np, v)
    {
      assert Placed(first, ni, v);
    }
    forall a | 0 <= a < |li|
      ensures Isolated(edges, ni, np, li[a]) && !Placed(first, ni, li[a])
    {
      assert li[a] in li;
    }
    var second := JoinNearest(first, edges, ni, np, li, 0, d);
    forall a | 0 <= a < |lp|
      ensures Isolated(edges, ni, np, ni + lp[a]) && !Placed(second, ni, ni + lp[a])
    {
      assert lp[a] in lp;
      assert Placed(second, ni, ni + lp[a]) <==> Placed(first, ni, ni + lp[a]);
    }
    sectors := JoinNearest(second, edges, ni, np, lp, ni, d);
    forall v: nat {:trigger Placed(sectors, ni, v)} | v < ni + np
      ensures Placed(sectors, ni, v) <==> !LeftOut(edges, ni, np, Some(d), v)
    {
      JoinedAll(first, second, sectors, edges, ni, np, li, lp, d, v);
    }
  }

  /** The components with an edge, in order, as sectors. */
  lemma StartingSectors(comps: seq<Group>, edges: Edges, ni: nat, np: nat)
    requires IsAdjacency(edges, ni, np) && AreComponents(comps, edges, ni, np)
    ensures var whole := Real(comps, |comps|);
            BothSides(whole) && FromComponents(SectorsOf(SortGroups(whole)), edges, ni, np)
  {
    var whole := Real(comps, |comps|);
    RealAre(comps, edges, ni, np, |comps|);
    assert comps[..|comps|] == comps;
    assert forall a :: 0 <= a < |whole| ==> whole[a] in whole;
    SortApart(whole, ni, np);
    SortInOrder(whole);
    RealSectors(comps, SortGroups(whole), edges, ni, np);
  }

  method Sectorize(ni: nat, np: nat, edges: Edges, d: Option<Matrix>) returns (sectors: seq<Sector>)
    requires IsAdjacency(edges, ni, np) && (d.Some? ==> Shape(d.value, ni, np))
    ensures IsSectorization(sectors, edges, ni, np, d)
  {
    if ni == 0 || np == 0 {
      SingleSector(edges, ni, np, d);
      return [Sector(Upto(ni), Upto(np))];
    }
    var comps := ConnectedComponents(ni, np, edges);
    var whole := Real(comps, |comps|);
    NoRealNoEdge(comps, edges, ni, np);
    if whole == [] {
      SingleSector(edges, ni, np, d);
      return [Sector(Upto(ni), Upto(np))];
    }
    StartingSectors(comps, edges, ni, np);
    sectors := SectorsOf(SortGroups(whole));
    var li, lp := LoneInjectors(comps, |comps|), LoneProducers(comps, |comps|);
    LoneWells(comps, edges, ni, np);
    if d.Some? {
      sectors := JoinBoth(sectors, edges, ni, np, li, lp, d.value);
    } else {
      JoinFirst(sectors, edges, ni, np, li, lp);
      sectors := FirstExtended(sectors, li, lp);
    }
  }

  /** The two ends of every edge are in one sector. */
  lemma KeepsEdges(sectors: seq<Sector>, edges: Edges, ni: nat, np: nat, d: Option<Matrix>, u: nat, v: nat)
    requires IsAdjacency(edges, ni, np) && (d.Some? ==> Shape(d.value, ni, np))
    requires IsSectorization(sectors, edges, ni, np, d) && u < ni + np && v < ni + np && Adjacent(edges, ni, np, u, v)
    ensures exists s :: 0 <= s < |sectors| && sectors[s].Has(ni, u) && sectors[s].Has(ni, v)
  {
    assert Adjacent(edges, ni, np, v, u);
    assert !Isolated(edges, ni, np, u) && !Isolated(edges, ni, np, v);
    JoinedByEdge(edges, ni, np, u, v);
    assert Placed(sectors, ni, u);
    var s :| 0 <= s < |sectors| && sectors[s].Has(ni, u);
    assert sectors[s].Has(ni, v);
  }

  /** A producer is in no sector exactly when it is isolated and its nearest injector is in none. */
  lemma ProducerLeftOutIff(sectors: seq<Sector>, edges: Edges, ni: nat, np: nat, d: Matrix, j: nat)
    requires IsAdjacency(edges, ni, np) && Shape(d, ni, np) && 0 < ni && j < np && HasEdge(edges, ni, np)
    requires IsSectorization(sectors, edges, ni, np, Some(d))
    ensures !Placed(sectors, ni, ni + j)
            <==> Isolated(edges, ni, np, ni + j) && !Placed(sectors, ni, Nearest(d, ni, np, ni + j))
  {
    var i := Nearest(d, ni, np, ni + j);
    assert Placed(sectors, ni, i) <==> !LeftOut(edges, ni, np, Some(d), i);
  }

  /** Every well is in a sector exactly when no isolated injector has an isolated nearest producer. */
  lemma AllPlacedIff(sectors: seq<Sector>, edges: Edges, ni: nat, np: nat, d: Matrix)
    requires IsAdjacency(edges, ni, np) && Shape(d, ni, np) && 0 < ni && 0 < np && HasEdge(edges, ni, np)
    requires IsSectorization(sectors, edges, ni, np, Some(d))
    ensures (forall v: nat {:trigger Placed(sectors, ni, v)} :: v < ni + np ==> Placed(sectors, ni, v)) <==>
            (forall i: nat {:trigger Nearest(d, ni, np, i)} ::
               i < ni && Isolated(edges, ni, np, i) ==> !Isolated(edges, ni, np, Nearest(d, ni, np, i)))
  {
    if forall v: nat {:trigger Placed(sectors, ni, v)} :: v < ni + np ==> Placed(sectors, ni, v) {
      forall i: nat {:trigger Nearest(d, ni, np, i)} | i < ni && Isolated(edges, ni, np, i)
        ensures !Isolated(edges, ni, np, Nearest(d, ni, np, i))
      {
        assert Placed(sectors, ni, i);
      }
    } else {
      var v: nat :| v < ni + np && !Placed(sectors, ni, v);
      assert LeftOut(edges, ni, np, Some(d), v);
      var i := if v < ni then v else Nearest(d, ni, np, v);
      assert LeftOut(edges, ni, np, Some(d), i);
      assert Isolated(edges, ni, np, Nearest(d, ni, np, i));
    }
  }

  /**
   An injector can be left out although its nearest producer is in a sector: that producer is isolated and finds
   a sector only after the injectors have been handled.
   */
  lemma LeftOutNextToPlaced(sectors: seq<Sector>)
    requires IsSectorization(sectors, [[true, false], [false, false]], 2, 2, Some([[1.0, 4.0], [10.0, 5.0]]))
    ensures Nearest([[1.0, 4.0], [10.0, 5.0]], 2, 2, 1) == 3
    ensures !Placed(sectors, 2, 1) && Placed(sectors, 2, 3)
  {
    var edges: Edges, d := [[true, false], [false, false]], [[1.0, 4.0], [10.0, 5.0]];
    assert Adjacent(edges, 2, 2, 0, 2);
    assert !Isolated(edges, 2, 2, 0);
    assert Isolated(edges, 2, 2, 1) && Isolated(edges, 2, 2, 3);
    assert Argmin(d[1], 1) == 0 && Argmin(d[1], 2) == 1;
    assert Column(d, 1) == [4.0, 5.0];
    assert Argmin([4.0, 5.0], 1) == 0 && Argmin([4.0, 5.0], 2) == 0;
    assert Nearest(d, 2, 2, 1) == 3 && Nearest(d, 2, 2, 3) == 0;
    assert LeftOut(edges, 2, 2, Some(d), 1) && !LeftOut(edges, 2, 2, Some(d), 3);
  }
}
