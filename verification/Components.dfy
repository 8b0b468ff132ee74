/**
 Connected components of the injector-producer graph (waterflood_app/prep/sectors.py): union-find with path
 halving over one parent array, then wells grouped by root in order of first appearance.
 Wells are numbered injectors first: injector i is vertex i, producer j is vertex ni + j.
 */
module Components {
  type Edges = seq<seq<bool>>

  ghost predicate IsAdjacency(edges: Edges, ni: nat, np: nat) {
    |edges| == ni && forall i :: 0 <= i < ni ==> |edges[i]| == np
  }

  // ---------------------------------------------------------------- paths

  predicate Adjacent(edges: Edges, ni: nat, np: nat, u: nat, v: nat)
    requires IsAdjacency(edges, ni, np) && u < ni + np && v < ni + np
  {
    (u < ni <= v && edges[u][v - ni]) || (v < ni <= u && edges[v][u - ni])
  }

  ghost predicate IsPath(edges: Edges, ni: nat, np: nat, s: seq<nat>)
    requires IsAdjacency(edges, ni, np)
  {
    && |s| > 0 && (forall r :: 0 <= r < |s| ==> s[r] < ni + np)
    && forall r :: 0 < r < |s| ==> Adjacent(edges, ni, np, s[r - 1], s[r])
  }

  /** A path of edges leads from u to v. */
  ghost predicate Joined(edges: Edges, ni: nat, np: nat, u: nat, v: nat)
    requires IsAdjacency(edges, ni, np)
  {
    exists s :: IsPath(edges, ni, np, s) && s[0] == u && s[|s| - 1] == v
  }

  lemma JoinedToItself(edges: Edges, ni: nat, np: nat, u: nat)
    requires IsAdjacency(edges, ni, np) && u < ni + np
    ensures Joined(edges, ni, np, u, u)
  {
    assert IsPath(edges, ni, np, [u]);
  }

  lemma JoinedByEdge(edges: Edges, ni: nat, np: nat, u: nat, v: nat)
    requires IsAdjacency(edges, ni, np) && u < ni + np && v < ni + np && Adjacent(edges, ni, np, u, v)
    ensures Joined(edges, ni, np, u, v)
  {
    assert IsPath(edges, ni, np, [u, v]);
  }

  lemma {:induction false} Reversed(edges: Edges, ni: nat, np: nat, s: seq<nat>)
    requires IsAdjacency(edges, ni, np) && IsPath(edges, ni, np, s)
    ensures Joined(edges, ni, np, s[|s| - 1], s[0])
  {
    var t := seq(|s|, r requires 0 <= r < |s| => s[|s| - 1 - r]);
    assert IsPath(edges, ni, np, t);
  }

  lemma JoinedSymmetric(edges: Edges, ni: nat, np: nat, u: nat, v: nat)
    requires IsAdjacency(edges, ni, np) && Joined(edges, ni, np, u, v)
    ensures Joined(edges, ni, np, v, u)
  {
    var s :| IsPath(edges, ni, np, s) && s[0] == u && s[|s| - 1] == v;
    Reversed(edges, ni, np, s);
  }

  lemma JoinedTransitive(edges: Edges, ni: nat, np: nat, u: nat, v: nat, w: nat)
    requires IsAdjacency(edges, ni, np) && Joined(edges, ni, np, u, v) && Joined(edges, ni, np, v, w)
    ensures Joined(edges, ni, np, u, w)
  {
    var s :| IsPath(edges, ni, np, s) && s[0] == u && s[|s| - 1] == v;
    var t :| IsPath(edges, ni, np, t) && t[0] == v && t[|t| - 1] == w;
    var both := s + t[1..];
    assert IsPath(edges, ni, np, both);
  }

  // ---------------------------------------------------------------- the forest

  /**
   Vertex v of a forest: its parent has the same root, its root is its own parent, and rank strictly grows along
   the parent link within bound, which is why chasing parents ends.
   */
  ghost predicate Node(parent: seq<nat>, root: seq<nat>, rank: seq<nat>, bound: nat, v: nat)
    requires v < |parent| == |root| == |rank|
  {
    && parent[v] < |parent| && root[v] < |parent| && rank[v] <= bound
    && root[parent[v]] == root[v] && parent[root[v]] == root[v]
    && (if parent[v] == v then root[v] == v else rank[v] < rank[parent[v]])
  }

  /** parent is a forest whose root function is root. */
  ghost predicate Forest(parent: seq<nat>, root: seq<nat>, rank: seq<nat>, bound: nat) {
    && |parent| == |root| == |rank|
    && forall v {:trigger Node(parent, root, rank, bound, v)} :: 0 <= v < |parent| ==> Node(parent, root, rank, bound, v)
  }

  /** The root of a, halving the path on the way; the root of every vertex stays what it was. */
  method Find(parent: array<nat>, a: nat, ghost root: seq<nat>, ghost rank: seq<nat>, ghost bound: nat) returns (r: nat)
    requires Forest(parent[..], root, rank, bound) && a < parent.Length
    modifies parent
    ensures Forest(parent[..], root, rank, bound)
    ensures r == root[a] < parent.Length && root[r] == r
  {
    r := a;
    assert Node(parent[..], root, rank, bound, a);
    while parent[r] != r
      invariant Forest(parent[..], root, rank, bound)
      invariant r < parent.Length && root[r] == root[a] && Node(parent[..], root, rank, bound, r)
      decreases bound - rank[r]
    {
      ghost var was := parent[..];
      Halved(was, root, rank, bound, r);
      parent[r] := parent[parent[r]];
      assert parent[..] == was[r := was[was[r]]];
      r := parent[r];
    }
  }

  /** Pointing a vertex at its grandparent keeps the forest and its roots. */
  lemma Halved(parent: seq<nat>, root: seq<nat>, rank: seq<nat>, bound: nat, r: nat)
    requires Forest(parent, root, rank, bound) && r < |parent| && parent[r] != r
    ensures parent[r] < |parent| && parent[parent[r]] < |parent|
    ensures Forest(parent[r := parent[parent[r]]], root, rank, bound)
    ensures rank[r] < rank[parent[parent[r]]] <= bound && root[parent[parent[r]]] == root[r]
    ensures Node(parent[r := parent[parent[r]]], root, rank, bound, parent[parent[r]])
  {
    assert Node(parent, root, rank, bound, r);
    var q := parent[r];
    assert Node(parent, root, rank, bound, q);
    var g := parent[q];
    assert Node(parent, root, rank, bound, g);
    var p := parent[r := g];
    forall v: nat {:trigger Node(p, root, rank, bound, v)} | v < |p|
      ensures Node(p, root, rank, bound, v)
    {
      assert Node(parent, root, rank, bound, v);
      assert Node(parent, root, rank, bound, root[v]);
    }
    assert Node(p, root, rank, bound, g);
  }

  function Merged(root: seq<nat>, a: nat, b: nat): (r: seq<nat>)
    ensures |r| == |root|
    ensures forall v :: 0 <= v < |root| ==> r[v] == if root[v] == a then b else root[v]
  {
    seq(|root|, v requires 0 <= v < |root| => if root[v] == a then b else root[v])
  }

  function Lifted(root: seq<nat>, rank: seq<nat>, b: nat, gain: nat): (r: seq<nat>)
    requires |root| == |rank|
    ensures |r| == |root|
    ensures forall v :: 0 <= v < |root| ==> r[v] == if root[v] == b then rank[v] + gain else rank[v]
  {
    seq(|root|, v requires 0 <= v < |root| => if root[v] == b then rank[v] + gain else rank[v])
  }

  lemma UnitedNode(parent: seq<nat>, root: seq<nat>, rank: seq<nat>, bound: nat, a: nat, b: nat, v: nat)
    requires Forest(parent, root, rank, bound) && a < |parent| && b < |parent| && a != b && v < |parent|
    requires root[a] == a && root[b] == b
    ensures Node(parent[a := b], Merged(root, a, b), Lifted(root, rank, b, rank[a] + 1), bound + rank[a] + 1, v)
  {
    assert Node(parent, root, rank, bound, v);
    assert Node(parent, root, rank, bound, a);
    assert Node(parent, root, rank, bound, b);
  }

  /** Hanging one root under another merges their trees. */
  lemma United(parent: seq<nat>, root: seq<nat>, rank: seq<nat>, bound: nat, a: nat, b: nat)
    requires Forest(parent, root, rank, bound) && a < |parent| && b < |parent| && a != b
    requires root[a] == a && root[b] == b
    ensures Forest(parent[a := b], Merged(root, a, b), Lifted(root, rank, b, rank[a] + 1), bound + rank[a] + 1)
  {
    var p, r, k := parent[a := b], Merged(root, a, b), Lifted(root, rank, b, rank[a] + 1);
    forall v: nat {:trigger Node(p, r, k, bound + rank[a] + 1, v)} | v < |p|
      ensures Node(p, r, k, bound + rank[a] + 1, v)
    {
      UnitedNode(parent, root, rank, bound, a, b, v);
    }
  }

  // ---------------------------------------------------------------- the union loops

  /** Vertices with one root are joined; every edge handled so far has its ends under one root. */
  ghost predicate Sound(edges: Edges, ni: nat, np: nat, root: seq<nat>)
    requires IsAdjacency(edges, ni, np)
  {
    && |root| == ni + np
    && forall u, v :: 0 <= u < ni + np && 0 <= v < ni + np && root[u] == root[v] ==> Joined(edges, ni, np, u, v)
  }

  ghost predicate Handled(edges: Edges, ni: nat, np: nat, root: seq<nat>, i: nat, j: nat)
    requires IsAdjacency(edges, ni, np) && |root| == ni + np
  {
    forall a, b :: 0 <= a < ni && 0 <= b < np && (a < i || (a == i && b < j)) && edges[a][b] ==> root[a] == root[ni + b]
  }

  lemma MergeIsSound(edges: Edges, ni: nat, np: nat, root: seq<nat>, a: nat, b: nat, i: nat, j: nat)
    requires IsAdjacency(edges, ni, np) && Sound(edges, ni, np, root)
    requires i < ni && j < np && edges[i][j] && a == root[i] && b == root[ni + j]
    ensures Sound(edges, ni, np, Merged(root, a, b))
  {
    var r := Merged(root, a, b);
    JoinedByEdge(edges, ni, np, i, ni + j);
    forall u, v | 0 <= u < ni + np && 0 <= v < ni + np && r[u] == r[v]
      ensures Joined(edges, ni, np, u, v)
    {
      if root[u] != root[v] {
        var x, y := if root[u] == a then u else v, if root[u] == a then v else u;
        assert Joined(edges, ni, np, x, i) && Joined(edges, ni, np, ni + j, y);
        JoinedTransitive(edges, ni, np, x, i, ni + j);
        JoinedTransitive(edges, ni, np, x, ni + j, y);
        if x == v {
          JoinedSymmetric(edges, ni, np, v, u);
        }
      }
    }
  }

  ghost predicate UnionState(
      parent: seq<nat>, root: seq<nat>, rank: seq<nat>, bound: nat, edges: Edges, ni: nat, np: nat, i: nat, j: nat)
    requires IsAdjacency(edges, ni, np)
  {
    && |parent| == ni + np && Forest(parent, root, rank, bound)
    && Sound(edges, ni, np, root) && Handled(edges, ni, np, root, i, j)
  }

  /** One round of the inner loop: the ends of an edge get one root. */
  method JoinEnds(
      parent: array<nat>, edges: Edges, ni: nat, np: nat, i: nat, j: nat, ghost root: seq<nat>, ghost rank: seq<nat>, ghost bound: nat)
    returns (ghost root': seq<nat>, ghost rank': seq<nat>, ghost bound': nat)
    requires IsAdjacency(edges, ni, np) && i < ni && j < np && edges[i][j]
    requires UnionState(parent[..], root, rank, bound, edges, ni, np, i, j)
    modifies parent
    ensures UnionState(parent[..], root', rank', bound', edges, ni, np, i, j + 1)
  {
    root', rank', bound' := root, rank, bound;
    var ra := Find(parent, i, root, rank, bound);
    var rb := Find(parent, ni + j, root, rank, bound);
    if ra != rb {
      ghost var was := parent[..];
      parent[ra] := rb;
      assert parent[..] == was[ra := rb];
      United(was, root, rank, bound, ra, rb);
      MergeIsSound(edges, ni, np, root, ra, rb, i, j);
      root', rank', bound' := Merged(root, ra, rb), Lifted(root, rank, rb, rank[ra] + 1), bound + rank[ra] + 1;
    }
  }

  /** Joins the ends of every edge. */
  method Unite(parent: array<nat>, edges: Edges, ni: nat, np: nat)
    returns (ghost root: seq<nat>, ghost rank: seq<nat>, ghost bound: nat)
    requires IsAdjacency(edges, ni, np) && parent.Length == ni + np
    requires forall v :: 0 <= v < parent.Length ==> parent[v] == v
    modifies parent
    ensures UnionState(parent[..], root, rank, bound, edges, ni, np, ni, 0)
  {
    root, rank, bound := parent[..], seq(parent.Length, _ => 0), 0;
    forall u | 0 <= u < ni + np
      ensures Joined(edges, ni, np, u, u)
    {
      JoinedToItself(edges, ni, np, u);
    }
    for i := 0 to ni
      invariant UnionState(parent[..], root, rank, bound, edges, ni, np, i, 0)
    {
      for j := 0 to np
        invariant UnionState(parent[..], root, rank, bound, edges, ni, np, i, j)
      {
        if edges[i][j] {
          root, rank, bound := JoinEnds(parent, edges, ni, np, i, j, root, rank, bound);
        }
      }
    }
  }

  /** With every edge under one root, a path never leaves its root. */
  lemma {:induction false} PathKeepsRoot(edges: Edges, ni: nat, np: nat, root: seq<nat>, s: seq<nat>)
    requires IsAdjacency(edges, ni, np) && |root| == ni + np && Handled(edges, ni, np, root, ni, 0)
    requires IsPath(edges, ni, np, s)
    ensures root[s[0]] == root[s[|s| - 1]]
  {
    if |s| > 1 {
      var t := s[..|s| - 1];
      assert IsPath(edges, ni, np, t);
      PathKeepsRoot(edges, ni, np, root, t);
      assert Adjacent(edges, ni, np, s[|s| - 2], s[|s| - 1]);
    }
  }

  /** After the loops two wells share a root exactly when a path joins them. */
  lemma SameRootIffJoined(edges: Edges, ni: nat, np: nat, root: seq<nat>, u: nat, v: nat)
    requires IsAdjacency(edges, ni, np) && Sound(edges, ni, np, root) && Handled(edges, ni, np, root, ni, 0)
    requires u < ni + np && v < ni + np
    ensures root[u] == root[v] <==> Joined(edges, ni, np, u, v)
  {
    if Joined(edges, ni, np, u, v) {
      var s :| IsPath(edges, ni, np, s) && s[0] == u && s[|s| - 1] == v;
      PathKeepsRoot(edges, ni, np, root, s);
    }
  }

  // ---------------------------------------------------------------- groups

  datatype Group = Group(inj: seq<nat>, prod: seq<nat>) {
    /** Vertex v belongs to this group. */
    predicate Has(ni: nat, v: nat) {
      if v < ni then v in inj else v - ni in prod
    }
  }

  ghost predicate Distinct(s: seq<nat>) {
    forall a, b :: 0 <= a < b < |s| ==> s[a] != s[b]
  }

  ghost predicate Ascending(s: seq<nat>) {
    forall a, b :: 0 <= a < b < |s| ==> s[a] < s[b]
  }

  /** The vertices of [lo, hi) under root r, counted from lo, in ascending order. */
  ghost predicate AreMembers(s: seq<nat>, root: seq<nat>, r: nat, lo: nat, hi: nat)
    requires lo <= hi <= |root|
  {
    && Ascending(s)
    && (forall a :: 0 <= a < |s| ==> lo + s[a] < hi)
    && forall v: nat {:trigger v in s} :: v < hi - lo ==> (v in s <==> root[lo + v] == r)
  }

  /** groups maps each root met among the first k vertices to its members among them; keys lists the roots in that order. */
  ghost predicate AreGroups(keys: seq<nat>, groups: map<nat, Group>, root: seq<nat>, ni: nat, k: nat)
    requires ni <= |root| && k <= |root|
  {
    && Distinct(keys)
    && (forall r :: r in keys <==> r in groups)
    && (forall v :: 0 <= v < k ==> root[v] in groups)
    && (forall r :: r in groups ==> exists v :: 0 <= v < k && root[v] == r)
    && forall r :: r in groups ==>
         && AreMembers(groups[r].inj, root, r, 0, if k < ni then k else ni)
         && AreMembers(groups[r].prod, root, r, ni, if k < ni then ni else k)
  }

  lemma AppendMember(s: seq<nat>, root: seq<nat>, r: nat, lo: nat, hi: nat)
    requires lo <= hi < |root| && AreMembers(s, root, r, lo, hi)
    ensures AreMembers(if root[hi] == r then s + [hi - lo] else s, root, r, lo, hi + 1)
  {
    var t := if root[hi] == r then s + [hi - lo] else s;
    forall v: nat | v < hi + 1 - lo
      ensures v in t <==> root[lo + v] == r
    {
      if v < hi - lo {
        assert v in s <==> root[lo + v] == r;
      } else {
        assert v !in s;
      }
    }
  }

  /** A root met for the first time at vertex k has no members before it. */
  lemma NoMembersYet(root: seq<nat>, r: nat, lo: nat, hi: nat)
    requires lo <= hi <= |root| && forall v :: lo <= v < hi ==> root[v] != r
    ensures AreMembers([], root, r, lo, hi)
  {
  }

  /** setdefault and append for vertex k. */
  function Placed(g: Group, ni: nat, k: nat): Group {
    if k < ni then g.(inj := g.inj + [k]) else g.(prod := g.prod + [k - ni])
  }

  lemma PlaceMember(g: Group, root: seq<nat>, r: nat, ni: nat, k: nat)
    requires ni <= |root| && k < |root|
    requires AreMembers(g.inj, root, r, 0, if k < ni then k else ni) && AreMembers(g.prod, root, r, ni, if k < ni then ni else k)
    ensures var h := if root[k] == r then Placed(g, ni, k) else g;
            && AreMembers(h.inj, root, r, 0, if k + 1 < ni then k + 1 else ni)
            && AreMembers(h.prod, root, r, ni, if k + 1 < ni then ni else k + 1)
  {
    if k < ni {
      AppendMember(g.inj, root, r, 0, k);
    } else {
      AppendMember(g.prod, root, r, ni, k);
    }
  }

  lemma PlaceVertex(keys: seq<nat>, groups: map<nat, Group>, root: seq<nat>, ni: nat, k: nat)
    requires ni <= |root| && k < |root| && AreGroups(keys, groups, root, ni, k)
    ensures var r := root[k];
            var g := if r in groups then groups[r] else Group([], []);
            AreGroups(if r in groups then keys else keys + [r], groups[r := Placed(g, ni, k)], root, ni, k + 1)
  {
    var r := root[k];
    var g := if r in groups then groups[r] else Group([], []);
    var keys' := if r in groups then keys else keys + [r];
    var groups' := groups[r := Placed(g, ni, k)];
    if r !in groups {
      NoMembersYet(root, r, 0, if k < ni then k else ni);
      NoMembersYet(root, r, ni, if k < ni then ni else k);
    }
    forall q | q in groups'
      ensures AreMembers(groups'[q].inj, root, q, 0, if k + 1 < ni then k + 1 else ni)
      ensures AreMembers(groups'[q].prod, root, q, ni, if k + 1 < ni then ni else k + 1)
    {
      PlaceMember(if q == r then g else groups[q], root, q, ni, k);
    }
    forall q | q in groups'
      ensures exists v :: 0 <= v < k + 1 && root[v] == q
    {
      if q == r {
        assert root[k] == q;
      } else {
        var v :| 0 <= v < k && root[v] == q;
        assert root[v] == q;
      }
    }
  }

  ghost predicate IsPlaced(comps: seq<Group>, ni: nat, v: nat) {
    exists g :: 0 <= g < |comps| && comps[g].Has(ni, v)
  }

  /** Two wells are in one group exactly when a path of edges joins them. */
  ghost predicate GroupedByPaths(comps: seq<Group>, edges: Edges, ni: nat, np: nat)
    requires IsAdjacency(edges, ni, np)
  {
    forall g, h, u: nat, v: nat :: 0 <= g < |comps| && 0 <= h < |comps| && u < ni + np && v < ni + np ==>
      comps[g].Has(ni, u) && comps[h].Has(ni, v) ==>
      (g == h <==> Joined(edges, ni, np, u, v))
  }

  ghost predicate IsGroup(g: Group, ni: nat, np: nat) {
    && Ascending(g.inj) && Ascending(g.prod) && g != Group([], [])
    && (forall v :: v in g.inj ==> v < ni) && (forall v :: v in g.prod ==> v < np)
  }

  /** The components: every well in exactly one group, listed once and in ascending order, grouped by paths. */
  ghost predicate AreComponents(comps: seq<Group>, edges: Edges, ni: nat, np: nat)
    requires IsAdjacency(edges, ni, np)
  {
    && (forall g :: 0 <= g < |comps| ==> IsGroup(comps[g], ni, np))
    && (forall v: nat {:trigger IsPlaced(comps, ni, v)} :: v < ni + np ==> IsPlaced(comps, ni, v))
    && GroupedByPaths(comps, edges, ni, np)
  }

  lemma HasIsRoot(keys: seq<nat>, groups: map<nat, Group>, root: seq<nat>, ni: nat, r: nat, v: nat)
    requires ni <= |root| && AreGroups(keys, groups, root, ni, |root|) && r in groups && v < |root|
    ensures groups[r].Has(ni, v) <==> root[v] == r
  {
    if v < ni {
      assert v in groups[r].inj <==> root[0 + v] == r;
    } else {
      assert v - ni in groups[r].prod <==> root[ni + (v - ni)] == r;
    }
  }

  lemma GroupsAreComponents(
      keys: seq<nat>, groups: map<nat, Group>, comps: seq<Group>, root: seq<nat>, edges: Edges, ni: nat, np: nat)
    requires IsAdjacency(edges, ni, np) && Sound(edges, ni, np, root) && Handled(edges, ni, np, root, ni, 0)
    requires AreGroups(keys, groups, root, ni, |root|)
    requires |comps| == |keys| && forall g :: 0 <= g < |comps| ==> keys[g] in groups && comps[g] == groups[keys[g]]
    ensures AreComponents(comps, edges, ni, np)
  {
    forall g, v: nat | 0 <= g < |comps| && v < ni + np
      ensures comps[g].Has(ni, v) <==> root[v] == keys[g]
    {
      HasIsRoot(keys, groups, root, ni, keys[g], v);
    }
    forall v: nat {:trigger IsPlaced(comps, ni, v)} | v < ni + np
      ensures IsPlaced(comps, ni, v)
    {
      assert root[v] in keys;
      var g :| 0 <= g < |keys| && keys[g] == root[v];
      assert comps[g].Has(ni, v);
    }
    forall g, h, u: nat, v: nat | 0 <= g < |comps| && 0 <= h < |comps| && u < ni + np && v < ni + np
      && comps[g].Has(ni, u) && comps[h].Has(ni, v)
      ensures g == h <==> Joined(edges, ni, np, u, v)
    {
      SameRootIffJoined(edges, ni, np, root, u, v);
    }
    forall g | 0 <= g < |comps|
      ensures IsGroup(comps[g], ni, np)
    {
      var v :| 0 <= v < |root| && root[v] == keys[g];
      assert comps[g].Has(ni, v);
    }
  }

  ghost predicate SeenBefore(root: seq<nat>, r: nat, v: nat) {
    exists u :: 0 <= u < v && u < |root| && root[u] == r
  }

  /** Before any member of a key's group comes a member of every earlier key's. */
  ghost predicate KeysInOrder(keys: seq<nat>, root: seq<nat>, k: nat) {
    k <= |root| && forall a, b, v {:trigger keys[a], keys[b], root[v]} :: 0 <= a < b < |keys| && 0 <= v < k && root[v] == keys[b] ==>
      SeenBefore(root, keys[a], v)
  }

  lemma PlaceInOrder(keys: seq<nat>, groups: map<nat, Group>, root: seq<nat>, ni: nat, k: nat)
    requires ni <= |root| && k < |root| && AreGroups(keys, groups, root, ni, k) && KeysInOrder(keys, root, k)
    ensures KeysInOrder(if root[k] in groups then keys else keys + [root[k]], root, k + 1)
  {
    var later := if root[k] in groups then keys else keys + [root[k]];
    forall a, b, v {:trigger later[a], later[b], root[v]} | 0 <= a < b < |later| && 0 <= v < k + 1 && root[v] == later[b]
      ensures SeenBefore(root, later[a], v)
    {
      assert later[a] == keys[a] && keys[a] in groups;
      if v == k {
        var u :| 0 <= u < k && root[u] == keys[a];
        assert root[u] == keys[a];
      } else {
        assert root[v] in groups;
      }
    }
  }

  /** Components come in the order of their first wells. */
  ghost predicate ByFirstWell(comps: seq<Group>, ni: nat, np: nat) {
    forall g, h, v: nat :: 0 <= g < h < |comps| && v < ni + np && comps[h].Has(ni, v) ==> HasBefore(comps[g], ni, v)
  }

  ghost predicate HasBefore(c: Group, ni: nat, v: nat) {
    exists u: nat :: u < v && c.Has(ni, u)
  }

  lemma GroupsByFirstWell(keys: seq<nat>, groups: map<nat, Group>, comps: seq<Group>, root: seq<nat>, ni: nat, np: nat)
    requires |root| == ni + np && AreGroups(keys, groups, root, ni, |root|) && KeysInOrder(keys, root, |root|)
    requires |comps| == |keys| && forall g :: 0 <= g < |comps| ==> keys[g] in groups && comps[g] == groups[keys[g]]
    ensures ByFirstWell(comps, ni, np)
  {
    forall g, h, v: nat | 0 <= g < h < |comps| && v < ni + np && comps[h].Has(ni, v)
      ensures HasBefore(comps[g], ni, v)
    {
      HasIsRoot(keys, groups, root, ni, keys[h], v);
      assert SeenBefore(root, keys[g], v);
      var u: nat :| u < v && root[u] == keys[g];
      HasIsRoot(keys, groups, root, ni, keys[g], u);
      assert comps[g].Has(ni, u);
    }
  }

  /** Wells by root, in order of first appearance. */
  method GroupByRoot(parent: array<nat>, ni: nat, ghost root: seq<nat>, ghost rank: seq<nat>, ghost bound: nat)
    returns (keys: seq<nat>, groups: map<nat, Group>)
    requires Forest(parent[..], root, rank, bound) && ni <= parent.Length
    modifies parent
    ensures |root| == parent.Length && AreGroups(keys, groups, root, ni, |root|) && KeysInOrder(keys, root, |root|)
  {
    keys, groups := [], map[];
    for k := 0 to parent.Length
      invariant Forest(parent[..], root, rank, bound)
      invariant AreGroups(keys, groups, root, ni, k) && KeysInOrder(keys, root, k)
    {
      PlaceInOrder(keys, groups, root, ni, k);
      PlaceVertex(keys, groups, root, ni, k);
      var r := Find(parent, k, root, rank, bound);
      var g := if r in groups then groups[r] else Group([], []);
      keys := if r in groups then keys else keys + [r];
      groups := groups[r := Placed(g, ni, k)];
    }
  }

  method ConnectedComponents(ni: nat, np: nat, edges: Edges) returns (comps: seq<Group>)
    requires IsAdjacency(edges, ni, np)
    ensures AreComponents(comps, edges, ni, np) && ByFirstWell(comps, ni, np)
  {
    var parent := new nat[ni + np](v => v);
    ghost var root, rank, bound := Unite(parent, edges, ni, np);
    var keys, groups := GroupByRoot(parent, ni, root, rank, bound);
    comps := seq(|keys|, g requires 0 <= g < |keys| && keys[g] in groups => groups[keys[g]]);
    GroupsAreComponents(keys, groups, comps, root, edges, ni, np);
    GroupsByFirstWell(keys, groups, comps, root, ni, np);
  }
}
