/**
 * find_shortest_path: a shortest undirected path between a node with the
 * source id and a node with the target id, optionally restricted to a list
 * of relationship types.
 *
 * The database's `shortestPath` is modelled by a breadth-first search over
 * the relationship sequence: `Ball(k)` is the set of nodes within k hops,
 * `Distance` finds the first k whose ball holds the target, and `Trace`
 * walks back through the balls to a concrete path.
 */
module Paths {
  import opened Graph

  /** A relationship type filter: `None` or an empty list lets every type through. */
  predicate Allowed(types: Option<seq<string>>, e: Edge) {
    types.None? || |types.value| == 0 || e.relType in types.value
  }

  /** `e` connects `a` and `b`, whichever way it is stored. */
  predicate Joins(e: Edge, a: NodeRef, b: NodeRef) {
    (e.src == a && e.tgt == b) || (e.src == b && e.tgt == a)
  }

  /** A path as the database returns it: nodes, and the relationships between consecutive nodes. */
  datatype Walk = Walk(nodes: seq<NodeRef>, rels: seq<Edge>)

  /** `w` leads from `s` to `t` over stored, allowed relationships, each taken in either direction. */
  predicate IsWalk(edges: seq<Edge>, types: Option<seq<string>>, w: Walk, s: NodeRef, t: NodeRef) {
    && |w.nodes| == |w.rels| + 1
    && w.nodes[0] == s
    && w.nodes[|w.rels|] == t
    && forall i | 0 <= i < |w.rels| ::
         w.rels[i] in edges && Allowed(types, w.rels[i]) && Joins(w.rels[i], w.nodes[i], w.nodes[i + 1])
  }

  // ---------------------------------------------------------------------
  // Breadth-first search
  // ---------------------------------------------------------------------

  /** `e` is allowed and links `t` to a node of `S`. */
  predicate Links(types: Option<seq<string>>, S: set<NodeRef>, t: NodeRef, e: Edge) {
    Allowed(types, e) && ((e.tgt == t && e.src in S) || (e.src == t && e.tgt in S))
  }

  /** The nodes one allowed relationship away from some node of `S`. */
  function Neighbours(edges: seq<Edge>, types: Option<seq<string>>, S: set<NodeRef>): set<NodeRef> {
    if edges == [] then {}
    else
      var e := edges[0];
      (if Allowed(types, e) && e.src in S then {e.tgt} else {}) +
      (if Allowed(types, e) && e.tgt in S then {e.src} else {}) +
      Neighbours(edges[1..], types, S)
  }

  lemma {:induction false} NeighboursSpec(edges: seq<Edge>, types: Option<seq<string>>, S: set<NodeRef>, t: NodeRef)
    ensures t in Neighbours(edges, types, S) <==> exists e | e in edges :: Links(types, S, t, e)
  {
    if edges != [] {
      NeighboursSpec(edges[1..], types, S, t);
      assert forall e | e in edges :: e == edges[0] || e in edges[1..];
      if Links(types, S, t, edges[0]) {
        assert t in Neighbours(edges, types, S);
      }
    }
  }

  /** The endpoints of the relationships. */
  function Endpoints(edges: seq<Edge>): set<NodeRef> {
    if edges == [] then {} else {edges[0].src, edges[0].tgt} + Endpoints(edges[1..])
  }

  lemma {:induction false} NeighboursWithin(edges: seq<Edge>, types: Option<seq<string>>, S: set<NodeRef>)
    ensures Neighbours(edges, types, S) <= Endpoints(edges)
  {
    if edges != [] {
      NeighboursWithin(edges[1..], types, S);
    }
  }

  /** The nodes within `k` hops of `s`. */
  function Ball(edges: seq<Edge>, types: Option<seq<string>>, s: NodeRef, k: nat): set<NodeRef> {
    if k == 0 then {s}
    else Ball(edges, types, s, k - 1) + Neighbours(edges, types, Ball(edges, types, s, k - 1))
  }

  /** Every node a search from `s` can meet: `s` and the endpoints of the relationships. */
  function Universe(edges: seq<Edge>, s: NodeRef): set<NodeRef> {
    {s} + Endpoints(edges)
  }

  lemma {:induction false} BallWithin(edges: seq<Edge>, types: Option<seq<string>>, s: NodeRef, k: nat)
    ensures Ball(edges, types, s, k) <= Universe(edges, s)
  {
    if k > 0 {
      BallWithin(edges, types, s, k - 1);
      NeighboursWithin(edges, types, Ball(edges, types, s, k - 1));
    }
  }

  lemma ProperSubsetSmaller(A: set<NodeRef>, B: set<NodeRef>)
    requires A <= B && A != B
    ensures |A| < |B|
  {
    var x :| x in B && x !in A;
    var D := B - A;
    assert x in D;
    assert B == A + D && A * D == {};
  }

  /** Once a ball stops growing, every larger ball is the same set. */
  lemma {:induction false} BallStable(edges: seq<Edge>, types: Option<seq<string>>, s: NodeRef, k: nat, m: nat)
    requires Ball(edges, types, s, k + 1) == Ball(edges, types, s, k)
    requires k <= m
    ensures Ball(edges, types, s, m) == Ball(edges, types, s, k)
    decreases m - k
  {
    if m > k {
      BallStable(edges, types, s, k, m - 1);
      var before := Ball(edges, types, s, m - 1);
      assert Ball(edges, types, s, m) == before + Neighbours(edges, types, before);
      assert Ball(edges, types, s, k + 1) == before + Neighbours(edges, types, before);
    }
  }

  lemma {:induction false} BallGrows(edges: seq<Edge>, types: Option<seq<string>>, s: NodeRef, k: nat, m: nat)
    requires k <= m
    ensures Ball(edges, types, s, k) <= Ball(edges, types, s, m)
    decreases m - k
  {
    if k < m {
      BallGrows(edges, types, s, k, m - 1);
    }
  }

  /**
   * The number of hops from `s` to `t`, searching balls from radius `k`
   * upwards; `None` when the balls stop growing without reaching `t`.
   */
  function Distance(edges: seq<Edge>, types: Option<seq<string>>, s: NodeRef, t: NodeRef, k: nat): Option<nat>
    decreases |Universe(edges, s) - Ball(edges, types, s, k)|
  {
    if t in Ball(edges, types, s, k) then Some(k)
    else if Ball(edges, types, s, k + 1) == Ball(edges, types, s, k) then None
    else
      SearchShrinks(edges, types, s, k);
      Distance(edges, types, s, t, k + 1)
  }

  /** The search answers the least radius whose ball holds `t`, and `None` only when no ball does. */
  lemma {:induction false} DistanceSpec(edges: seq<Edge>, types: Option<seq<string>>, s: NodeRef, t: NodeRef, k: nat)
    ensures var r := Distance(edges, types, s, t, k);
      && (r.Some? ==> k <= r.value && t in Ball(edges, types, s, r.value))
      && (r.Some? ==> forall j | k <= j < r.value :: t !in Ball(edges, types, s, j))
      && (r.None? ==> forall j | k <= j :: t !in Ball(edges, types, s, j))
    decreases |Universe(edges, s) - Ball(edges, types, s, k)|
  {
    if t in Ball(edges, types, s, k) {
    } else if Ball(edges, types, s, k + 1) == Ball(edges, types, s, k) {
      NeverReached(edges, types, s, t, k);
    } else {
      SearchShrinks(edges, types, s, k);
      DistanceSpec(edges, types, s, t, k + 1);
      var r := Distance(edges, types, s, t, k + 1);
      MissedEarlier(edges, types, s, t, k, if r.Some? then r.value else k);
    }
  }

  lemma MissedEarlier(edges: seq<Edge>, types: Option<seq<string>>, s: NodeRef, t: NodeRef, k: nat, hi: nat)
    requires t !in Ball(edges, types, s, k)
    ensures (forall j | k + 1 <= j < hi :: t !in Ball(edges, types, s, j))
        ==> forall j | k <= j < hi :: t !in Ball(edges, types, s, j)
    ensures (forall j | k + 1 <= j :: t !in Ball(edges, types, s, j))
        ==> forall j | k <= j :: t !in Ball(edges, types, s, j)
  {
  }

  lemma NeverReached(edges: seq<Edge>, types: Option<seq<string>>, s: NodeRef, t: NodeRef, k: nat)
    requires Ball(edges, types, s, k + 1) == Ball(edges, types, s, k)
    requires t !in Ball(edges, types, s, k)
    ensures forall j | k <= j :: t !in Ball(edges, types, s, j)
  {
    forall j | k <= j
      ensures t !in Ball(edges, types, s, j)
    {
      BallStable(edges, types, s, k, j);
    }
  }

  /** While the balls grow, the part of the universe still unexplored shrinks. */
  lemma SearchShrinks(edges: seq<Edge>, types: Option<seq<string>>, s: NodeRef, k: nat)
    requires Ball(edges, types, s, k + 1) != Ball(edges, types, s, k)
    ensures |Universe(edges, s) - Ball(edges, types, s, k + 1)| < |Universe(edges, s) - Ball(edges, types, s, k)|
  {
    BallWithin(edges, types, s, k + 1);
    ProperSubsetSmaller(Universe(edges, s) - Ball(edges, types, s, k + 1), Universe(edges, s) - Ball(edges, types, s, k));
  }

  /** The first relationship (in store order) linking `t` to `S`, with the node of `S` it reaches. */
  function FirstLink(edges: seq<Edge>, types: Option<seq<string>>, S: set<NodeRef>, t: NodeRef): (r: Option<(Edge, NodeRef)>)
    ensures r.Some? ==> r.value.0 in edges && Allowed(types, r.value.0) && r.value.1 in S && Joins(r.value.0, r.value.1, t)
    ensures r.None? ==> forall e | e in edges :: !Links(types, S, t, e)
  {
    if edges == [] then None
    else if Allowed(types, edges[0]) && edges[0].tgt == t && edges[0].src in S then Some((edges[0], edges[0].src))
    else if Allowed(types, edges[0]) && edges[0].src == t && edges[0].tgt in S then Some((edges[0], edges[0].tgt))
    else
      var r := FirstLink(edges[1..], types, S, t);
      assert forall e | e in edges :: e == edges[0] || e in edges[1..];
      r
  }

  /** A path from `s` to a node of the `k`-ball, of at most `k` hops. */
  function Trace(edges: seq<Edge>, types: Option<seq<string>>, s: NodeRef, t: NodeRef, k: nat): (w: Walk)
    requires t in Ball(edges, types, s, k)
    ensures IsWalk(edges, types, w, s, t) && |w.rels| <= k
    decreases k
  {
    if k == 0 then Walk([s], [])
    else if t in Ball(edges, types, s, k - 1) then Trace(edges, types, s, t, k - 1)
    else
      NeighboursSpec(edges, types, Ball(edges, types, s, k - 1), t);
      var link := FirstLink(edges, types, Ball(edges, types, s, k - 1), t);
      var w := Trace(edges, types, s, link.value.1, k - 1);
      WalkExtends(edges, types, w, s, link.value.1, link.value.0, t);
      Walk(w.nodes + [t], w.rels + [link.value.0])
  }

  /** A path to `u` followed by an allowed relationship from `u` to `t` is a path to `t`. */
  lemma WalkExtends(edges: seq<Edge>, types: Option<seq<string>>, w: Walk, s: NodeRef, u: NodeRef, e: Edge, t: NodeRef)
    requires IsWalk(edges, types, w, s, u)
    requires e in edges && Allowed(types, e) && Joins(e, u, t)
    ensures IsWalk(edges, types, Walk(w.nodes + [t], w.rels + [e]), s, t)
  {
    var r := Walk(w.nodes + [t], w.rels + [e]);
    forall i | 0 <= i < |r.rels|
      ensures r.rels[i] in edges && Allowed(types, r.rels[i]) && Joins(r.rels[i], r.nodes[i], r.nodes[i + 1])
    {
      if i < |w.rels| {
        assert r.rels[i] == w.rels[i] && r.nodes[i] == w.nodes[i] && r.nodes[i + 1] == w.nodes[i + 1];
      }
    }
  }

  /** Dropping the last hop of a path leaves a path to the node before the end. */
  lemma PathPrefix(edges: seq<Edge>, types: Option<seq<string>>, w: Walk, s: NodeRef, t: NodeRef)
    requires IsWalk(edges, types, w, s, t) && |w.rels| > 0
    ensures IsWalk(edges, types, Walk(w.nodes[..|w.rels|], w.rels[..|w.rels| - 1]), s, w.nodes[|w.rels| - 1])
  {
  }

  /** Every node a path of `n` hops reaches lies in the `n`-ball. */
  lemma {:induction false} WalkInBall(edges: seq<Edge>, types: Option<seq<string>>, w: Walk, s: NodeRef, t: NodeRef)
    requires IsWalk(edges, types, w, s, t)
    ensures t in Ball(edges, types, s, |w.rels|)
    decreases |w.rels|
  {
    var n := |w.rels|;
    if n > 0 {
      var u := w.nodes[n - 1];
      PathPrefix(edges, types, w, s, t);
      WalkInBall(edges, types, Walk(w.nodes[..n], w.rels[..n - 1]), s, u);
      assert Links(types, Ball(edges, types, s, n - 1), t, w.rels[n - 1]);
      NeighboursSpec(edges, types, Ball(edges, types, s, n - 1), t);
    }
  }

  /** The `k`-ball is exactly the set of nodes reachable in at most `k` hops. */
  lemma BallIsReach(edges: seq<Edge>, types: Option<seq<string>>, s: NodeRef, t: NodeRef, k: nat)
    ensures t in Ball(edges, types, s, k) <==> exists w :: IsWalk(edges, types, w, s, t) && |w.rels| <= k
  {
    if t in Ball(edges, types, s, k) {
      var w := Trace(edges, types, s, t, k);
      assert IsWalk(edges, types, w, s, t) && |w.rels| <= k;
    }
    if exists w :: IsWalk(edges, types, w, s, t) && |w.rels| <= k {
      var w :| IsWalk(edges, types, w, s, t) && |w.rels| <= k;
      WalkInBall(edges, types, w, s, t);
      BallGrows(edges, types, s, |w.rels|, k);
    }
  }

  /** A shortest path from `s` to `t` over allowed relationships, if there is any. */
  function ShortestWalk(edges: seq<Edge>, types: Option<seq<string>>, s: NodeRef, t: NodeRef): (r: Option<Walk>)
    ensures r.Some? ==> IsWalk(edges, types, r.value, s, t)
    ensures r.Some? ==> forall w | IsWalk(edges, types, w, s, t) :: |r.value.rels| <= |w.rels|
    ensures r.None? ==> forall w :: !IsWalk(edges, types, w, s, t)
  {
    DistanceSpec(edges, types, s, t, 0);
    match Distance(edges, types, s, t, 0)
    case None =>
      assert forall w :: !IsWalk(edges, types, w, s, t) by {
        forall w | IsWalk(edges, types, w, s, t) ensures false {
          WalkInBall(edges, types, w, s, t);
        }
      }
      None
    case Some(d) =>
      var best := Trace(edges, types, s, t, d);
      assert forall w | IsWalk(edges, types, w, s, t) :: d <= |w.rels| by {
        forall w | IsWalk(edges, types, w, s, t) ensures d <= |w.rels| {
          WalkInBall(edges, types, w, s, t);
        }
      }
      Some(best)
  }

  // ---------------------------------------------------------------------
  // The query and its result
  // ---------------------------------------------------------------------

  /** The nodes `{id: $id}` matches: any label, that id. */
  function Candidates(g: Graph, id: string): (r: seq<NodeRef>)
    ensures forall n :: n in r <==> HasNode(g, n) && n.id == id
  {
    (if HasUser(g.users, id) then [UserRef(id)] else []) +
    (if HasTransaction(g.transactions, id) then [TxRef(id)] else [])
  }

  /** The first target (in order) that `s` has a path to, with that path. */
  function FirstPathFrom(edges: seq<Edge>, types: Option<seq<string>>, s: NodeRef, targets: seq<NodeRef>): (r: Option<Walk>)
    ensures r.Some? ==> |r.value.nodes| == |r.value.rels| + 1
    ensures r.Some? ==> r.value.nodes[|r.value.rels|] in targets && r == ShortestWalk(edges, types, s, r.value.nodes[|r.value.rels|])
    ensures r.None? ==> forall t | t in targets :: ShortestWalk(edges, types, s, t).None?
  {
    if targets == [] then None
    else match ShortestWalk(edges, types, s, targets[0])
      case Some(w) => Some(w)
      case None =>
        var r := FirstPathFrom(edges, types, s, targets[1..]);
        assert forall t | t in targets :: t == targets[0] || t in targets[1..];
        r
  }

  /** The first (source, target) row, source-major, that has a path, with that path. */
  function FirstPath(edges: seq<Edge>, types: Option<seq<string>>, sources: seq<NodeRef>, targets: seq<NodeRef>): (r: Option<Walk>)
    ensures r.Some? ==> |r.value.nodes| == |r.value.rels| + 1
    ensures r.Some? ==> r.value.nodes[0] in sources && r.value.nodes[|r.value.rels|] in targets
    ensures r.Some? ==> r == ShortestWalk(edges, types, r.value.nodes[0], r.value.nodes[|r.value.rels|])
    ensures r.None? ==> forall s, t | s in sources && t in targets :: ShortestWalk(edges, types, s, t).None?
  {
    if sources == [] then None
    else match FirstPathFrom(edges, types, sources[0], targets)
      case Some(w) => Some(w)
      case None =>
        var r := FirstPath(edges, types, sources[1..], targets);
        assert forall s | s in sources :: s == sources[0] || s in sources[1..];
        r
  }

  /** A relationship as reported: type, stored start and end ids, properties. */
  datatype RelView = RelView(relType: string, sourceId: string, targetId: string, properties: Props)

  function View(e: Edge): RelView {
    RelView(e.relType, e.src.id, e.tgt.id, e.props)
  }

  function Views(rels: seq<Edge>): (r: seq<RelView>)
    ensures |r| == |rels| && forall i | 0 <= i < |rels| :: r[i] == View(rels[i])
  {
    if rels == [] then [] else [View(rels[0])] + Views(rels[1..])
  }

  datatype PathResult =
    | NotFound(message: string)
    | Found(pathLength: nat, nodes: seq<NodeRef>, relationships: seq<RelView>)
      /** The database refuses a shortest path whose two ends are the same node. */
    | QueryFailed

  function FindShortestPath(g: Graph, sourceId: string, targetId: string, types: Option<seq<string>>): PathResult {
    var sources := Candidates(g, sourceId);
    var targets := Candidates(g, targetId);
    if sourceId == targetId && sources != [] then QueryFailed
    else match FirstPath(g.edges, types, sources, targets)
      case None => NotFound("No path found between " + sourceId + " and " + targetId)
      case Some(w) => Found(|w.rels|, w.nodes, Views(w.rels))
  }

  /** Reported relationship `v` connects nodes `a` and `b`, in either stored direction. */
  predicate ViewJoins(v: RelView, a: NodeRef, b: NodeRef) {
    (v.sourceId == a.id && v.targetId == b.id) || (v.sourceId == b.id && v.targetId == a.id)
  }

  /** The query fails exactly when both ends are named by the same id and that id exists. */
  lemma QueryFailedCase(g: Graph, sourceId: string, targetId: string, types: Option<seq<string>>)
    ensures FindShortestPath(g, sourceId, targetId, types).QueryFailed?
        <==> sourceId == targetId && (HasUser(g.users, sourceId) || HasTransaction(g.transactions, sourceId))
  {
    var sources := Candidates(g, sourceId);
    if HasUser(g.users, sourceId) {
      assert UserRef(sourceId) in sources;
    } else if HasTransaction(g.transactions, sourceId) {
      assert TxRef(sourceId) in sources;
    }
  }

  /** Not found: the fixed message, and no allowed path joins any source candidate to any target candidate. */
  lemma NotFoundCase(g: Graph, sourceId: string, targetId: string, types: Option<seq<string>>)
    requires FindShortestPath(g, sourceId, targetId, types).NotFound?
    ensures FindShortestPath(g, sourceId, targetId, types).message == "No path found between " + sourceId + " and " + targetId
    ensures forall s, t, w | HasNode(g, s) && s.id == sourceId && HasNode(g, t) && t.id == targetId ::
              !IsWalk(g.edges, types, w, s, t)
  {
    var sources := Candidates(g, sourceId);
    var targets := Candidates(g, targetId);
    forall s, t, w | HasNode(g, s) && s.id == sourceId && HasNode(g, t) && t.id == targetId
      ensures !IsWalk(g.edges, types, w, s, t)
    {
      assert s in sources && t in targets;
      assert ShortestWalk(g.edges, types, s, t).None?;
    }
  }

  /** Found: the path starts at a source candidate and ends at a different, target candidate. */
  lemma FoundEnds(g: Graph, sourceId: string, targetId: string, types: Option<seq<string>>)
    requires FindShortestPath(g, sourceId, targetId, types).Found?
    ensures var r := FindShortestPath(g, sourceId, targetId, types);
      && r.pathLength == |r.relationships| == |r.nodes| - 1
      && HasNode(g, r.nodes[0]) && r.nodes[0].id == sourceId
      && HasNode(g, r.nodes[r.pathLength]) && r.nodes[r.pathLength].id == targetId
      && r.nodes[0] != r.nodes[r.pathLength]
  {
  }

  /**
   * Found: each reported relationship is a stored one of an allowed type,
   * reported with its stored start and end ids, and joins consecutive nodes.
   */
  lemma FoundRelationships(g: Graph, sourceId: string, targetId: string, types: Option<seq<string>>)
    requires FindShortestPath(g, sourceId, targetId, types).Found?
    ensures var r := FindShortestPath(g, sourceId, targetId, types);
      && |r.relationships| == |r.nodes| - 1
      && (forall i | 0 <= i < |r.relationships| :: ViewJoins(r.relationships[i], r.nodes[i], r.nodes[i + 1]))
      && (forall i | 0 <= i < |r.relationships| :: r.relationships[i] in Views(g.edges))
      && (forall i | 0 <= i < |r.relationships| ::
            types.None? || |types.value| == 0 || r.relationships[i].relType in types.value)
  {
    var w := ReportedWalk(g, sourceId, targetId, types);
    var vs := Views(g.edges);
    forall i | 0 <= i < |w.rels|
      ensures View(w.rels[i]) in vs && ViewJoins(View(w.rels[i]), w.nodes[i], w.nodes[i + 1])
    {
      assert Joins(w.rels[i], w.nodes[i], w.nodes[i + 1]);
      var j :| 0 <= j < |g.edges| && g.edges[j] == w.rels[i];
      assert vs[j] == View(w.rels[i]);
    }
  }

  /** The walk behind a found result. */
  lemma ReportedWalk(g: Graph, sourceId: string, targetId: string, types: Option<seq<string>>) returns (w: Walk)
    requires FindShortestPath(g, sourceId, targetId, types).Found?
    ensures FindShortestPath(g, sourceId, targetId, types) == Found(|w.rels|, w.nodes, Views(w.rels))
    ensures IsWalk(g.edges, types, w, w.nodes[0], w.nodes[|w.rels|])
  {
    w := FirstPath(g.edges, types, Candidates(g, sourceId), Candidates(g, targetId)).value;
  }

  /** Found: no allowed path between the reported end nodes is shorter than the reported one. */
  lemma FoundIsShortest(g: Graph, sourceId: string, targetId: string, types: Option<seq<string>>)
    requires FindShortestPath(g, sourceId, targetId, types).Found?
    ensures var r := FindShortestPath(g, sourceId, targetId, types);
      forall w | IsWalk(g.edges, types, w, r.nodes[0], r.nodes[|r.nodes| - 1]) :: r.pathLength <= |w.rels|
  {
  }

  /** When some source candidate has an allowed path to some target candidate and the ends differ, a path is found. */
  lemma FoundWhenConnected(g: Graph, sourceId: string, targetId: string, types: Option<seq<string>>, s: NodeRef, t: NodeRef, w: Walk)
    requires HasNode(g, s) && s.id == sourceId && HasNode(g, t) && t.id == targetId
    requires IsWalk(g.edges, types, w, s, t)
    requires sourceId != targetId
    ensures FindShortestPath(g, sourceId, targetId, types).Found?
  {
    var sources := Candidates(g, sourceId);
    var targets := Candidates(g, targetId);
    assert s in sources && t in targets;
  }
}
