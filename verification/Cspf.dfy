/** Constrained shortest path first: Dijkstra over the pruned graph, and the path it returns. */
module Cspf {
  import opened Topology

  /** Edge and path costs; an unusable edge costs infinity. */
  datatype Cost = Finite(v: real) | Inf

  function Add(a: Cost, b: Cost): Cost {
    if a.Finite? && b.Finite? then Finite(a.v + b.v) else Inf
  }

  predicate Less(a: Cost, b: Cost) {
    a.Finite? && (b.Inf? || a.v < b.v)
  }

  predicate AtMost(a: Cost, b: Cost) {
    !Less(b, a)
  }

  datatype Path = Path(nodes: seq<NodeId>, edges: seq<PceEdgeId>, links: seq<LinkId>, cost: real, color: Color)

  datatype Failure = UnknownNode | NoPath

  datatype Result<+T> = Ok(value: T) | Err(error: Failure)

  /** Objective values of the edges of a graph: each costs at least 1, or infinity. */
  type Weights = map<PceEdgeId, Cost>

  ghost predicate Weighs(g: PceGraph, w: Weights) {
    && (forall id :: id in g.edges ==> id in w)
    && (forall id :: id in g.edges ==> w[id].Inf? || w[id].v >= 1.0)
  }

  // ---------- Walks ----------

  /** `edges` leads from `a` to `b` through nodes of the graph. */
  ghost predicate Walk(g: PceGraph, a: NodeId, edges: seq<PceEdgeId>, b: NodeId)
    decreases |edges|
  {
    if edges == [] then a == b && a in g.nodes
    else
      var n := |edges| - 1;
      && edges[n] in g.edges
      && g.edges[edges[n]].nodeTo == b && b in g.nodes
      && Walk(g, a, edges[..n], g.edges[edges[n]].nodeFrom)
  }

  ghost function WalkCost(w: Weights, edges: seq<PceEdgeId>): Cost
    requires forall id :: id in edges ==> id in w
    decreases |edges|
  {
    if edges == [] then Finite(0.0)
    else
      var n := |edges| - 1;
      Add(WalkCost(w, edges[..n]), w[edges[n]])
  }

  lemma {:induction false} WalkEdges(g: PceGraph, a: NodeId, edges: seq<PceEdgeId>, b: NodeId)
    requires Walk(g, a, edges, b)
    ensures forall id :: id in edges ==> id in g.edges
    ensures a in g.nodes && b in g.nodes
    decreases |edges|
  {
    if edges != [] {
      var n := |edges| - 1;
      WalkEdges(g, a, edges[..n], g.edges[edges[n]].nodeFrom);
      assert edges == edges[..n] + [edges[n]];
    }
  }

  // ---------- Dijkstra ----------

  /** Tentative distances, the edge each node was reached by, and the settled nodes. */
  datatype Labels = Labels(dist: map<NodeId, Cost>, prev: map<NodeId, PceEdgeId>, visited: set<NodeId>)

  /** Reading a Go map: an absent node reads as zero, so it is never relaxed. */
  function Dist(s: Labels, n: NodeId): Cost {
    if n in s.dist then s.dist[n] else Finite(0.0)
  }

  /** Every reached node other than the source has a settled predecessor that explains its distance. */
  ghost predicate Explained(g: PceGraph, w: Weights, src: NodeId, s: Labels) {
    forall n :: n in g.nodes && n != src && Dist(s, n).Finite? ==>
      && n in s.prev && s.prev[n] in g.edges && s.prev[n] in w
      && var e := g.edges[s.prev[n]];
         e.nodeTo == n && e.nodeFrom in s.visited && e.nodeFrom in g.nodes &&
         Dist(s, n) == Add(Dist(s, e.nodeFrom), w[s.prev[n]])
  }

  ghost predicate Relaxed(g: PceGraph, w: Weights, s: Labels, id: PceEdgeId) {
    id in g.edges && id in w && g.edges[id].nodeTo in g.nodes ==>
      AtMost(Dist(s, g.edges[id].nodeTo), Add(Dist(s, g.edges[id].nodeFrom), w[id]))
  }

  ghost predicate Settled(g: PceGraph, src: NodeId, s: Labels) {
    && s.dist.Keys == g.nodes && s.visited <= g.nodes && src in g.nodes
    && s.dist[src] == Finite(0.0)
    && (forall u :: u in s.visited ==> s.dist[u].Finite?)
    && (forall u :: u in g.nodes && s.dist[u].Finite? ==> s.dist[u].v >= 0.0)
    && (forall u, v :: u in s.visited && v in g.nodes && v !in s.visited ==> AtMost(s.dist[u], s.dist[v]))
  }

  ghost predicate DijkstraInv(g: PceGraph, w: Weights, src: NodeId, s: Labels) {
    && Settled(g, src, s)
    && Explained(g, w, src, s)
    && (src in s.visited || s.visited == {})
    && (forall id :: id in g.edges && g.edges[id].nodeFrom in s.visited ==> Relaxed(g, w, s, id))
  }

  /** The unsettled node with the smallest finite distance, if there is one. The nodes are
      scanned in any order. */
  method Nearest(nodes: seq<NodeId>, s: Labels) returns (found: bool, current: NodeId)
    requires forall n :: n in nodes <==> n in s.dist
    ensures found ==> current in s.dist && current !in s.visited && s.dist[current].Finite?
    ensures found ==> forall n :: n in s.dist && n !in s.visited ==> AtMost(s.dist[current], s.dist[n])
    ensures !found ==> forall n :: n in s.dist && n !in s.visited ==> s.dist[n].Inf?
  {
    found, current := false, "";
    var best := Inf;
    var i := 0;
    while i < |nodes|
      invariant 0 <= i <= |nodes|
      invariant found <==> best.Finite?
      invariant found ==> current in s.dist && current !in s.visited && s.dist[current] == best
      invariant forall n :: n in nodes[..i] && n !in s.visited ==> AtMost(best, s.dist[n])
    {
      var n := nodes[i];
      if !(n in s.visited || AtMost(best, s.dist[n])) {
        current, best, found := n, s.dist[n], true;
      }
      i := i + 1;
    }
    assert nodes[..i] == nodes;
  }

  /** One relaxation of the inner loop. */
  function Relax(g: PceGraph, w: Weights, s: Labels, current: NodeId, id: PceEdgeId): Labels
    requires id in g.edges ==> id in w
  {
    if id !in g.edges || g.edges[id].nodeTo in s.visited then s
    else
      var n := g.edges[id].nodeTo;
      var candidate := Add(Dist(s, current), w[id]);
      if Less(candidate, Dist(s, n)) then s.(dist := s.dist[n := candidate], prev := s.prev[n := id]) else s
  }

  /** Holds while the edges of `u`, the node settled last, are being relaxed. */
  ghost predicate Relaxing(g: PceGraph, w: Weights, src: NodeId, s: Labels, u: NodeId) {
    && Settled(g, src, s)
    && Explained(g, w, src, s)
    && src in s.visited && u in s.visited
    && (forall v :: v in s.visited ==> AtMost(s.dist[v], s.dist[u]))
  }

  /** A shorter way to `n`, found through the settled node `u`. */
  lemma ImproveKeeps(g: PceGraph, w: Weights, src: NodeId, s: Labels, u: NodeId, id: PceEdgeId, n: NodeId)
    requires Weighs(g, w) && Relaxing(g, w, src, s, u)
    requires id in g.edges && g.edges[id].nodeFrom == u && g.edges[id].nodeTo == n && n in g.nodes && n !in s.visited
    requires w[id].Finite?
    ensures var s' := s.(dist := s.dist[n := Add(s.dist[u], w[id])], prev := s.prev[n := id]);
            Settled(g, src, s') && Explained(g, w, src, s')
  {
    var s' := s.(dist := s.dist[n := Add(s.dist[u], w[id])], prev := s.prev[n := id]);
    assert forall v :: v != n ==> Dist(s', v) == Dist(s, v);
    forall v | v in g.nodes && v != src && v != n && Dist(s', v).Finite?
      ensures v in s.prev && s.prev[v] in g.edges && s.prev[v] in w && g.edges[s.prev[v]].nodeFrom != n
    {
      assert Dist(s, v).Finite?;
    }
  }

  lemma RelaxKeeps(g: PceGraph, w: Weights, src: NodeId, s: Labels, u: NodeId, id: PceEdgeId)
    requires Weighs(g, w) && Relaxing(g, w, src, s, u)
    requires id in g.edges ==> g.edges[id].nodeFrom == u
    ensures Relaxing(g, w, src, Relax(g, w, s, u, id), u)
    ensures Relaxed(g, w, Relax(g, w, s, u, id), id)
    ensures forall n :: AtMost(Dist(Relax(g, w, s, u, id), n), Dist(s, n))
    ensures forall n :: n in s.visited ==> Dist(Relax(g, w, s, u, id), n) == Dist(s, n)
    ensures Relax(g, w, s, u, id).visited == s.visited
  {
    var s' := Relax(g, w, s, u, id);
    if s' != s {
      ImproveKeeps(g, w, src, s, u, id, g.edges[id].nodeTo);
    }
  }

  /** Relaxing more edges never spoils an edge that already leaves a settled node. */
  lemma RelaxedStays(g: PceGraph, w: Weights, s: Labels, s': Labels, id: PceEdgeId)
    requires Relaxed(g, w, s, id)
    requires id in g.edges ==> g.edges[id].nodeFrom in s.visited
    requires forall n :: AtMost(Dist(s', n), Dist(s, n))
    requires forall n :: n in s.visited ==> Dist(s', n) == Dist(s, n)
    ensures Relaxed(g, w, s', id)
  {
  }

  lemma SettleNearest(g: PceGraph, w: Weights, src: NodeId, s: Labels, u: NodeId)
    requires DijkstraInv(g, w, src, s)
    requires u in g.nodes && u !in s.visited && s.dist[u].Finite?
    requires forall n :: n in g.nodes && n !in s.visited ==> AtMost(s.dist[u], s.dist[n])
    ensures Relaxing(g, w, src, s.(visited := s.visited + {u}), u)
  {
    assert Dist(s, u).Finite?;
  }

  /** The edges of settled nodes other than `u`, and the first `i` of `out`, cannot be relaxed further. */
  ghost predicate RelaxedSoFar(g: PceGraph, w: Weights, src: NodeId, s: Labels, u: NodeId, out: seq<PceEdgeId>, i: nat) {
    && i <= |out| && Relaxing(g, w, src, s, u)
    && (forall id :: id in g.edges && g.edges[id].nodeFrom in s.visited && g.edges[id].nodeFrom != u ==> Relaxed(g, w, s, id))
    && (forall j :: 0 <= j < i ==> Relaxed(g, w, s, out[j]))
  }

  lemma RelaxedOneMore(g: PceGraph, w: Weights, src: NodeId, s: Labels, u: NodeId, out: seq<PceEdgeId>, i: nat)
    requires Weighs(g, w) && RelaxedSoFar(g, w, src, s, u, out, i) && i < |out|
    requires forall j :: 0 <= j < |out| && out[j] in g.edges ==> g.edges[out[j]].nodeFrom == u
    ensures RelaxedSoFar(g, w, src, Relax(g, w, s, u, out[i]), u, out, i + 1)
    ensures Relax(g, w, s, u, out[i]).visited == s.visited
  {
    RelaxKeeps(g, w, src, s, u, out[i]);
    var s' := Relax(g, w, s, u, out[i]);
    forall id | Relaxed(g, w, s, id) && (id in g.edges ==> g.edges[id].nodeFrom in s.visited)
      ensures Relaxed(g, w, s', id)
    {
      RelaxedStays(g, w, s, s', id);
    }
  }

  /** The edges out of `u` are relaxed in any order. */
  method RelaxAll(g: PceGraph, w: Weights, src: NodeId, s0: Labels, u: NodeId) returns (s: Labels)
    requires WellFormed(g) && Weighs(g, w)
    requires Relaxing(g, w, src, s0, u)
    requires forall id :: id in g.edges && g.edges[id].nodeFrom in s0.visited && g.edges[id].nodeFrom != u ==> Relaxed(g, w, s0, id)
    ensures DijkstraInv(g, w, src, s)
    ensures s.visited == s0.visited
  {
    s := s0;
    var out := if u in g.adj then g.adj[u] else [];
    assert forall j :: 0 <= j < |out| ==> out[j] in out;
    var i := 0;
    while i < |out|
      invariant 0 <= i <= |out|
      invariant RelaxedSoFar(g, w, src, s, u, out, i) && s.visited == s0.visited
    {
      RelaxedOneMore(g, w, src, s, u, out, i);
      s := Relax(g, w, s, u, out[i]);
      i := i + 1;
    }
    assert forall id :: id in out ==> Relaxed(g, w, s, id);
  }

  /** Up to its first unsettled node, no walk is cheaper than the distances found. */
  lemma {:induction false} WalkNotCheaper(g: PceGraph, w: Weights, src: NodeId, s: Labels, edges: seq<PceEdgeId>, b: NodeId, bound: Cost)
    requires Weighs(g, w) && DijkstraInv(g, w, src, s) && src in s.visited
    requires forall n :: n in g.nodes && n !in s.visited ==> AtMost(bound, s.dist[n])
    requires Walk(g, src, edges, b)
    ensures forall id :: id in edges ==> id in w
    ensures AtMost(s.dist[b], WalkCost(w, edges)) || AtMost(bound, WalkCost(w, edges))
    decreases |edges|
  {
    WalkEdges(g, src, edges, b);
    if edges != [] {
      var n := |edges| - 1;
      var e := g.edges[edges[n]];
      WalkEdges(g, src, edges[..n], e.nodeFrom);
      WalkNotCheaper(g, w, src, s, edges[..n], e.nodeFrom, bound);
      if e.nodeFrom in s.visited {
        assert Relaxed(g, w, s, edges[n]);
      }
    }
  }

  // ---------- The path ----------

  lemma {:induction false} WalkPrepend(g: PceGraph, w: Weights, id: PceEdgeId, edges: seq<PceEdgeId>, c: NodeId)
    requires Weighs(g, w)
    requires id in g.edges && g.edges[id].nodeFrom in g.nodes
    requires Walk(g, g.edges[id].nodeTo, edges, c)
    ensures Walk(g, g.edges[id].nodeFrom, [id] + edges, c)
    ensures forall x :: x in edges ==> x in w
    ensures WalkCost(w, [id] + edges) == Add(w[id], WalkCost(w, edges))
    decreases |edges|
  {
    WalkEdges(g, g.edges[id].nodeTo, edges, c);
    if edges == [] {
      assert [id] + edges == [id] && [id][..0] == [];
    } else {
      var n := |edges| - 1;
      assert ([id] + edges)[..n + 1] == [id] + edges[..n];
      WalkPrepend(g, w, id, edges[..n], g.edges[edges[n]].nodeFrom);
    }
  }

  /** `nodes` are the nodes that `edges` passes, in order. */
  ghost predicate Visits(g: PceGraph, nodes: seq<NodeId>, edges: seq<PceEdgeId>) {
    && |nodes| == |edges| + 1
    && forall i :: 0 <= i < |edges| ==>
         edges[i] in g.edges && g.edges[edges[i]].nodeFrom == nodes[i] && g.edges[edges[i]].nodeTo == nodes[i + 1]
  }

  lemma {:induction false} WalkNodes(g: PceGraph, a: NodeId, nodes: seq<NodeId>, edges: seq<PceEdgeId>, b: NodeId)
    requires Visits(g, nodes, edges) && nodes[0] == a && nodes[|nodes| - 1] == b
    ensures Walk(g, a, edges, b) <==> forall n :: n in nodes ==> n in g.nodes
    decreases |edges|
  {
    if edges != [] {
      var m := |edges| - 1;
      WalkNodes(g, a, nodes[..m + 1], edges[..m], nodes[m]);
      assert nodes == nodes[..m + 1] + [b];
    }
  }

  ghost predicate NoRepeats<T>(s: seq<T>) {
    forall i, j :: 0 <= i < j < |s| ==> s[i] != s[j]
  }

  function ReversedLinks(edges: seq<Edge>): seq<LinkId> {
    if edges == [] then [] else ReversedLinks(edges[1..]) + [edges[0].id]
  }

  /** The physical links along a path; members of a bundle come out in reverse. */
  ghost function LinksAlong(g: PceGraph, edges: seq<PceEdgeId>): seq<LinkId>
    requires forall id :: id in edges ==> id in g.edges
  {
    if edges == [] then []
    else ReversedLinks(g.edges[edges[0]].realEdges) + LinksAlong(g, edges[1..])
  }

  ghost predicate Increasing(s: Labels, nodes: seq<NodeId>) {
    forall i, j :: 0 <= i < j < |nodes| ==> Less(Dist(s, nodes[i]), Dist(s, nodes[j]))
  }

  /** `p` is a path from `src` to `dst` that visits no node twice. */
  ghost predicate SimplePath(g: PceGraph, src: NodeId, dst: NodeId, p: Path) {
    && Walk(g, src, p.edges, dst)
    && Visits(g, p.nodes, p.edges) && NoRepeats(p.nodes)
    && p.nodes[0] == src && p.nodes[|p.nodes| - 1] == dst
    && (forall id :: id in p.edges ==> id in g.edges)
    && p.links == LinksAlong(g, p.edges)
  }

  ghost predicate PathFrom(g: PceGraph, w: Weights, s: Labels, current: NodeId, dst: NodeId, p: Path) {
    && Walk(g, current, p.edges, dst)
    && (forall id :: id in p.edges ==> id in g.edges && id in w)
    && Visits(g, p.nodes, p.edges) && Increasing(s, p.nodes)
    && p.nodes[0] == current && p.nodes[|p.nodes| - 1] == dst
    && p.links == LinksAlong(g, p.edges)
    && Add(Dist(s, current), WalkCost(w, p.edges)) == Dist(s, dst)
  }

  lemma VisitsPrepend(g: PceGraph, id: PceEdgeId, nodes: seq<NodeId>, edges: seq<PceEdgeId>)
    requires Visits(g, nodes, edges)
    requires id in g.edges && g.edges[id].nodeTo == nodes[0]
    ensures Visits(g, [g.edges[id].nodeFrom] + nodes, [id] + edges)
  {
  }

  lemma IncreasingPrepend(s: Labels, n: NodeId, nodes: seq<NodeId>)
    requires nodes != [] && Increasing(s, nodes) && Less(Dist(s, n), Dist(s, nodes[0]))
    ensures Increasing(s, [n] + nodes)
  {
  }

  /** The predecessor of a reached node is strictly nearer to the source. */
  lemma Predecessor(g: PceGraph, w: Weights, src: NodeId, s: Labels, n: NodeId)
    requires Weighs(g, w) && DijkstraInv(g, w, src, s)
    requires n in g.nodes && n != src && Dist(s, n).Finite?
    ensures n in s.prev && s.prev[n] in g.edges && s.prev[n] in w
    ensures var e := g.edges[s.prev[n]];
            && e.nodeTo == n && e.nodeFrom in g.nodes
            && Dist(s, e.nodeFrom).Finite? && w[s.prev[n]].Finite?
            && Dist(s, n).v == Dist(s, e.nodeFrom).v + w[s.prev[n]].v
            && Less(Dist(s, e.nodeFrom), Dist(s, n))
  {
  }

  lemma StepBack(g: PceGraph, w: Weights, s: Labels, id: PceEdgeId, dst: NodeId, p: Path)
    requires Weighs(g, w) && id in g.edges
    requires PathFrom(g, w, s, g.edges[id].nodeTo, dst, p)
    requires g.edges[id].nodeFrom in g.nodes && Dist(s, g.edges[id].nodeTo) == Add(Dist(s, g.edges[id].nodeFrom), w[id])
    requires Less(Dist(s, g.edges[id].nodeFrom), Dist(s, g.edges[id].nodeTo))
    ensures PathFrom(g, w, s, g.edges[id].nodeFrom, dst,
                     Path([g.edges[id].nodeFrom] + p.nodes, [id] + p.edges, ReversedLinks(g.edges[id].realEdges) + p.links, 0.0, 0))
  {
    WalkPrepend(g, w, id, p.edges, dst);
    VisitsPrepend(g, id, p.nodes, p.edges);
    IncreasingPrepend(s, g.edges[id].nodeFrom, p.nodes);
    assert ([id] + p.edges)[1..] == p.edges;
  }

  lemma StartBack(g: PceGraph, w: Weights, s: Labels, dst: NodeId)
    requires dst in g.nodes && Dist(s, dst).Finite?
    ensures PathFrom(g, w, s, dst, dst, Path([dst], [], [], 0.0, 0))
  {
  }

  ghost function Nearer(g: PceGraph, s: Labels, n: NodeId): set<NodeId> {
    set m | m in g.nodes && Less(Dist(s, m), Dist(s, n))
  }

  lemma NearerShrinks(g: PceGraph, s: Labels, m: NodeId, n: NodeId)
    requires m in g.nodes && Less(Dist(s, m), Dist(s, n))
    ensures Nearer(g, s, m) < Nearer(g, s, n)
  {
    assert m in Nearer(g, s, n);
  }

  /** `reconstruct`: follow the predecessors back from `dst`. The source appends and reverses at
      the end; here each hop is put in front. */
  method Reconstruct(g: PceGraph, src: NodeId, dst: NodeId, s: Labels, ghost w: Weights) returns (p: Path)
    requires Weighs(g, w) && DijkstraInv(g, w, src, s)
    requires dst in g.nodes && Dist(s, dst).Finite?
    ensures SimplePath(g, src, dst, p)
    ensures forall id :: id in p.edges ==> id in w
    ensures WalkCost(w, p.edges) == Dist(s, dst)
  {
    var current := dst;
    p := Path([dst], [], [], 0.0, 0);
    StartBack(g, w, s, dst);
    while current != src
      invariant current in g.nodes && Dist(s, current).Finite?
      invariant PathFrom(g, w, s, current, dst, p)
      decreases Nearer(g, s, current)
    {
      Predecessor(g, w, src, s, current);
      var id := s.prev[current];
      var e := g.edges[id];
      StepBack(g, w, s, id, dst, p);
      NearerShrinks(g, s, e.nodeFrom, current);
      p := Path([e.nodeFrom] + p.nodes, [id] + p.edges, ReversedLinks(e.realEdges) + p.links, 0.0, 0);
      current := e.nodeFrom;
    }
    Arrived(g, w, src, dst, s, p);
  }

  lemma Arrived(g: PceGraph, w: Weights, src: NodeId, dst: NodeId, s: Labels, p: Path)
    requires PathFrom(g, w, s, src, dst, p) && Dist(s, src) == Finite(0.0)
    ensures SimplePath(g, src, dst, p)
    ensures WalkCost(w, p.edges) == Dist(s, dst)
  {
  }

  /** What a shortest-path computation promises: a simple path that no walk undercuts, and a
      failure exactly when an end is unknown or every walk costs infinity. */
  ghost predicate Shortest(g: PceGraph, w: Weights, src: NodeId, dst: NodeId, r: Result<Path>) {
    match r
    case Ok(p) =>
      && SimplePath(g, src, dst, p)
      && (forall id :: id in p.edges ==> id in w)
      && WalkCost(w, p.edges) == Finite(p.cost)
      && (forall q :: Walk(g, src, q, dst) ==>
           (forall id :: id in q ==> id in w) && AtMost(Finite(p.cost), WalkCost(w, q)))
    case Err(UnknownNode) => src !in g.nodes || dst !in g.nodes
    case Err(NoPath) =>
      && src in g.nodes && dst in g.nodes && src != dst
      && (forall q :: Walk(g, src, q, dst) ==>
           (forall id :: id in q ==> id in w) && WalkCost(w, q).Inf?)
  }

  lemma NothingUndercuts(g: PceGraph, w: Weights, src: NodeId, dst: NodeId, s: Labels)
    requires Weighs(g, w) && DijkstraInv(g, w, src, s) && src in s.visited && dst in g.nodes
    requires forall n :: n in g.nodes && n !in s.visited ==> AtMost(s.dist[dst], s.dist[n])
    ensures forall q :: Walk(g, src, q, dst) ==>
              (forall id :: id in q ==> id in w) && AtMost(s.dist[dst], WalkCost(w, q))
  {
    forall q | Walk(g, src, q, dst)
      ensures (forall id :: id in q ==> id in w) && AtMost(s.dist[dst], WalkCost(w, q))
    {
      WalkNotCheaper(g, w, src, s, q, dst, s.dist[dst]);
    }
  }

  lemma {:induction false} NonNegativeWalk(g: PceGraph, w: Weights, src: NodeId, q: seq<PceEdgeId>, b: NodeId)
    requires Weighs(g, w) && Walk(g, src, q, b)
    ensures forall id :: id in q ==> id in w
    ensures AtMost(Finite(0.0), WalkCost(w, q))
    ensures q != [] ==> AtMost(Finite(1.0), WalkCost(w, q))
    decreases |q|
  {
    WalkEdges(g, src, q, b);
    if q != [] {
      NonNegativeWalk(g, w, src, q[..|q| - 1], g.edges[q[|q| - 1]].nodeFrom);
    }
  }

  /** When the search stops, nothing unsettled is nearer than the destination. */
  lemma Done(g: PceGraph, w: Weights, src: NodeId, dst: NodeId, s: Labels, found: bool, current: NodeId)
    requires DijkstraInv(g, w, src, s) && dst in g.nodes && dst !in s.visited && src != dst
    requires found ==> current == dst && s.dist[dst].Finite?
    requires found ==> forall n :: n in g.nodes && n !in s.visited ==> AtMost(s.dist[dst], s.dist[n])
    requires !found ==> forall n :: n in g.nodes && n !in s.visited ==> s.dist[n].Inf?
    ensures src in s.visited
    ensures forall n :: n in g.nodes && n !in s.visited ==> AtMost(s.dist[dst], s.dist[n])
  {
    assert Dist(s, dst) == s.dist[dst];
  }

  method Enumerate(s: set<NodeId>) returns (q: seq<NodeId>)
    ensures forall n :: n in q <==> n in s
  {
    q := [];
    var todo := s;
    while todo != {}
      invariant todo <= s
      invariant forall n :: n in q <==> n in s && n !in todo
    {
      var n :| n in todo;
      todo, q := todo - {n}, q + [n];
    }
  }

  lemma StayingIsShortest(g: PceGraph, w: Weights, src: NodeId)
    requires WellFormed(g) && Weighs(g, w) && src in g.nodes
    ensures Shortest(g, w, src, src, Ok(Path([src], [], [], 0.0, 0)))
  {
    forall q | Walk(g, src, q, src)
      ensures (forall id :: id in q ==> id in w) && AtMost(Finite(0.0), WalkCost(w, q))
    {
      NonNegativeWalk(g, w, src, q, src);
    }
  }

  lemma NoWayThrough(g: PceGraph, w: Weights, src: NodeId, dst: NodeId, s: Labels)
    requires src in g.nodes && dst in g.nodes && src != dst && dst in s.dist && s.dist[dst].Inf?
    requires forall q :: Walk(g, src, q, dst) ==> (forall id :: id in q ==> id in w) && AtMost(s.dist[dst], WalkCost(w, q))
    ensures Shortest(g, w, src, dst, Err(NoPath))
  {
    forall q | Walk(g, src, q, dst)
      ensures (forall id :: id in q ==> id in w) && WalkCost(w, q).Inf?
    {
    }
  }

  lemma FoundIsShortest(g: PceGraph, w: Weights, src: NodeId, dst: NodeId, cost: real, p: Path)
    requires SimplePath(g, src, dst, p) && (forall id :: id in p.edges ==> id in w) && WalkCost(w, p.edges) == Finite(cost)
    requires forall q :: Walk(g, src, q, dst) ==> (forall id :: id in q ==> id in w) && AtMost(Finite(cost), WalkCost(w, q))
    ensures Shortest(g, w, src, dst, Ok(p.(cost := cost)))
  {
    var r := p.(cost := cost);
    assert SimplePath(g, src, dst, r);
  }

  /** The search loop of `computePath`: it stops once nothing unsettled is nearer than `dst`. */
  method Search(g: PceGraph, w: Weights, src: NodeId, dst: NodeId) returns (s: Labels)
    requires WellFormed(g) && Weighs(g, w) && src in g.nodes && dst in g.nodes && src != dst
    ensures DijkstraInv(g, w, src, s) && src in s.visited
    ensures forall n :: n in g.nodes && n !in s.visited ==> AtMost(s.dist[dst], s.dist[n])
  {
    var nodes := Enumerate(g.nodes);
    s := Labels(map n | n in g.nodes :: if n == src then Finite(0.0) else Inf, map[], {});
    while true
      invariant DijkstraInv(g, w, src, s)
      invariant dst !in s.visited
      decreases g.nodes - s.visited
    {
      var found, current := Nearest(nodes, s);
      if !found || current == dst {
        Done(g, w, src, dst, s, found, current);
        break;
      }
      SettleNearest(g, w, src, s, current);
      s := s.(visited := s.visited + {current});
      s := RelaxAll(g, w, src, s, current);
    }
  }

  /** `computePath`. */
  method ComputePath(g: PceGraph, w: Weights, src: NodeId, dst: NodeId) returns (r: Result<Path>)
    requires WellFormed(g) && Weighs(g, w)
    ensures Shortest(g, w, src, dst, r)
  {
    if src !in g.nodes || dst !in g.nodes {
      return Err(UnknownNode);
    }
    if src == dst {
      StayingIsShortest(g, w, src);
      return Ok(Path([src], [], [], 0.0, 0));
    }
    var s := Search(g, w, src, dst);
    NothingUndercuts(g, w, src, dst, s);
    if s.dist[dst].Inf? {
      NoWayThrough(g, w, src, dst, s);
      return Err(NoPath);
    }
    var p := Reconstruct(g, src, dst, s, w);
    FoundIsShortest(g, w, src, dst, s.dist[dst].v, p);
    r := Ok(p.(cost := s.dist[dst].v));
  }
}
