/** Identifiers, links and the graph the path computation element works on. */
module Topology {

  type NodeId = string
  type LinkId = string
  type TenantId = int

  /** The label of a traffic class; it becomes the color of the route on the wire. */
  type Color = nat

  datatype Option<+T> = None | Some(value: T)

  function Min(a: real, b: real): real {
    if a <= b then a else b
  }

  lemma SomeMember<T>(s: set<T>) returns (x: T)
    requires s != {}
    ensures x in s
  {
    x :| x in s;
  }

  /** `BandwidthReservationKey`: one direction between two PoPs for one traffic class. */
  datatype FlowKey = FlowKey(source: NodeId, sink: NodeId, color: Color)

  /** `PathKey`: a flow of one tenant. */
  datatype PathKey = PathKey(tenant: TenantId, flow: FlowKey)

  /** A directed physical link. Whether it is up is kept apart from it, in the state of a run. */
  datatype Edge = Edge(id: LinkId, local: NodeId, remote: NodeId, bandwidth: real)

  datatype PceEdgeId = PceEdgeId(from: NodeId, to: NodeId, link: LinkId)

  /** A logical edge over one or more physical links. */
  datatype PceEdge = PceEdge(id: PceEdgeId, nodeFrom: NodeId, nodeTo: NodeId, realEdges: seq<Edge>)

  datatype PceGraph = PceGraph(nodes: set<NodeId>, edges: map<PceEdgeId, PceEdge>, adj: map<NodeId, seq<PceEdgeId>>)

  function Smallest(edges: seq<Edge>): (m: real)
    requires edges != []
    ensures forall e :: e in edges ==> m <= e.bandwidth
    ensures exists e :: e in edges && m == e.bandwidth
  {
    if |edges| == 1 then edges[0].bandwidth
    else Min(edges[0].bandwidth, Smallest(edges[1..]))
  }

  /** Members of a bundle share traffic equally, so the smallest one limits them all. */
  function Capacity(e: PceEdge): real {
    if e.realEdges == [] then 0.0 else |e.realEdges| as real * Smallest(e.realEdges)
  }

  /** The capacity is what all members carry together when each carries the most that every one can. */
  lemma CapacityIsEqualShare(e: PceEdge, share: real, together: real)
    requires e.realEdges != [] && together == |e.realEdges| as real * share
    ensures together <= Capacity(e) <==> forall m :: m in e.realEdges ==> share <= m.bandwidth
  {
    ScaleKeepsOrder(|e.realEdges| as real, share, Smallest(e.realEdges), together, Capacity(e));
  }

  lemma ScaleKeepsOrder(n: real, a: real, b: real, na: real, nb: real)
    requires n > 0.0 && na == n * a && nb == n * b
    ensures na <= nb <==> a <= b
  {
    assert n * (b - a) == nb - na;
  }

  const CAPACITY_HEADROOM := 0.05

  function Bookable(e: PceEdge): real {
    Capacity(e) * (1.0 - CAPACITY_HEADROOM)
  }

  function LinkEdgeId(e: Edge): PceEdgeId {
    PceEdgeId(e.local, e.remote, e.id)
  }

  function LinkEdge(e: Edge): PceEdge {
    PceEdge(LinkEdgeId(e), e.local, e.remote, [e])
  }

  predicate OnceEach(ids: seq<PceEdgeId>) {
    forall i, j :: 0 <= i < j < |ids| ==> ids[i] != ids[j]
  }

  /** Every edge is filed under its own identifier, and each node lists exactly the edges that leave
      it, once each. */
  ghost predicate WellFormed(g: PceGraph) {
    && (forall id :: id in g.edges ==> g.edges[id].id == id)
    && (forall id :: id in g.edges ==> var n := g.edges[id].nodeFrom; n in g.adj && id in g.adj[n])
    && (forall n, id :: n in g.adj && id in g.adj[n] ==> id in g.edges && g.edges[id].nodeFrom == n)
    && (forall n :: n in g.adj ==> OnceEach(g.adj[n]))
  }

  /** Links filed under their own identifier, as the topology loader builds them. */
  ghost predicate ValidLinks(links: map<LinkId, Edge>) {
    forall id :: id in links ==> links[id].id == id
  }

  /** The edges of the graph are exactly the links that are up. */
  ghost predicate HoldsUpLinks(g: PceGraph, links: map<LinkId, Edge>, up: set<LinkId>) {
    && (forall id :: id in links && id in up ==>
         LinkEdgeId(links[id]) in g.edges && g.edges[LinkEdgeId(links[id])] == LinkEdge(links[id]))
    && (forall p :: p in g.edges ==>
         p.link in links && p.link in up && g.edges[p] == LinkEdge(links[p.link]))
  }

  /** `NewPCEGraph`: links that are down are left out. The links are visited in any order. */
  method NewPceGraph(nodes: set<NodeId>, links: map<LinkId, Edge>, up: set<LinkId>) returns (g: PceGraph)
    requires ValidLinks(links)
    ensures g.nodes == nodes
    ensures WellFormed(g)
    ensures HoldsUpLinks(g, links, up)
  {
    g := PceGraph(nodes, map[], map[]);
    var todo := links.Keys;
    while todo != {}
      invariant todo <= links.Keys
      invariant g.nodes == nodes
      invariant WellFormed(g)
      invariant forall id :: id in links && id !in todo && id in up ==>
        LinkEdgeId(links[id]) in g.edges && g.edges[LinkEdgeId(links[id])] == LinkEdge(links[id])
      invariant forall p :: p in g.edges ==>
        p.link in links && p.link !in todo && p.link in up && g.edges[p] == LinkEdge(links[p.link])
    {
      var id :| id in todo;
      if id in up {
        OneMoreEdge(g, links[id]);
        g := WithEdge(g, links[id]);
      }
      todo := todo - {id};
    }
  }

  function WithEdge(g: PceGraph, e: Edge): PceGraph {
    var listed := if e.local in g.adj then g.adj[e.local] else [];
    PceGraph(g.nodes, g.edges[LinkEdgeId(e) := LinkEdge(e)], g.adj[e.local := listed + [LinkEdgeId(e)]])
  }

  lemma OneMoreEdge(g: PceGraph, e: Edge)
    requires WellFormed(g) && LinkEdgeId(e) !in g.edges
    ensures WellFormed(WithEdge(g, e))
  {
    var r, p := WithEdge(g, e), LinkEdgeId(e);
    var listed := if e.local in g.adj then g.adj[e.local] else [];
    assert p !in listed && OnceEach(listed);
    forall n | n in r.adj
      ensures OnceEach(r.adj[n])
      ensures forall id :: id in r.adj[n] ==> id in r.edges && r.edges[id].nodeFrom == n
    {
      if n == e.local {
        assert forall id :: id in r.adj[n] ==> id in listed || id == p;
      } else {
        assert r.adj[n] == g.adj[n] && p !in g.adj[n];
      }
    }
    forall id | id in r.edges
      ensures r.edges[id].id == id
      ensures var n := r.edges[id].nodeFrom; n in r.adj && id in r.adj[n]
    {
      assert id == p || r.edges[id] == g.edges[id];
    }
  }

  /** A link edge can carry 95% of its link. */
  lemma BookableOfLink(e: Edge)
    ensures Bookable(LinkEdge(e)) == e.bandwidth * (1.0 - CAPACITY_HEADROOM)
  {
  }
}
