/** The hose model: a tenant contracts, per PoP and traffic class, how much it may send and receive.
    This module defines what a set of flows sharing a link must reserve, and proves that the
    reservation covers every traffic matrix the contracts allow. */
module Hose {
  import opened FiniteSums
  import opened Topology

  type Contract = (TenantId, NodeId, Color) -> real

  datatype Hose = Hose(send: Contract, recv: Contract)

  ghost predicate NonNegative(h: Hose) {
    && (forall t, p, l :: h.send(t, p, l) >= 0.0)
    && (forall t, p, l :: h.recv(t, p, l) >= 0.0)
  }

  ghost function Colors(flows: set<FlowKey>): set<Color> {
    set k | k in flows :: k.color
  }

  ghost function Sources(flows: set<FlowKey>, l: Color): set<NodeId> {
    set k | k in flows && k.color == l :: k.source
  }

  ghost function Sinks(flows: set<FlowKey>, l: Color): set<NodeId> {
    set k | k in flows && k.color == l :: k.sink
  }

  ghost function SendSum(h: Hose, t: TenantId, flows: set<FlowKey>, l: Color): real {
    Sum(Sources(flows, l), p => h.send(t, p, l))
  }

  ghost function RecvSum(h: Hose, t: TenantId, flows: set<FlowKey>, l: Color): real {
    Sum(Sinks(flows, l), p => h.recv(t, p, l))
  }

  ghost function ColorReserve(h: Hose, t: TenantId, flows: set<FlowKey>, l: Color): real {
    Min(SendSum(h, t, flows, l), RecvSum(h, t, flows, l))
  }

  /** What one tenant's flows over a link reserve: per class, the smaller of what the sources
      can send and what the sinks can take. */
  ghost function TenantReserve(h: Hose, t: TenantId, flows: set<FlowKey>): real {
    Sum(Colors(flows), l => ColorReserve(h, t, flows, l))
  }

  ghost function TenantsOf(booked: set<PathKey>): set<TenantId> {
    set k | k in booked :: k.tenant
  }

  ghost function FlowsOf(booked: set<PathKey>, t: TenantId): set<FlowKey> {
    set k | k in booked && k.tenant == t :: k.flow
  }

  /** The load that a set of booked paths puts on a link. */
  ghost function Load(h: Hose, booked: set<PathKey>): real {
    Sum(TenantsOf(booked), t => TenantReserve(h, t, FlowsOf(booked, t)))
  }

  // ---------- Reserving for more flows never reserves less ----------

  lemma ColorReserveMonotone(h: Hose, t: TenantId, a: set<FlowKey>, b: set<FlowKey>, l: Color)
    requires NonNegative(h) && a <= b
    ensures 0.0 <= ColorReserve(h, t, a, l) <= ColorReserve(h, t, b, l)
  {
    SumNonNegative(Sources(a, l), p => h.send(t, p, l));
    SumNonNegative(Sinks(a, l), p => h.recv(t, p, l));
    SumSubset(Sources(a, l), Sources(b, l), p => h.send(t, p, l));
    SumSubset(Sinks(a, l), Sinks(b, l), p => h.recv(t, p, l));
  }

  lemma TenantReserveMonotone(h: Hose, t: TenantId, a: set<FlowKey>, b: set<FlowKey>)
    requires NonNegative(h) && a <= b
    ensures 0.0 <= TenantReserve(h, t, a) <= TenantReserve(h, t, b)
  {
    var fa := (l: Color) => ColorReserve(h, t, a, l);
    var fb := (l: Color) => ColorReserve(h, t, b, l);
    forall l: Color
      ensures 0.0 <= fa(l) <= fb(l)
    {
      ColorReserveMonotone(h, t, a, b, l);
    }
    SumNonNegative(Colors(a), fa);
    SumMonotone(Colors(a), fa, fb);
    SumSubset(Colors(a), Colors(b), fb);
  }

  /** Releasing a reservation never raises the load of a link. */
  lemma LoadMonotone(h: Hose, a: set<PathKey>, b: set<PathKey>)
    requires NonNegative(h) && a <= b
    ensures 0.0 <= Load(h, a) <= Load(h, b)
  {
    var fa := (t: TenantId) => TenantReserve(h, t, FlowsOf(a, t));
    var fb := (t: TenantId) => TenantReserve(h, t, FlowsOf(b, t));
    forall t: TenantId
      ensures 0.0 <= fa(t) <= fb(t)
    {
      TenantReserveMonotone(h, t, FlowsOf(a, t), FlowsOf(b, t));
    }
    SumNonNegative(TenantsOf(a), fa);
    SumMonotone(TenantsOf(a), fa, fb);
    SumSubset(TenantsOf(a), TenantsOf(b), fb);
  }

  // ---------- Hose soundness ----------

  ghost function Leaving(flows: set<FlowKey>, p: NodeId, l: Color): set<FlowKey> {
    set k | k in flows && k.source == p && k.color == l
  }

  ghost function Entering(flows: set<FlowKey>, p: NodeId, l: Color): set<FlowKey> {
    set k | k in flows && k.sink == p && k.color == l
  }

  /** Traffic `m` of tenant `t` respects the contract at every PoP and in every class. */
  ghost predicate Within(h: Hose, t: TenantId, flows: set<FlowKey>, m: FlowKey -> real) {
    && (forall k :: k in flows ==> m(k) >= 0.0)
    && (forall p, l :: Sum(Leaving(flows, p, l), m) <= h.send(t, p, l))
    && (forall p, l :: Sum(Entering(flows, p, l), m) <= h.recv(t, p, l))
  }

  lemma WithinSubset(h: Hose, t: TenantId, a: set<FlowKey>, b: set<FlowKey>, m: FlowKey -> real)
    requires a <= b && Within(h, t, b, m)
    ensures Within(h, t, a, m)
  {
    forall p, l
      ensures Sum(Leaving(a, p, l), m) <= h.send(t, p, l)
    {
      SumSubset(Leaving(a, p, l), Leaving(b, p, l), m);
    }
    forall p, l
      ensures Sum(Entering(a, p, l), m) <= h.recv(t, p, l)
    {
      SumSubset(Entering(a, p, l), Entering(b, p, l), m);
    }
  }

  ghost function OfColor(flows: set<FlowKey>, l: Color): set<FlowKey> {
    set k | k in flows && k.color == l
  }

  lemma ColorBoundBySend(h: Hose, t: TenantId, flows: set<FlowKey>, l: Color, m: FlowKey -> real)
    requires Within(h, t, flows, m)
    ensures Sum(OfColor(flows, l), m) <= SendSum(h, t, flows, l)
  {
    var c := OfColor(flows, l);
    var key := (k: FlowKey) => k.source;
    var part := (p: NodeId) => Sum(Fiber(c, key, p), m);
    var bound := (p: NodeId) => h.send(t, p, l);
    SumPartition(c, key, m, part);
    assert Image(c, key) == Sources(flows, l) by {
      forall p | p in Sources(flows, l)
        ensures p in Image(c, key)
      {
        var k :| k in flows && k.color == l && k.source == p;
        assert k in c;
      }
    }
    forall p | p in Image(c, key)
      ensures part(p) <= bound(p)
    {
      assert Fiber(c, key, p) == Leaving(flows, p, l);
    }
    SumMonotone(Image(c, key), part, bound);
  }

  lemma ColorBoundByRecv(h: Hose, t: TenantId, flows: set<FlowKey>, l: Color, m: FlowKey -> real)
    requires Within(h, t, flows, m)
    ensures Sum(OfColor(flows, l), m) <= RecvSum(h, t, flows, l)
  {
    var c := OfColor(flows, l);
    var key := (k: FlowKey) => k.sink;
    var part := (p: NodeId) => Sum(Fiber(c, key, p), m);
    var bound := (p: NodeId) => h.recv(t, p, l);
    SumPartition(c, key, m, part);
    assert Image(c, key) == Sinks(flows, l) by {
      forall p | p in Sinks(flows, l)
        ensures p in Image(c, key)
      {
        var k :| k in flows && k.color == l && k.sink == p;
        assert k in c;
      }
    }
    forall p | p in Image(c, key)
      ensures part(p) <= bound(p)
    {
      assert Fiber(c, key, p) == Entering(flows, p, l);
    }
    SumMonotone(Image(c, key), part, bound);
  }

  lemma TenantBound(h: Hose, t: TenantId, flows: set<FlowKey>, m: FlowKey -> real)
    requires Within(h, t, flows, m)
    ensures Sum(flows, m) <= TenantReserve(h, t, flows)
  {
    var key := (k: FlowKey) => k.color;
    var part := (l: Color) => Sum(Fiber(flows, key, l), m);
    var bound := (l: Color) => ColorReserve(h, t, flows, l);
    SumPartition(flows, key, m, part);
    assert Image(flows, key) == Colors(flows);
    forall l | l in Colors(flows)
      ensures part(l) <= bound(l)
    {
      assert Fiber(flows, key, l) == OfColor(flows, l);
      ColorBoundBySend(h, t, flows, l, m);
      ColorBoundByRecv(h, t, flows, l, m);
    }
    SumMonotone(Colors(flows), part, bound);
  }

  ghost function Restrict(m: PathKey -> real, t: TenantId): FlowKey -> real {
    k => m(PathKey(t, k))
  }

  /** A traffic matrix over the placed paths that every tenant's contract allows. */
  ghost predicate Admissible(h: Hose, placed: set<PathKey>, m: PathKey -> real) {
    forall t :: Within(h, t, FlowsOf(placed, t), Restrict(m, t))
  }

  ghost function OfTenant(booked: set<PathKey>, t: TenantId): set<PathKey> {
    set k | k in booked && k.tenant == t
  }

  lemma TenantTraffic(booked: set<PathKey>, t: TenantId, m: PathKey -> real)
    ensures Sum(OfTenant(booked, t), m) == Sum(FlowsOf(booked, t), Restrict(m, t))
  {
    var wrap := (k: FlowKey) => PathKey(t, k);
    assert Image(FlowsOf(booked, t), wrap) == OfTenant(booked, t) by {
      forall k | k in OfTenant(booked, t)
        ensures k in Image(FlowsOf(booked, t), wrap)
      {
        assert k.flow in FlowsOf(booked, t) && wrap(k.flow) == k;
      }
    }
    SumRename(FlowsOf(booked, t), wrap, m, Restrict(m, t));
  }

  /** Hose soundness: whatever the tenants send within their contracts, the traffic that crosses
      a link is at most the load computed for the paths booked on it. */
  lemma HoseCoversTraffic(h: Hose, placed: set<PathKey>, booked: set<PathKey>, m: PathKey -> real)
    requires booked <= placed
    requires Admissible(h, placed, m)
    ensures Sum(booked, m) <= Load(h, booked)
  {
    var key := (k: PathKey) => k.tenant;
    var part := (t: TenantId) => Sum(Fiber(booked, key, t), m);
    var bound := (t: TenantId) => TenantReserve(h, t, FlowsOf(booked, t));
    SumPartition(booked, key, m, part);
    assert Image(booked, key) == TenantsOf(booked);
    forall t | t in TenantsOf(booked)
      ensures part(t) <= bound(t)
    {
      assert Fiber(booked, key, t) == OfTenant(booked, t);
      TenantTraffic(booked, t, m);
      assert FlowsOf(booked, t) <= FlowsOf(placed, t);
      WithinSubset(h, t, FlowsOf(booked, t), FlowsOf(placed, t), Restrict(m, t));
      TenantBound(h, t, FlowsOf(booked, t), Restrict(m, t));
    }
    SumMonotone(TenantsOf(booked), part, bound);
  }
}
