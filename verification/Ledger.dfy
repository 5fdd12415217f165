/** The bandwidth reservation registry: which flows are booked on which edges, and how much
    that reserves. */
module Ledger {
  import opened FiniteSums
  import opened Topology
  import opened Hose

  datatype Reservation = Reservation(key: FlowKey, source: real, sink: real)

  type Entry = map<FlowKey, Reservation>
  type Bookings = map<TenantId, Entry>
  type Registry = map<PceEdgeId, Bookings>

  // ---------- What a registry says ----------

  function Lookup(reg: Registry, e: PceEdgeId, k: PathKey): Option<Reservation> {
    if e in reg && k.tenant in reg[e] && k.flow in reg[e][k.tenant]
    then Some(reg[e][k.tenant][k.flow])
    else None
  }

  ghost function BookedIn(b: Bookings): set<PathKey> {
    set t, f | t in b && f in b[t] :: PathKey(t, f)
  }

  ghost function Booked(reg: Registry, e: PceEdgeId): set<PathKey> {
    if e in reg then BookedIn(reg[e]) else {}
  }

  lemma BookedIffFound(reg: Registry, e: PceEdgeId, k: PathKey)
    ensures k in Booked(reg, e) <==> Lookup(reg, e, k).Some?
  {
  }

  /** Emptied tenants and edges do not linger. */
  ghost predicate NoEmpties(reg: Registry) {
    forall e :: e in reg ==> reg[e] != map[] && forall t :: t in reg[e] ==> reg[e][t] != map[]
  }

  ghost predicate Agrees(h: Hose, t: TenantId, r: Reservation) {
    && r.source == h.send(t, r.key.source, r.key.color)
    && r.sink == h.recv(t, r.key.sink, r.key.color)
  }

  /** Every reservation is filed under its own key and states the contract's bandwidth, so two
      reservations that share a PoP and a class cannot disagree about it. */
  ghost predicate EntryConsistent(h: Hose, t: TenantId, entry: Entry) {
    forall k :: k in entry ==> entry[k].key == k && Agrees(h, t, entry[k])
  }

  ghost predicate BookingsConsistent(h: Hose, b: Bookings) {
    forall t :: t in b ==> EntryConsistent(h, t, b[t])
  }

  ghost predicate Consistent(h: Hose, reg: Registry) {
    forall e :: e in reg ==> BookingsConsistent(h, reg[e])
  }

  // ---------- Hose sums of one tenant on one edge ----------

  /** One side of `getBandwidthSums`: the sums per label and the (PoP, label) pairs counted so far. */
  datatype Tally = Tally(sums: map<Color, real>, seen: set<(NodeId, Color)>)

  function At(m: map<Color, real>, l: Color): real {
    if l in m then m[l] else 0.0
  }

  function Count(y: Tally, pop: NodeId, l: Color, mbps: real): Tally {
    if (pop, l) in y.seen then y
    else Tally(y.sums[l := At(y.sums, l) + mbps], y.seen + {(pop, l)})
  }

  ghost predicate SourcesTallied(h: Hose, t: TenantId, done: set<FlowKey>, y: Tally) {
    && y.sums.Keys == Colors(done)
    && (forall p, l: Color :: (p, l) in y.seen <==> p in Sources(done, l))
    && (forall l: Color :: At(y.sums, l) == SendSum(h, t, done, l))
  }

  ghost predicate SinksTallied(h: Hose, t: TenantId, done: set<FlowKey>, y: Tally) {
    && y.sums.Keys == Colors(done)
    && (forall p, l: Color :: (p, l) in y.seen <==> p in Sinks(done, l))
    && (forall l: Color :: At(y.sums, l) == RecvSum(h, t, done, l))
  }

  lemma NothingTallied(h: Hose, t: TenantId)
    ensures SourcesTallied(h, t, {}, Tally(map[], {}))
    ensures SinksTallied(h, t, {}, Tally(map[], {}))
  {
  }

  lemma SendSumAdd(h: Hose, t: TenantId, done: set<FlowKey>, k: FlowKey, l: Color)
    ensures SendSum(h, t, done + {k}, l) ==
            SendSum(h, t, done, l) +
            (if k.color == l && k.source !in Sources(done, l) then h.send(t, k.source, l) else 0.0)
  {
    if k.color == l && k.source !in Sources(done, l) {
      assert Sources(done + {k}, l) == Sources(done, l) + {k.source};
      SumAdd(Sources(done, l), k.source, p => h.send(t, p, l));
    } else {
      assert Sources(done + {k}, l) == Sources(done, l);
    }
  }

  lemma RecvSumAdd(h: Hose, t: TenantId, done: set<FlowKey>, k: FlowKey, l: Color)
    ensures RecvSum(h, t, done + {k}, l) ==
            RecvSum(h, t, done, l) +
            (if k.color == l && k.sink !in Sinks(done, l) then h.recv(t, k.sink, l) else 0.0)
  {
    if k.color == l && k.sink !in Sinks(done, l) {
      assert Sinks(done + {k}, l) == Sinks(done, l) + {k.sink};
      SumAdd(Sinks(done, l), k.sink, p => h.recv(t, p, l));
    } else {
      assert Sinks(done + {k}, l) == Sinks(done, l);
    }
  }

  lemma CountSource(h: Hose, t: TenantId, done: set<FlowKey>, y: Tally, k: FlowKey)
    requires SourcesTallied(h, t, done, y)
    ensures SourcesTallied(h, t, done + {k}, Count(y, k.source, k.color, h.send(t, k.source, k.color)))
  {
    var y' := Count(y, k.source, k.color, h.send(t, k.source, k.color));
    assert Colors(done + {k}) == Colors(done) + {k.color};
    forall l: Color
      ensures At(y'.sums, l) == SendSum(h, t, done + {k}, l)
    {
      SendSumAdd(h, t, done, k, l);
    }
  }

  lemma CountSink(h: Hose, t: TenantId, done: set<FlowKey>, y: Tally, k: FlowKey)
    requires SinksTallied(h, t, done, y)
    ensures SinksTallied(h, t, done + {k}, Count(y, k.sink, k.color, h.recv(t, k.sink, k.color)))
  {
    var y' := Count(y, k.sink, k.color, h.recv(t, k.sink, k.color));
    assert Colors(done + {k}) == Colors(done) + {k.color};
    forall l: Color
      ensures At(y'.sums, l) == RecvSum(h, t, done + {k}, l)
    {
      RecvSumAdd(h, t, done, k, l);
    }
  }

  /** `getBandwidthSums`: the reservations are visited in any order and only the first one seen
      for a (PoP, label) pair is counted. */
  method GetBandwidthSums(entry: Entry, ghost h: Hose, ghost t: TenantId) returns (sources: Tally, sinks: Tally)
    requires EntryConsistent(h, t, entry)
    ensures SourcesTallied(h, t, entry.Keys, sources)
    ensures SinksTallied(h, t, entry.Keys, sinks)
  {
    sources, sinks := Tally(map[], {}), Tally(map[], {});
    NothingTallied(h, t);
    var todo := entry.Keys;
    ghost var done: set<FlowKey> := {};
    while todo != {}
      invariant done !! todo && done + todo == entry.Keys
      invariant SourcesTallied(h, t, done, sources)
      invariant SinksTallied(h, t, done, sinks)
    {
      var k :| k in todo;
      var r := entry[k];
      CountSource(h, t, done, sources, k);
      CountSink(h, t, done, sinks, k);
      sources := Count(sources, r.key.source, r.key.color, r.source);
      sinks := Count(sinks, r.key.sink, r.key.color, r.sink);
      todo, done := todo - {k}, done + {k};
    }
    assert done == entry.Keys;
  }

  /** `CalculateReservedBandwidth`. */
  method CalculateReservedBandwidth(entry: Entry, ghost h: Hose, ghost t: TenantId) returns (total: real)
    requires EntryConsistent(h, t, entry)
    ensures total == TenantReserve(h, t, entry.Keys)
  {
    var sources, sinks := GetBandwidthSums(entry, h, t);
    ghost var f := (l: Color) => ColorReserve(h, t, entry.Keys, l);
    assert forall l: Color :: Min(At(sources.sums, l), At(sinks.sums, l)) == f(l);
    total := SumOfMins(sources.sums, sinks.sums, f);
  }

  method SumOfMins(sources: map<Color, real>, sinks: map<Color, real>, ghost f: Color -> real) returns (total: real)
    requires forall l: Color :: Min(At(sources, l), At(sinks, l)) == f(l)
    ensures total == Sum(sources.Keys, f)
  {
    total := 0.0;
    var todo := sources.Keys;
    ghost var done: set<Color> := {};
    while todo != {}
      invariant done !! todo && done + todo == sources.Keys
      invariant total == Sum(done, f)
    {
      var l :| l in todo;
      SumAdd(done, l, f);
      total := total + Min(sources[l], At(sinks, l));
      todo, done := todo - {l}, done + {l};
    }
    assert done == sources.Keys;
  }

  // ---------- Load of an edge ----------

  ghost function OfTenants(s: set<PathKey>, ts: set<TenantId>): set<PathKey> {
    set k | k in s && k.tenant in ts
  }

  lemma TenantReserveEmpty(h: Hose, t: TenantId)
    ensures TenantReserve(h, t, {}) == 0.0
  {
    assert Colors({}) == {};
  }

  /** Adding one whole tenant to a set of bookings adds that tenant's reserve to the load. */
  lemma LoadAddTenant(h: Hose, s: set<PathKey>, t: TenantId, flows: set<FlowKey>, s': set<PathKey>)
    requires forall k :: k in s ==> k.tenant != t
    requires s' == s + set f | f in flows :: PathKey(t, f)
    ensures Load(h, s') == Load(h, s) + TenantReserve(h, t, flows)
  {
    if flows == {} {
      TenantReserveEmpty(h, t);
      assert s' == s;
    } else {
      var g := (u: TenantId) => TenantReserve(h, u, FlowsOf(s', u));
      var f := (u: TenantId) => TenantReserve(h, u, FlowsOf(s, u));
      var some :| some in flows;
      assert PathKey(t, some) in s';
      assert FlowsOf(s', t) == flows by {
        forall x | x in flows ensures x in FlowsOf(s', t) { assert PathKey(t, x) in s'; }
      }
      SumTake(TenantsOf(s'), t, g);
      assert TenantsOf(s') - {t} == TenantsOf(s);
      forall u | u in TenantsOf(s)
        ensures g(u) == f(u)
      {
        assert FlowsOf(s', u) == FlowsOf(s, u);
      }
      SumSame(TenantsOf(s), g, f);
    }
  }
}
