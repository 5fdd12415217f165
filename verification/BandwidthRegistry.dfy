/** `BandwidthReservationRegistry`: admission, release and pruning over the booked edges. */
module BandwidthRegistry {
  import opened Topology
  import opened Hose
  import opened Ledger

  ghost function Replaced(s: set<PathKey>, k: PathKey, keep: bool): set<PathKey> {
    if keep then s + {k} else s - {k}
  }

  ghost function OtherTenants(b: Bookings, tenant: TenantId, todo: set<TenantId>): set<PathKey> {
    set k | k in BookedIn(b) && k.tenant !in todo && k.tenant != tenant
  }

  /** `loadExcluding`: the load of an edge once `key` of `tenant` is taken off it and, when
      given, `with` is put on it. An edge without bookings is passed as the empty map. */
  method LoadExcluding(b: Bookings, tenant: TenantId, key: FlowKey, with: Option<Reservation>, ghost h: Hose)
    returns (load: real)
    requires BookingsConsistent(h, b)
    requires with.Some? ==> with.value.key == key && Agrees(h, tenant, with.value)
    ensures load == Load(h, Replaced(BookedIn(b), PathKey(tenant, key), with.Some?))
  {
    var rest: Entry := if with.Some? then map[key := with.value] else map[];
    load := 0.0;
    var todo := b.Keys;
    while todo != {}
      invariant todo <= b.Keys
      invariant load == Load(h, OtherTenants(b, tenant, todo))
      invariant EntryConsistent(h, tenant, rest)
      invariant forall f :: f in rest <==>
        if f == key then with.Some? else tenant in b && tenant !in todo && f in b[tenant]
    {
      ghost var some := SomeMember(todo);
      var t :| t in todo;
      OthersStep(h, b, tenant, todo, t);
      if t != tenant {
        var reserved := CalculateReservedBandwidth(b[t], h, t);
        load := load + reserved;
      } else {
        rest := (b[t] - {key}) + rest;
      }
      todo := todo - {t};
    }
    var reserved := CalculateReservedBandwidth(rest, h, tenant);
    OthersDone(h, b, PathKey(tenant, key), with.Some?, rest.Keys);
    load := load + reserved;
  }

  lemma OthersStep(h: Hose, b: Bookings, tenant: TenantId, todo: set<TenantId>, t: TenantId)
    requires t in b && t in todo
    ensures Load(h, OtherTenants(b, tenant, todo - {t})) ==
            Load(h, OtherTenants(b, tenant, todo)) + (if t == tenant then 0.0 else TenantReserve(h, t, b[t].Keys))
  {
    var before, after := OtherTenants(b, tenant, todo), OtherTenants(b, tenant, todo - {t});
    if t == tenant {
      assert before == after;
    } else {
      assert after == before + set f | f in b[t].Keys :: PathKey(t, f);
      LoadAddTenant(h, before, t, b[t].Keys, after);
    }
  }

  lemma OthersDone(h: Hose, b: Bookings, k: PathKey, keep: bool, rest: set<FlowKey>)
    requires forall f :: f in rest <==> if f == k.flow then keep else k.tenant in b && f in b[k.tenant]
    ensures Load(h, Replaced(BookedIn(b), k, keep)) ==
            Load(h, OtherTenants(b, k.tenant, {})) + TenantReserve(h, k.tenant, rest)
  {
    var others, all := OtherTenants(b, k.tenant, {}), Replaced(BookedIn(b), k, keep);
    assert all == others + set f | f in rest :: PathKey(k.tenant, f) by {
      forall x | x in all
        ensures x in others + set f | f in rest :: PathKey(k.tenant, f)
      {
        if x.tenant == k.tenant {
          assert x.flow in rest && x == PathKey(k.tenant, x.flow);
        }
      }
    }
    LoadAddTenant(h, others, k.tenant, rest, all);
  }

  lemma ServedTenant(h: Hose, b: Bookings, todo: set<TenantId>, t: TenantId)
    requires t in b && t in todo
    ensures Load(h, OfTenants(BookedIn(b), b.Keys - (todo - {t}))) ==
            Load(h, OfTenants(BookedIn(b), b.Keys - todo)) + TenantReserve(h, t, b[t].Keys)
  {
    var before, after := OfTenants(BookedIn(b), b.Keys - todo), OfTenants(BookedIn(b), b.Keys - (todo - {t}));
    assert after == before + set f | f in b[t].Keys :: PathKey(t, f);
    LoadAddTenant(h, before, t, b[t].Keys, after);
  }

  /** `loadAndCapacity`: the load of an edge. */
  method EdgeLoad(b: Bookings, ghost h: Hose) returns (load: real)
    requires BookingsConsistent(h, b)
    ensures load == Load(h, BookedIn(b))
  {
    load := 0.0;
    var todo := b.Keys;
    assert OfTenants(BookedIn(b), b.Keys - todo) == {};
    while todo != {}
      invariant todo <= b.Keys
      invariant load == Load(h, OfTenants(BookedIn(b), b.Keys - todo))
    {
      ghost var some := SomeMember(todo);
      var t :| t in todo;
      var reserved := CalculateReservedBandwidth(b[t], h, t);
      ServedTenant(h, b, todo, t);
      load := load + reserved;
      todo := todo - {t};
    }
    assert OfTenants(BookedIn(b), b.Keys - {}) == BookedIn(b);
  }

  /** The candidate would fit on the edge. */
  ghost predicate Fits(h: Hose, reg: Registry, e: PceEdge, k: PathKey) {
    Load(h, Booked(reg, e.id) + {k}) <= Bookable(e)
  }

  /** The registry after moving `k`: it is booked on the edges of `to`, no longer on the edges of
      `from`, and nothing else has changed. */
  ghost predicate Moved(reg: Registry, reg': Registry, from: set<PceEdgeId>, to: set<PceEdgeId>, k: PathKey, r: Reservation) {
    forall e, k' :: Lookup(reg', e, k') ==
      if k' != k then Lookup(reg, e, k')
      else if e in to then Some(r)
      else if e in from then None
      else Lookup(reg, e, k')
  }

  function Unbook(reg: Registry, e: PceEdgeId, k: PathKey): Registry {
    if e !in reg then reg
    else
      var b := if k.tenant !in reg[e] then reg[e]
               else
                 var entry := reg[e][k.tenant] - {k.flow};
                 if entry == map[] then reg[e] - {k.tenant} else reg[e][k.tenant := entry];
      if b == map[] then reg - {e} else reg[e := b]
  }

  function Book(reg: Registry, e: PceEdgeId, k: PathKey, r: Reservation): Registry {
    var b := if e in reg then reg[e] else map[];
    var entry := if k.tenant in b then b[k.tenant] else map[];
    reg[e := b[k.tenant := entry[k.flow := r]]]
  }

  lemma UnbookEffect(reg: Registry, e: PceEdgeId, k: PathKey)
    ensures forall e', k' :: Lookup(Unbook(reg, e, k), e', k') == if e' == e && k' == k then None else Lookup(reg, e', k')
    ensures NoEmpties(reg) ==> NoEmpties(Unbook(reg, e, k))
  {
    var reg' := Unbook(reg, e, k);
    forall e', k'
      ensures Lookup(reg', e', k') == if e' == e && k' == k then None else Lookup(reg, e', k')
    {
      if e' == e && e in reg && k.tenant in reg[e] {
        var entry := reg[e][k.tenant] - {k.flow};
        var b := if entry == map[] then reg[e] - {k.tenant} else reg[e][k.tenant := entry];
        assert k'.flow in entry <==> k'.flow in reg[e][k.tenant] && k'.flow != k.flow;
        assert k'.tenant in b <==> k'.tenant in reg[e] && (k'.tenant != k.tenant || entry != map[]);
        assert if b == map[] then e !in reg' else reg'[e] == b;
      }
    }
  }

  lemma BookEffect(reg: Registry, e: PceEdgeId, k: PathKey, r: Reservation)
    ensures forall e', k' :: Lookup(Book(reg, e, k, r), e', k') == if e' == e && k' == k then Some(r) else Lookup(reg, e', k')
    ensures NoEmpties(reg) ==> NoEmpties(Book(reg, e, k, r))
  {
    var reg' := Book(reg, e, k, r);
    assert k.flow in reg'[e][k.tenant] && k.tenant in reg'[e];
  }

  lemma UnbookMoves(before: Registry, reg: Registry, from: set<PceEdgeId>, e: PceEdgeId, k: PathKey, r: Reservation)
    requires Moved(before, reg, from, {}, k, r)
    ensures Moved(before, Unbook(reg, e, k), from + {e}, {}, k, r)
    ensures NoEmpties(reg) ==> NoEmpties(Unbook(reg, e, k))
  {
    UnbookEffect(reg, e, k);
  }

  lemma BookMoves(before: Registry, reg: Registry, from: set<PceEdgeId>, to: set<PceEdgeId>, e: PceEdgeId, k: PathKey, r: Reservation)
    requires Moved(before, reg, from, to, k, r)
    ensures Moved(before, Book(reg, e, k, r), from, to + {e}, k, r)
    ensures NoEmpties(reg) ==> NoEmpties(Book(reg, e, k, r))
  {
    BookEffect(reg, e, k, r);
  }

  ghost function Elems<T>(s: seq<T>): set<T> {
    set x | x in s
  }

  ghost function Ids(edges: seq<PceEdge>): set<PceEdgeId> {
    set e | e in edges :: e.id
  }

  /** The removal loop of `Move`. */
  method Release(reg0: Registry, from: seq<PceEdgeId>, k: PathKey, ghost r: Reservation) returns (reg: Registry)
    ensures Moved(reg0, reg, Elems(from), {}, k, r)
    ensures NoEmpties(reg0) ==> NoEmpties(reg)
  {
    reg := reg0;
    var i := 0;
    while i < |from|
      invariant 0 <= i <= |from|
      invariant Moved(reg0, reg, Elems(from[..i]), {}, k, r)
      invariant NoEmpties(reg0) ==> NoEmpties(reg)
    {
      UnbookMoves(reg0, reg, Elems(from[..i]), from[i], k, r);
      assert Elems(from[..i + 1]) == Elems(from[..i]) + {from[i]};
      reg := Unbook(reg, from[i], k);
      i := i + 1;
    }
    assert from[..i] == from;
  }

  /** The booking loop of `Move`. */
  method BookAll(ghost reg0: Registry, released: Registry, ghost from: seq<PceEdgeId>, to: seq<PceEdge>, k: PathKey, r: Reservation)
    returns (reg: Registry)
    requires Moved(reg0, released, Elems(from), {}, k, r)
    ensures Moved(reg0, reg, Elems(from), Ids(to), k, r)
    ensures NoEmpties(released) ==> NoEmpties(reg)
  {
    reg := released;
    var i := 0;
    assert Ids(to[..i]) == {};
    while i < |to|
      invariant 0 <= i <= |to|
      invariant Moved(reg0, reg, Elems(from), Ids(to[..i]), k, r)
      invariant NoEmpties(released) ==> NoEmpties(reg)
    {
      BookMoves(reg0, reg, Elems(from), Ids(to[..i]), to[i].id, k, r);
      assert Ids(to[..i + 1]) == Ids(to[..i]) + {to[i].id};
      reg := Book(reg, to[i].id, k, r);
      i := i + 1;
    }
    assert to[..i] == to;
  }

  class BandwidthReservationRegistry {
    var registry: Registry

    constructor ()
      ensures registry == map[]
    {
      registry := map[];
    }

    /** `ReservedMap`: the load of every booked edge. */
    method ReservedMap(ghost h: Hose) returns (loads: map<PceEdgeId, real>)
      requires Consistent(h, registry)
      ensures loads.Keys == registry.Keys
      ensures forall e :: e in loads ==> loads[e] == Load(h, Booked(registry, e))
    {
      loads := map[];
      var todo := registry.Keys;
      while todo != {}
        invariant todo <= registry.Keys && loads.Keys == registry.Keys - todo
        invariant forall e :: e in loads ==> loads[e] == Load(h, Booked(registry, e))
      {
        var e :| e in todo;
        var load := EdgeLoad(registry[e], h);
        loads := loads[e := load];
        todo := todo - {e};
      }
    }

    /** `checkCapacity`. */
    method CheckCapacity(edge: PceEdge, tenant: TenantId, candidate: Reservation, ghost h: Hose) returns (ok: bool)
      requires Consistent(h, registry) && Agrees(h, tenant, candidate)
      ensures ok <==> Fits(h, registry, edge, PathKey(tenant, candidate.key))
    {
      var b := if edge.id in registry then registry[edge.id] else map[];
      var load := LoadExcluding(b, tenant, candidate.key, Some(candidate), h);
      assert BookedIn(b) == Booked(registry, edge.id);
      ok := load <= Capacity(edge) * (1.0 - CAPACITY_HEADROOM);
    }

    method CheckAll(to: seq<PceEdge>, tenant: TenantId, candidate: Reservation, ghost h: Hose) returns (ok: bool)
      requires Consistent(h, registry) && Agrees(h, tenant, candidate)
      ensures ok <==> forall e :: e in to ==> Fits(h, registry, e, PathKey(tenant, candidate.key))
    {
      var i := 0;
      while i < |to|
        invariant 0 <= i <= |to|
        invariant forall e :: e in to[..i] ==> Fits(h, registry, e, PathKey(tenant, candidate.key))
      {
        var fits := CheckCapacity(to[i], tenant, candidate, h);
        if !fits {
          assert to[i] in to;
          return false;
        }
        i := i + 1;
      }
      assert to[..i] == to;
      ok := true;
    }

    /** `Move`: all or nothing. */
    method Move(from: seq<PceEdgeId>, to: seq<PceEdge>, tenant: TenantId, candidate: Reservation, ghost h: Hose)
      returns (ok: bool)
      requires Consistent(h, registry) && Agrees(h, tenant, candidate)
      modifies this
      ensures ok <==> forall e :: e in to ==> Fits(h, old(registry), e, PathKey(tenant, candidate.key))
      ensures !ok ==> registry == old(registry)
      ensures ok ==> Moved(old(registry), registry, Elems(from), Ids(to), PathKey(tenant, candidate.key), candidate)
      ensures NoEmpties(old(registry)) ==> NoEmpties(registry)
    {
      ok := CheckAll(to, tenant, candidate, h);
      if ok {
        var released := Release(registry, from, PathKey(tenant, candidate.key), candidate);
        registry := BookAll(registry, released, from, to, PathKey(tenant, candidate.key), candidate);
      }
    }

    /** `PruneGraph`: exactly the edges on which the candidate fits are kept. */
    method PruneGraph(g: PceGraph, tenant: TenantId, candidate: Reservation, ghost h: Hose) returns (pruned: PceGraph)
      requires Consistent(h, registry) && Agrees(h, tenant, candidate)
      requires WellFormed(g)
      ensures IsPruned(h, registry, g, PathKey(tenant, candidate.key), pruned)
    {
      var kept: map<PceEdgeId, PceEdge> := map[];
      var todo := g.edges.Keys;
      while todo != {}
        invariant todo <= g.edges.Keys
        invariant forall id :: id in kept <==>
          id in g.edges && id !in todo && Fits(h, registry, g.edges[id], PathKey(tenant, candidate.key))
        invariant forall id :: id in kept ==> kept[id] == g.edges[id]
      {
        var id :| id in todo;
        todo := todo - {id};
        var fits := CheckCapacity(g.edges[id], tenant, candidate, h);
        if fits {
          kept := kept[id := g.edges[id]];
        }
      }
      SubgraphWellFormed(g, kept);
      pruned := Subgraph(g, kept);
    }
  }

  ghost predicate IsPruned(h: Hose, reg: Registry, g: PceGraph, k: PathKey, pruned: PceGraph) {
    && WellFormed(pruned)
    && pruned.nodes == g.nodes
    && (forall id :: id in pruned.edges <==> id in g.edges && Fits(h, reg, g.edges[id], k))
    && (forall id :: id in pruned.edges ==> pruned.edges[id] == g.edges[id])
  }

  /** `slices.DeleteFunc` on an adjacency list. */
  function Keep(ids: seq<PceEdgeId>, s: set<PceEdgeId>): seq<PceEdgeId> {
    if ids == [] then []
    else (if ids[0] in s then [ids[0]] else []) + Keep(ids[1..], s)
  }

  /** The graph restricted to `kept`; nodes left without edges drop out of the adjacency lists. */
  function Subgraph(g: PceGraph, kept: map<PceEdgeId, PceEdge>): PceGraph {
    PceGraph(g.nodes, kept, map n | n in g.adj && Keep(g.adj[n], kept.Keys) != [] :: Keep(g.adj[n], kept.Keys))
  }

  lemma SubgraphWellFormed(g: PceGraph, kept: map<PceEdgeId, PceEdge>)
    requires WellFormed(g)
    requires forall id :: id in kept ==> id in g.edges && kept[id] == g.edges[id]
    ensures WellFormed(Subgraph(g, kept))
  {
    var r := Subgraph(g, kept);
    forall id | id in kept
      ensures var n := kept[id].nodeFrom; n in r.adj && id in r.adj[n]
    {
      KeepMembers(g.adj[kept[id].nodeFrom], kept.Keys);
    }
    forall n | n in r.adj
      ensures OnceEach(r.adj[n]) && forall id :: id in r.adj[n] ==> id in g.adj[n] && id in kept
    {
      KeepMembers(g.adj[n], kept.Keys);
    }
  }

  lemma {:induction false} KeepMembers(ids: seq<PceEdgeId>, s: set<PceEdgeId>)
    ensures forall id :: id in Keep(ids, s) <==> id in ids && id in s
    ensures OnceEach(ids) ==> OnceEach(Keep(ids, s))
  {
    if ids != [] {
      KeepMembers(ids[1..], s);
      assert ids == [ids[0]] + ids[1..];
      assert OnceEach(ids) ==> ids[0] !in ids[1..];
    }
  }
}
