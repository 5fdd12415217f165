/** Three rounds of diff and apply are always enough, and two unless a default route is traded away:
    what one round leaves undone the next completes. */
module Convergence {
  import opened Kernel
  import opened Dataplane
  import opened Stages

  type Desired = map<Id, Resource>

  ghost predicate Filed(m: Desired) {
    forall id :: id in m ==> IdOf(m[id]) == id
  }

  /** No two desired resources compete for one kernel key. */
  ghost predicate DistinctKernelKeys(m: Desired) {
    forall a, b :: a in m && b in m && a != b ==> Apart(m[a], m[b])
  }

  /** No vrf table is given a default route of its own. */
  ghost predicate NoDefaultInVrfTables(m: Desired) {
    forall a, b :: a in m && b in m && m[a].VrfR? && m[b].RouteR? && m[b].dst == DEFAULT_PREFIX ==> m[a].table != m[b].table
  }

  /** Routes avoid the loopback and segments are End.DT46, as every rendering has it. */
  ghost predicate Rendered(m: Desired) {
    && Filed(m)
    && (forall id :: id in m ==> Sane(m[id]))
    && (forall id :: id in m && id.SidId? ==> id.kind == "dt46")
  }

  /** What `Diff` computes. */
  ghost predicate IsDiff(k: Kernel, m: Desired, rem: seq<Resource>, add: seq<Resource>) {
    && (forall r :: r in rem <==> IsObject(k, r) && IdOf(r) !in m)
    && (forall r :: r in add <==> IdOf(r) in m && m[IdOf(r)] == r && !HasId(k, IdOf(r)))
  }

  ghost predicate Converged(k: Kernel, m: Desired) {
    forall id :: HasId(k, id) <==> id in m
  }

  /** After one round everything is in place except segments and routes that links took with them,
      and catch-alls that fresh vrfs brought along. */
  ghost predicate Placed(k: Kernel, m: Desired) {
    && (forall id: Id :: id.VrfId? || id.XfrmId? || id.SrId? || id.RuleId? || id.MarkId? ==> (HasId(k, id) <==> id in m))
    && (forall id: Id :: id.SidId? && HasId(k, id) ==> id in m)
    && (forall t, d :: RouteKey(t, d, Normal) in k.routes ==> RouteId(t, d, k.routes[RouteKey(t, d, Normal)]) in m)
  }

  /** A table with both a default route and a catch-all: the removal of the second takes the first. */
  ghost predicate BothDefaults(k: Kernel, t: int) {
    RouteKey(t, DEFAULT_PREFIX, CatchAll) in k.routes && RouteKey(t, DEFAULT_PREFIX, Normal) in k.routes
  }

  ghost predicate AlmostConverged(k: Kernel, m: Desired) {
    Placed(k, m) && forall t :: !BothDefaults(k, t)
  }

  /** No two desired links compete for one name. */
  ghost predicate DistinctNames(m: Desired) {
    forall a, b :: a in m && b in m && a != b && IsLink(m[a]) && IsLink(m[b]) ==> m[a].name != m[b].name
  }

  lemma KeysGiveNames(m: Desired)
    requires DistinctKernelKeys(m)
    ensures DistinctNames(m)
  {
    forall a, b | a in m && b in m && a != b && IsLink(m[a]) && IsLink(m[b])
      ensures m[a].name != m[b].name
    {
      assert Apart(m[a], m[b]);
    }
  }

  lemma AddsNamesApart(k: Kernel, m: Desired, rem: seq<Resource>, add: seq<Resource>)
    requires DistinctNames(m) && Filed(m) && IsDiff(k, m, rem, add)
    ensures NamesApart(add)
  {
    forall a, b | a in add && b in add && a != b && IsLink(a) && IsLink(b)
      ensures a.name != b.name
    {
      assert IdOf(a) != IdOf(b);
    }
  }

  lemma AddsApart(k: Kernel, m: Desired, rem: seq<Resource>, add: seq<Resource>)
    requires DistinctKernelKeys(m) && Filed(m) && IsDiff(k, m, rem, add)
    ensures KeysApart(add)
  {
    forall a, b | a in add && b in add && a != b
      ensures Apart(a, b)
    {
      assert IdOf(a) != IdOf(b);
    }
  }

  // ---------- First round, kind by kind ----------

  lemma LinkObjects(k: Kernel, r: Resource)
    requires IsObject(k, r) && (r.VrfR? || r.XfrmR?)
    ensures r.name in k.links && k.links[r.name].index == r.index
    ensures r.VrfR? <==> k.links[r.name].Vrf?
    ensures r.XfrmR? ==> k.links[r.name].ifId == r.ifId
  {
  }

  /** Under unique indexes, the links listed for removal are exactly those whose identifier is
      not desired. */
  lemma UnwantedVrfsListed(k: Kernel, m: Desired, rem: seq<Resource>, n: string)
    requires Owned(k) && n in k.links && k.links[n].Vrf?
    requires forall r :: r in rem <==> IsObject(k, r) && IdOf(r) !in m
    ensures n in Listed(k, KVrf, rem) <==> VrfId(n) !in m
  {
    var o := VrfR(n, k.links[n].table, k.links[n].index);
    assert IsObject(k, o) && IdOf(o) == VrfId(n);
    if n in Listed(k, KVrf, rem) {
      var r :| r in rem && r.VrfR? && r.index == k.links[n].index;
      LinkObjects(k, r);
    }
  }

  lemma UnwantedXfrmsListed(k: Kernel, m: Desired, rem: seq<Resource>, n: string)
    requires Owned(k) && n in k.links && k.links[n].Xfrm?
    requires forall r :: r in rem <==> IsObject(k, r) && IdOf(r) !in m
    ensures n in Listed(k, KXfrm, rem) <==> XfrmId(n, k.links[n].ifId) !in m
  {
    var o := XfrmR(n, k.links[n].ifId, LOOPBACK, k.links[n].master, k.links[n].index);
    assert IsObject(k, o) && IdOf(o) == XfrmId(n, k.links[n].ifId);
    if n in Listed(k, KXfrm, rem) {
      var r :| r in rem && r.XfrmR? && r.index == k.links[n].index;
      LinkObjects(k, r);
    }
  }

  /** A device that no removal deletes: not one of maeto's links, or one that is still wanted. */
  ghost predicate DeviceKept(k: Kernel, m: Desired, n: string) {
    n in k.links ==> if k.links[n].Vrf? then VrfId(n) in m else XfrmId(n, k.links[n].ifId) in m
  }

  lemma CutIffUnwanted(k: Kernel, m: Desired, rem: seq<Resource>, n: string)
    requires Owned(k) && forall r :: r in rem <==> IsObject(k, r) && IdOf(r) !in m
    ensures n in LinksCut(k, rem) <==> !DeviceKept(k, m, n)
  {
    if n in k.links {
      if k.links[n].Vrf? {
        UnwantedVrfsListed(k, m, rem, n);
      } else {
        UnwantedXfrmsListed(k, m, rem, n);
      }
    }
  }

  lemma LinksLeft(k: Kernel, m: Desired, rem: seq<Resource>, add: seq<Resource>, kR: Kernel, n: string)
    requires Owned(k) && IsDiff(k, m, rem, add) && AfterRemoval(k, rem, kR)
    ensures n in kR.links <==> n in k.links && DeviceKept(k, m, n)
    ensures n in kR.links ==> SameLink(k.links[n], kR.links[n])
  {
    CutIffUnwanted(k, m, rem, n);
  }

  lemma XfrmAdded(k: Kernel, m: Desired, rem: seq<Resource>, add: seq<Resource>, n: string)
    requires IsDiff(k, m, rem, add) && Filed(m)
    ensures XfrmNamed(add, n) <==> exists i :: XfrmId(n, i) in m && !HasId(k, XfrmId(n, i))
    ensures n in VrfNames(add) <==> VrfId(n) in m && !HasId(k, VrfId(n))
  {
    if XfrmNamed(add, n) {
      var r :| r in add && r.XfrmR? && r.name == n;
      assert XfrmId(n, r.ifId) == IdOf(r);
    }
    if i :| XfrmId(n, i) in m && !HasId(k, XfrmId(n, i)) {
      assert m[XfrmId(n, i)] in add;
    }
    if VrfId(n) in m && !HasId(k, VrfId(n)) {
      assert m[VrfId(n)] in add;
    }
  }

  /** A desired name belongs to one vrf or to one tunnel. */
  lemma OneLinkPerName(m: Desired, n: string)
    requires Filed(m) && DistinctNames(m)
    ensures forall i, j :: XfrmId(n, i) in m && XfrmId(n, j) in m ==> i == j
    ensures forall i :: XfrmId(n, i) in m ==> VrfId(n) !in m
  {
    forall i, j | XfrmId(n, i) in m && XfrmId(n, j) in m
      ensures i == j
    {
    }
    forall i | XfrmId(n, i) in m
      ensures VrfId(n) !in m
    {
      assert VrfId(n) in m ==> IsLink(m[VrfId(n)]) && IsLink(m[XfrmId(n, i)]);
    }
  }

  lemma VrfsConverge(k: Kernel, m: Desired, rem: seq<Resource>, add: seq<Resource>, kR: Kernel, k': Kernel, n: string)
    requires Owned(k) && IsDiff(k, m, rem, add) && Filed(m) && DistinctNames(m)
    requires AfterRemoval(k, rem, kR) && LinksAfter(kR, add, k')
    ensures HasId(k', VrfId(n)) <==> VrfId(n) in m
  {
    LinksLeft(k, m, rem, add, kR, n);
    XfrmAdded(k, m, rem, add, n);
    OneLinkPerName(m, n);
  }

  lemma XfrmsConverge(k: Kernel, m: Desired, rem: seq<Resource>, add: seq<Resource>, kR: Kernel, k': Kernel, n: string, i: int)
    requires Owned(k) && IsDiff(k, m, rem, add) && Filed(m) && DistinctNames(m)
    requires AfterRemoval(k, rem, kR) && LinksAfter(kR, add, k')
    ensures HasId(k', XfrmId(n, i)) <==> XfrmId(n, i) in m
  {
    LinksLeft(k, m, rem, add, kR, n);
    XfrmAdded(k, m, rem, add, n);
    OneLinkPerName(m, n);
    if XfrmNamed(add, n) {
      var r :| r in add && r.XfrmR? && r.name == n;
      assert IdOf(r) == XfrmId(n, r.ifId) && XfrmId(n, r.ifId) in m;
    }
  }

  lemma MarksConverge(k: Kernel, m: Desired, rem: seq<Resource>, add: seq<Resource>, k1: Kernel, k': Kernel, d: int, mark: int)
    requires IsDiff(k, m, rem, add) && Filed(m) && DistinctKernelKeys(m)
    requires k1.marks == k.marks - MarkKeys(rem) && MarksAdded(k1, add, k')
    ensures HasId(k', MarkId(d, mark)) <==> MarkId(d, mark) in m
  {
    if d in k.marks {
      var o := MarkR(d, k.marks[d]);
      assert IsObject(k, o) && (o in rem <==> IdOf(o) !in m);
      assert forall r :: r in rem && r.MarkR? && r.dscp == d ==> r == o;
      assert d in MarkKeys(rem) <==> MarkId(d, k.marks[d]) !in m;
    }
    if d in MarkKeys(add) {
      var r :| r in add && r.MarkR? && r.dscp == d;
      assert IdOf(r) == MarkId(d, r.mark);
    }
    if MarkId(d, mark) in m && !HasId(k, MarkId(d, mark)) {
      assert m[MarkId(d, mark)] in add;
    }
  }

  lemma SrConverge(k: Kernel, m: Desired, rem: seq<Resource>, add: seq<Resource>, k1: Kernel, k': Kernel, t: int, p: Prefix, text: string)
    requires IsDiff(k, m, rem, add) && Filed(m) && DistinctKernelKeys(m)
    requires k1.srRoutes == k.srRoutes - SrKeys(rem) && SrAdded(k1, add, k')
    ensures HasId(k', SrId(t, p, text)) <==> SrId(t, p, text) in m
  {
    var key := SrKey(t, p);
    if key in k.srRoutes {
      var o := SrRouteR(t, p, k.srRoutes[key]);
      assert IsObject(k, o) && (o in rem <==> IdOf(o) !in m);
      assert forall r :: r in rem && r.SrRouteR? && SrKey(r.table, r.prefix) == key ==> r == o;
      assert key in SrKeys(rem) <==> IdOf(o) !in m;
    }
    if key in SrKeys(add) {
      var r :| r in add && r.SrRouteR? && SrKey(r.table, r.prefix) == key;
      assert IdOf(r) == SrId(t, p, Joined(r.segments));
    }
    if SrId(t, p, text) in m && !HasId(k, SrId(t, p, text)) {
      assert m[SrId(t, p, text)] in add;
    }
  }

  lemma RuleLeavesIff(k: Kernel, m: Desired, rem: seq<Resource>, x: Rule)
    requires x in k.rules && forall r :: r in rem <==> IsObject(k, r) && IdOf(r) !in m
    ensures x in RulesIn(rem) <==> RuleIdOf(x) !in m
  {
    assert IsObject(k, RuleR(x)) && IdOf(RuleR(x)) == RuleIdOf(x);
  }

  lemma RulesConverge(k: Kernel, m: Desired, rem: seq<Resource>, add: seq<Resource>, k': Kernel, id: Id)
    requires Owned(k) && IsDiff(k, m, rem, add) && Filed(m) && id.RuleId?
    requires k'.rules == k.rules - RulesIn(rem) + RulesIn(add)
    ensures HasId(k', id) <==> id in m
  {
    forall x | x in k'.rules
      ensures RuleIdOf(x) in m
    {
      if x in RulesIn(add) {
        assert IdOf(RuleR(x)) == RuleIdOf(x);
      } else {
        RuleLeavesIff(k, m, rem, x);
      }
    }
    if id in m {
      if HasId(k, id) {
        var x :| x in k.rules && RuleIdOf(x) == id;
        RuleLeavesIff(k, m, rem, x);
        assert x in k'.rules;
      } else {
        var r := m[id];
        assert r in add && r.RuleR? && r.rule in RulesIn(add);
      }
    }
  }

  /** Segments that survive removal are desired, and all missing ones are inserted. */
  lemma SidsAlmost(k: Kernel, m: Desired, rem: seq<Resource>, add: seq<Resource>, k1: Kernel, k': Kernel, kind: string, a: Addr)
    requires IsDiff(k, m, rem, add) && Rendered(m)
    requires forall x :: x in k1.sids ==> x in k.sids && x !in SidKeys(rem) && k1.sids[x] == k.sids[x]
    requires SidsAdded(k1, add, k')
    ensures HasId(k', SidId(kind, a)) ==> SidId(kind, a) in m
    ensures k1.sids == k.sids - SidKeys(rem) && (forall id: Id :: id.SidId? && HasId(k, id) ==> id in m) ==>
              (SidId(kind, a) in m ==> HasId(k', SidId(kind, a)))
  {
    if a in k.sids {
      var o := SidR(k.sids[a].kind, a, k.sids[a].table);
      assert IsObject(k, o) && (o in rem <==> IdOf(o) !in m);
      assert forall r :: r in rem && r.SidR? && r.sid == a ==> r == o;
      assert a in SidKeys(rem) <==> SidId(k.sids[a].kind, a) !in m;
    }
    if a in SidKeys(add) {
      var r :| r in add && r.SidR? && r.sid == a;
      assert IdOf(r) == SidId(r.kind, a) && r.kind == "dt46";
    }
    if SidId(kind, a) in m && !HasId(k, SidId(kind, a)) {
      assert m[SidId(kind, a)] in add;
    }
  }

  // ---------- Routes in the first round ----------

  /** Every ordinary route left after a round is desired. */
  lemma NormalsAlmost(k: Kernel, m: Desired, rem: seq<Resource>, add: seq<Resource>, kR: Kernel, k': Kernel, t: int, d: Prefix)
    requires IsDiff(k, m, rem, add) && Filed(m)
    requires AfterRemoval(k, rem, kR) && RoutesAfter(kR, add, k')
    requires RouteKey(t, d, Normal) in k'.routes
    ensures RouteId(t, d, k'.routes[RouteKey(t, d, Normal)]) in m
  {
    var key := RouteKey(t, d, Normal);
    if RouteNamed(add, key) {
      var r :| r in add && r.RouteR? && key == RouteKey(r.table, r.dst, Normal);
      assert IdOf(r) == RouteId(t, d, r.dev);
    } else {
      assert key !in CatchAlls(add);
      var o := RouteR(t, d, k.routes[key]);
      assert IsObject(k, o);
      if o in rem {
        CountsOne(rem, o);
      }
    }
  }

  lemma LoopbackUnwanted(m: Desired, t: int, d: Prefix)
    requires Rendered(m)
    ensures RouteId(t, d, LOOPBACK) !in m
  {
  }

  /** A catch-all that removal spared: the one removal that named it took the desired default
      route instead. */
  lemma SparedTakesDefault(k: Kernel, m: Desired, rem: seq<Resource>, kR: Kernel, t: int)
    requires Owned(k) && Rendered(m) && (forall r :: r in rem <==> IsObject(k, r) && IdOf(r) !in m)
    requires AfterRemoval(k, rem, kR) && RouteKey(t, DEFAULT_PREFIX, CatchAll) in kR.routes
    ensures var key := RouteKey(t, DEFAULT_PREFIX, Normal);
            key in k.routes && key !in kR.routes && RouteId(t, DEFAULT_PREFIX, k.routes[key]) in m
  {
    var key := RouteKey(t, DEFAULT_PREFIX, Normal);
    var c := RouteR(t, DEFAULT_PREFIX, LOOPBACK);
    assert IsObject(k, c);
    LoopbackUnwanted(m, t, DEFAULT_PREFIX);
    CountsOne(rem, c);
    var o := RouteR(t, DEFAULT_PREFIX, k.routes[key]);
    assert IsObject(k, o) && o != c;
    if o in rem {
      CountsTwo(rem, o, c);
    }
  }

  lemma SparedCatchAll(k: Kernel, m: Desired, rem: seq<Resource>, add: seq<Resource>, kR: Kernel, k': Kernel, t: int)
    requires Owned(k) && IsDiff(k, m, rem, add) && Rendered(m) && DistinctKernelKeys(m)
    requires AfterRemoval(k, rem, kR) && RoutesAfter(kR, add, k')
    requires RouteKey(t, DEFAULT_PREFIX, CatchAll) in kR.routes
    ensures RouteKey(t, DEFAULT_PREFIX, Normal) !in k'.routes
  {
    SparedTakesDefault(k, m, rem, kR, t);
    var key := RouteKey(t, DEFAULT_PREFIX, Normal);
    NotReadded(k, m, rem, add, RouteR(t, DEFAULT_PREFIX, k.routes[key]));
    assert key !in CatchAlls(add);
  }

  // ---------- When a default route is traded away ----------

  /** A wanted vrf is still to be created, and the default route wanted in its table is either still
      to be inserted or there to stay. The round then ends with both it and the vrf's catch-all. */
  ghost predicate TradesDefault(k: Kernel, m: Desired, v: string, dev: string) {
    && VrfId(v) in m && m[VrfId(v)].VrfR? && !HasId(k, VrfId(v))
    && var t := m[VrfId(v)].table;
       && RouteId(t, DEFAULT_PREFIX, dev) in m
       && (HasId(k, RouteId(t, DEFAULT_PREFIX, dev)) ==>
             RouteKey(t, DEFAULT_PREFIX, CatchAll) !in k.routes && DeviceKept(k, m, dev))
  }

  ghost predicate Trades(k: Kernel, m: Desired) {
    exists v, dev :: TradesDefault(k, m, v, dev)
  }

  /** A wanted default route outlasts the removals exactly when no catch-all shares its table and
      its device is kept. */
  lemma DefaultLasts(k: Kernel, m: Desired, rem: seq<Resource>, kR: Kernel, t: int, dev: string)
    requires Owned(k) && Rendered(m) && (forall r :: r in rem <==> IsObject(k, r) && IdOf(r) !in m) && AfterRemoval(k, rem, kR)
    requires RouteId(t, DEFAULT_PREFIX, dev) in m && HasId(k, RouteId(t, DEFAULT_PREFIX, dev))
    ensures RouteKey(t, DEFAULT_PREFIX, Normal) in kR.routes <==>
            RouteKey(t, DEFAULT_PREFIX, CatchAll) !in k.routes && DeviceKept(k, m, dev)
  {
    var key, c := RouteKey(t, DEFAULT_PREFIX, Normal), RouteR(t, DEFAULT_PREFIX, LOOPBACK);
    LoopbackUnwanted(m, t, DEFAULT_PREFIX);
    assert key in k.routes && k.routes[key] == dev;
    CutIffUnwanted(k, m, rem, dev);
    assert RunsOn(k, LinksCut(k, rem), key) <==> !DeviceKept(k, m, dev);
    if RouteKey(t, DEFAULT_PREFIX, CatchAll) in k.routes {
      assert IsObject(k, c);
      CountsOne(rem, c);
    } else {
      CountsNone(rem, t, DEFAULT_PREFIX);
    }
  }

  lemma TradeShows(k: Kernel, m: Desired, rem: seq<Resource>, add: seq<Resource>, kR: Kernel, k': Kernel, v: string, dev: string)
    requires Owned(k) && IsDiff(k, m, rem, add) && Rendered(m)
    requires AfterRemoval(k, rem, kR) && RoutesAfter(kR, add, k') && TradesDefault(k, m, v, dev)
    ensures BothDefaults(k', m[VrfId(v)].table)
  {
    var t := m[VrfId(v)].table;
    assert m[VrfId(v)] in add;
    assert RouteKey(t, DEFAULT_PREFIX, CatchAll) in CatchAlls(add);
    if HasId(k, RouteId(t, DEFAULT_PREFIX, dev)) {
      DefaultLasts(k, m, rem, kR, t, dev);
    } else {
      assert m[RouteId(t, DEFAULT_PREFIX, dev)] in add;
    }
  }

  lemma FreshCatchAll(k: Kernel, m: Desired, rem: seq<Resource>, add: seq<Resource>, kR: Kernel, k': Kernel, v: Resource)
    requires Owned(k) && IsDiff(k, m, rem, add) && Rendered(m) && DistinctKernelKeys(m)
    requires AfterRemoval(k, rem, kR) && RoutesAfter(kR, add, k') && v in add && v.VrfR?
    requires RouteKey(v.table, DEFAULT_PREFIX, Normal) in k'.routes
    ensures TradesDefault(k, m, v.name, k'.routes[RouteKey(v.table, DEFAULT_PREFIX, Normal)])
  {
    var key := RouteKey(v.table, DEFAULT_PREFIX, Normal);
    var dev := k'.routes[key];
    assert IdOf(v) == VrfId(v.name) && m[IdOf(v)] == v;
    NormalsAlmost(k, m, rem, add, kR, k', v.table, DEFAULT_PREFIX);
    if HasId(k, RouteId(v.table, DEFAULT_PREFIX, dev)) {
      NotReadded(k, m, rem, add, RouteR(v.table, DEFAULT_PREFIX, dev));
      assert key !in CatchAlls(add) && key in kR.routes;
      DefaultLasts(k, m, rem, kR, v.table, dev);
    }
  }

  /** A round leaves a table with both defaults exactly when it trades one. */
  lemma OpensIff(k: Kernel, m: Desired, rem: seq<Resource>, add: seq<Resource>, kR: Kernel, k': Kernel)
    requires Owned(k) && IsDiff(k, m, rem, add) && Rendered(m) && DistinctKernelKeys(m)
    requires AfterRemoval(k, rem, kR) && RoutesAfter(kR, add, k')
    ensures (exists t :: BothDefaults(k', t)) <==> Trades(k, m)
  {
    if v, dev :| TradesDefault(k, m, v, dev) {
      TradeShows(k, m, rem, add, kR, k', v, dev);
    }
    if t :| BothDefaults(k', t) {
      var key := RouteKey(t, DEFAULT_PREFIX, CatchAll);
      if key in CatchAlls(add) {
        var v :| v in add && v.VrfR? && key == RouteKey(v.table, DEFAULT_PREFIX, CatchAll);
        FreshCatchAll(k, m, rem, add, kR, k', v);
      } else {
        assert !RouteNamed(add, key) && key in kR.routes;
        SparedCatchAll(k, m, rem, add, kR, k', t);
      }
    }
  }

  lemma PlacedTradesNothing(k: Kernel, m: Desired)
    requires Placed(k, m)
    ensures !Trades(k, m)
  {
  }

  /** Without a default route in a vrf table there is nothing to trade, whatever the kernel holds. */
  lemma NoDefaultNeverTrades(k: Kernel, m: Desired)
    requires Filed(m) && NoDefaultInVrfTables(m)
    ensures !Trades(k, m)
  {
    forall v, dev
      ensures !TradesDefault(k, m, v, dev)
    {
      if VrfId(v) in m && m[VrfId(v)].VrfR? {
        var id := RouteId(m[VrfId(v)].table, DEFAULT_PREFIX, dev);
        assert id in m ==> IdOf(m[id]) == id;
      }
    }
  }

  /** On a node without links and routes of maeto's own, that is the exact condition. */
  lemma FreshNodeTradesIff(k: Kernel, m: Desired)
    requires Filed(m) && k.links == map[] && k.routes == map[]
    ensures Trades(k, m) <==> !NoDefaultInVrfTables(m)
  {
    if NoDefaultInVrfTables(m) {
      NoDefaultNeverTrades(k, m);
    } else {
      var a, b :| a in m && b in m && m[a].VrfR? && m[b].RouteR? && m[b].dst == DEFAULT_PREFIX && m[a].table == m[b].table;
      assert IdOf(m[a]) == a && IdOf(m[b]) == b;
      assert TradesDefault(k, m, m[a].name, m[b].dev);
    }
  }

  // ---------- Rounds ----------

  /** One `Apply` of a diff, all of whose calls succeeded. */
  ghost predicate Applied(k: Kernel, rem: seq<Resource>, add: seq<Resource>, k': Kernel) {
    AllAccepted(Removed(k, rem), add) && k' == Added(Removed(k, rem), add).marks
  }

  lemma FirstById(k: Kernel, m: Desired, rem: seq<Resource>, add: seq<Resource>, kR: Kernel, k': Kernel, id: Id)
    requires Owned(k) && Rendered(m) && DistinctKernelKeys(m) && IsDiff(k, m, rem, add)
    requires AfterRemoval(k, rem, kR) && LinksAfter(kR, add, k') && RestAfter(kR, add, k')
    ensures id.VrfId? || id.XfrmId? || id.SrId? || id.RuleId? || id.MarkId? ==> (HasId(k', id) <==> id in m)
    ensures id.SidId? && HasId(k', id) ==> id in m
  {
    KeysGiveNames(m);
    match id
    case VrfId(n) => VrfsConverge(k, m, rem, add, kR, k', n);
    case XfrmId(n, i) => XfrmsConverge(k, m, rem, add, kR, k', n, i);
    case RouteId(_, _, _) =>
    case SidId(kind, a) => SidsAlmost(k, m, rem, add, kR, kR.(sids := k'.sids), kind, a);
    case SrId(t, p, text) => SrConverge(k, m, rem, add, kR, kR.(srRoutes := k'.srRoutes), t, p, text);
    case RuleId(_, _, _, _) => RulesConverge(k, m, rem, add, k', id);
    case MarkId(d, mark) => MarksConverge(k, m, rem, add, kR, kR.(marks := k'.marks), d, mark);
  }

  /** One round, from any kernel, puts everything in place but what links take with them; it leaves
      only that for the next round exactly when it trades no default route. */
  lemma FirstRound(k: Kernel, m: Desired, rem: seq<Resource>, add: seq<Resource>, k': Kernel)
    requires Owned(k) && Rendered(m) && DistinctKernelKeys(m)
    requires IsDiff(k, m, rem, add) && Applied(k, rem, add, k')
    ensures Placed(k', m)
    ensures AlmostConverged(k', m) <==> !Trades(k, m)
  {
    var kR := Removed(k, rem);
    AllRemoved(k, rem);
    AddsApart(k, m, rem, add);
    AllAdded(kR, add);
    forall id: Id
      ensures id.VrfId? || id.XfrmId? || id.SrId? || id.RuleId? || id.MarkId? ==> (HasId(k', id) <==> id in m)
      ensures id.SidId? && HasId(k', id) ==> id in m
    {
      FirstById(k, m, rem, add, kR, k', id);
    }
    forall t, d | RouteKey(t, d, Normal) in k'.routes
      ensures RouteId(t, d, k'.routes[RouteKey(t, d, Normal)]) in m
    {
      NormalsAlmost(k, m, rem, add, kR, k', t, d);
    }
    OpensIff(k, m, rem, add, kR, k');
  }

  /** In the second round only catch-alls are removed and only segments and routes are added. */
  lemma SecondDiff(k: Kernel, m: Desired, rem: seq<Resource>, add: seq<Resource>)
    requires AlmostConverged(k, m) && IsDiff(k, m, rem, add) && Filed(m)
    ensures forall r :: r in rem ==> r.RouteR?
    ensures forall r :: r in add ==> r.RouteR? || r.SidR?
  {
    forall r | r in rem
      ensures r.RouteR?
    {
      ObjectsHaveIds(k, r);
    }
  }

  /** The second round clears every catch-all and no ordinary route. */
  lemma SecondCut(k: Kernel, m: Desired, rem: seq<Resource>, add: seq<Resource>, k1: Kernel, t: int, d: Prefix)
    requires AlmostConverged(k, m) && Owned(k) && IsDiff(k, m, rem, add) && Rendered(m)
    requires RoutesCut(k.routes, rem, k1.routes)
    ensures RouteKey(t, d, CatchAll) !in k1.routes
    ensures RouteKey(t, d, Normal) in k1.routes <==> RouteKey(t, d, Normal) in k.routes
  {
    if RouteKey(t, d, CatchAll) in k.routes {
      var c := RouteR(t, d, LOOPBACK);
      assert IsObject(k, c) && c in rem;
      CountsOne(rem, c);
    }
    if RouteKey(t, d, Normal) in k.routes {
      assert RouteKey(t, d, CatchAll) in k.routes ==> BothDefaults(k, t);
      CountsNone(rem, t, d);
    }
  }

  lemma RouteBelongs(k: Kernel, m: Desired, rem: seq<Resource>, add: seq<Resource>, k1: Kernel, k': Kernel, t: int, d: Prefix, dev: string)
    requires AlmostConverged(k, m) && Owned(k) && IsDiff(k, m, rem, add) && Rendered(m)
    requires RoutesCut(k.routes, rem, k1.routes) && RoutesAfter(k1, add, k') && CatchAlls(add) == {}
    requires HasId(k', RouteId(t, d, dev))
    ensures RouteId(t, d, dev) in m
  {
    var key := RouteKey(t, d, Normal);
    SecondCut(k, m, rem, add, k1, t, d);
    assert !RouteNamed(add, RouteKey(t, d, CatchAll));
    if RouteNamed(add, key) {
      var r :| r in add && r.RouteR? && key == RouteKey(r.table, r.dst, Normal);
      assert IdOf(r) == RouteId(t, d, r.dev);
    }
  }

  lemma RouteArrives(k: Kernel, m: Desired, rem: seq<Resource>, add: seq<Resource>, k1: Kernel, k': Kernel, t: int, d: Prefix, dev: string)
    requires AlmostConverged(k, m) && Owned(k) && IsDiff(k, m, rem, add) && Rendered(m) && DistinctKernelKeys(m)
    requires RoutesCut(k.routes, rem, k1.routes) && RoutesAfter(k1, add, k') && CatchAlls(add) == {}
    requires RouteId(t, d, dev) in m
    ensures HasId(k', RouteId(t, d, dev))
  {
    SecondCut(k, m, rem, add, k1, t, d);
    if HasId(k, RouteId(t, d, dev)) {
      LoopbackUnwanted(m, t, d);
      NotReadded(k, m, rem, add, RouteR(t, d, dev));
    } else {
      assert m[RouteId(t, d, dev)] in add;
    }
  }

  lemma RoutesConverge(k: Kernel, m: Desired, rem: seq<Resource>, add: seq<Resource>, k1: Kernel, k': Kernel, t: int, d: Prefix, dev: string)
    requires AlmostConverged(k, m) && Owned(k) && IsDiff(k, m, rem, add) && Rendered(m) && DistinctKernelKeys(m)
    requires RoutesCut(k.routes, rem, k1.routes) && RoutesAfter(k1, add, k') && CatchAlls(add) == {}
    ensures HasId(k', RouteId(t, d, dev)) <==> RouteId(t, d, dev) in m
  {
    if RouteId(t, d, dev) in m {
      RouteArrives(k, m, rem, add, k1, k', t, d, dev);
    }
    if HasId(k', RouteId(t, d, dev)) {
      RouteBelongs(k, m, rem, add, k1, k', t, d, dev);
    }
  }

  lemma SecondOther(k: Kernel, m: Desired, rem: seq<Resource>, add: seq<Resource>, k1: Kernel, k': Kernel, id: Id)
    requires AlmostConverged(k, m) && !id.RouteId? && !id.SidId?
    requires forall r :: r in rem ==> r.RouteR?
    requires forall r :: r in add ==> r.RouteR? || r.SidR?
    requires AfterNonLinks(k, rem, k1) && LinksAfter(k1, add, k') && RestAfter(k1, add, k')
    ensures HasId(k', id) <==> id in m
  {
    assert MarkKeys(rem) == {} && SrKeys(rem) == {} && RulesIn(rem) == {};
    assert k1.marks == k.marks && k1.srRoutes == k.srRoutes && k1.rules == k.rules;
    Unmoved(k, k1, add, k', id);
  }

  lemma SecondById(k: Kernel, m: Desired, rem: seq<Resource>, add: seq<Resource>, k1: Kernel, k': Kernel, id: Id)
    requires Owned(k) && Rendered(m) && DistinctKernelKeys(m) && AlmostConverged(k, m) && IsDiff(k, m, rem, add)
    requires forall r :: r in rem ==> r.RouteR?
    requires forall r :: r in add ==> r.RouteR? || r.SidR?
    requires AfterNonLinks(k, rem, k1)
    requires LinksAfter(k1, add, k') && RoutesAfter(k1, add, k') && RestAfter(k1, add, k')
    ensures HasId(k', id) <==> id in m
  {
    if id.RouteId? {
      assert CatchAlls(add) == {};
      RoutesConverge(k, m, rem, add, k1, k', id.table, id.dst, id.dev);
    } else if id.SidId? {
      assert SidKeys(rem) == {};
      SidsAlmost(k, m, rem, add, k1, k1.(sids := k'.sids), id.kind, id.sid);
    } else {
      SecondOther(k, m, rem, add, k1, k', id);
    }
  }

  lemma SecondRound(k: Kernel, m: Desired, rem: seq<Resource>, add: seq<Resource>, k': Kernel)
    requires Owned(k) && Rendered(m) && DistinctKernelKeys(m) && AlmostConverged(k, m)
    requires IsDiff(k, m, rem, add) && Applied(k, rem, add, k')
    ensures Converged(k', m)
  {
    var k1 := Removed(k, rem);
    SecondDiff(k, m, rem, add);
    NoLinksRemoved(k, rem);
    AddsApart(k, m, rem, add);
    AllAdded(k1, add);
    forall id: Id
      ensures HasId(k', id) <==> id in m
    {
      SecondById(k, m, rem, add, k1, k', id);
    }
  }

  /** Whatever the second round does not touch stays as it was. */
  lemma Unmoved(k: Kernel, k1: Kernel, add: seq<Resource>, k': Kernel, id: Id)
    requires !id.RouteId? && !id.SidId?
    requires k1.links == k.links && k1.srRoutes == k.srRoutes && k1.rules == k.rules && k1.marks == k.marks
    requires forall r :: r in add ==> r.RouteR? || r.SidR?
    requires LinksAfter(k1, add, k') && RestAfter(k1, add, k')
    ensures HasId(k', id) <==> HasId(k, id)
  {
    assert VrfNames(add) == {} && MarkKeys(add) == {} && SrKeys(add) == {} && RulesIn(add) == {};
    assert forall n :: !XfrmNamed(add, n);
  }

  // ---------- What convergence implies, and what prevents it ----------

  /** A converged kernel holds no catch-all: the route that `UpsertVRF` installs is listed as one of
      maeto's own, is never desired, and is removed again. */
  lemma ConvergedHasNoCatchAll(k: Kernel, m: Desired, key: RouteKey)
    requires Owned(k) && Rendered(m) && Converged(k, m) && key in k.routes
    ensures key.metric.Normal?
  {
    LoopbackUnwanted(m, key.table, key.dst);
    assert key == RouteKey(key.table, key.dst, key.metric);
    assert key.metric.CatchAll? ==> HasId(k, RouteId(key.table, key.dst, LOOPBACK));
  }

  /** The vrfs that are there, of those desired, have the desired table. */
  ghost predicate TablesAsDesired(k: Kernel, m: Desired) {
    forall n :: VrfId(n) in m && HasId(k, VrfId(n)) ==> m[VrfId(n)].VrfR? && OwnsTable(k, n, m[VrfId(n)].table)
  }

  /** Two desired resources that share a kernel key can never both be there. */
  lemma ClashNeverConverges(k: Kernel, m: Desired)
    requires Owned(k) && Rendered(m) && TablesAsDesired(k, m) && Converged(k, m)
    ensures DistinctKernelKeys(m)
    ensures forall id :: id in m && m[id].SrRouteR? ==> m[id].segments != []
  {
    forall a, b | a in m && b in m && a != b
      ensures Apart(m[a], m[b])
    {
      assert HasId(k, a) && HasId(k, b) && IdOf(m[a]) == a && IdOf(m[b]) == b && Sane(m[a]) && Sane(m[b]);
    }
    forall id | id in m && m[id].SrRouteR?
      ensures m[id].segments != []
    {
      assert HasId(k, id) && IdOf(m[id]) == id;
      JoinedEmpty(m[id].segments);
      JoinedEmpty(k.srRoutes[SrKey(m[id].table, m[id].prefix)]);
    }
  }

  /** A round that starts with both a catch-all and a desired default route in one table trades
      the route away: the removal meant for the catch-all takes the route of lower metric. */
  lemma DefaultTradedAway(k: Kernel, m: Desired, rem: seq<Resource>, add: seq<Resource>, k': Kernel, t: int)
    requires Owned(k) && Rendered(m) && DistinctKernelKeys(m)
    requires RouteKey(t, DEFAULT_PREFIX, CatchAll) in k.routes && RouteKey(t, DEFAULT_PREFIX, Normal) in k.routes
    requires RouteId(t, DEFAULT_PREFIX, k.routes[RouteKey(t, DEFAULT_PREFIX, Normal)]) in m
    requires IsDiff(k, m, rem, add) && Applied(k, rem, add, k')
    ensures !HasId(k', RouteId(t, DEFAULT_PREFIX, k.routes[RouteKey(t, DEFAULT_PREFIX, Normal)]))
  {
    var kR, dev := Removed(k, rem), k.routes[RouteKey(t, DEFAULT_PREFIX, Normal)];
    AllRemoved(k, rem);
    DefaultLasts(k, m, rem, kR, t, dev);
    AddsApart(k, m, rem, add);
    AllAdded(kR, add);
    OnlyLoopbackCatchAlls(kR, add, k');
    NotReadded(k, m, rem, add, RouteR(t, DEFAULT_PREFIX, dev));
    StaysAway(kR, add, k', t, dev);
  }

  lemma StaysAway(k: Kernel, rs: seq<Resource>, k': Kernel, t: int, dev: string)
    requires RoutesAfter(k, rs, k') && dev != LOOPBACK
    requires forall key :: key in k'.routes && key.metric.CatchAll? ==> k'.routes[key] == LOOPBACK
    requires var key := RouteKey(t, DEFAULT_PREFIX, Normal); key !in k.routes && !RouteNamed(rs, key)
    ensures !HasId(k', RouteId(t, DEFAULT_PREFIX, dev))
  {
    assert RouteKey(t, DEFAULT_PREFIX, Normal) !in CatchAlls(rs);
  }

  lemma NotReadded(k: Kernel, m: Desired, rem: seq<Resource>, add: seq<Resource>, o: Resource)
    requires Filed(m) && DistinctKernelKeys(m) && IsDiff(k, m, rem, add)
    requires o.RouteR? && IsObject(k, o) && IdOf(o) in m
    ensures !RouteNamed(add, RouteKey(o.table, o.dst, Normal))
  {
    assert IdOf(m[IdOf(o)]) == IdOf(o);
  }

  lemma OnlyLoopbackCatchAlls(k: Kernel, rs: seq<Resource>, k': Kernel)
    requires Owned(k) && RoutesAfter(k, rs, k')
    ensures forall key :: key in k'.routes && key.metric.CatchAll? ==> k'.routes[key] == LOOPBACK
  {
    forall key | key in k'.routes && key.metric.CatchAll?
      ensures k'.routes[key] == LOOPBACK
    {
      assert !RouteNamed(rs, key);
    }
  }

  // ---------- Runs of rounds ----------

  /** Inserting a rule of the list cannot meet another rule of its identifier. */
  ghost predicate RulesFresh(k: Kernel, add: seq<Resource>) {
    forall x, r :: x in k.rules && r in add && r.RuleR? && RuleIdOf(x) == RuleIdOf(r.rule) ==> x == r.rule
  }

  /** What makes a list of insertions acceptable to the dataplane at all. */
  ghost predicate Insertable(k: Kernel, add: seq<Resource>) {
    && RulesFresh(k, add)
    && (forall r :: r in add ==> Sane(r))
    && (forall r, s :: r in add && s in add && r.RuleR? && s.RuleR? && RuleIdOf(r.rule) == RuleIdOf(s.rule) ==> r == s)
  }

  lemma DiffIsInsertable(k: Kernel, m: Desired, rem: seq<Resource>, add: seq<Resource>)
    requires Rendered(m) && IsDiff(k, m, rem, add)
    ensures Insertable(k, add)
  {
    forall x, r | x in k.rules && r in add && r.RuleR?
      ensures RuleIdOf(x) != RuleIdOf(r.rule)
    {
    }
  }

  lemma StillInsertable(k: Kernel, rs: seq<Resource>, r: Resource, k': Kernel)
    requires Insertable(k, rs) && r in rs
    requires k'.rules <= k.rules + if r.RuleR? then {r.rule} else {}
    ensures Insertable(k', rs)
  {
  }

  lemma {:induction false} AddStageOwned(k: Kernel, kind: Kind, all: seq<Resource>, j: nat)
    requires Owned(k) && j <= |all| && AddsAccepted(k, kind, all[..j]) && Insertable(k, all)
    ensures Owned(AddStage(k, kind, all[..j])) && Insertable(AddStage(k, kind, all[..j]), all)
    decreases j
  {
    if j > 0 {
      assert all[..j][..j - 1] == all[..j - 1] && all[j - 1] in all;
      AddStageOwned(k, kind, all, j - 1);
      if KindOf(all[j - 1]) == kind {
        var k1 := AddStage(k, kind, all[..j - 1]);
        AddKeepsOwned(k1, all[j - 1]);
        StillInsertable(k1, all, all[j - 1], AddEffect(k1, all[j - 1]));
      }
    }
  }

  lemma WholeStageOwned(k: Kernel, kind: Kind, rs: seq<Resource>)
    requires Owned(k) && AddsAccepted(k, kind, rs) && Insertable(k, rs)
    ensures Owned(AddStage(k, kind, rs)) && Insertable(AddStage(k, kind, rs), rs)
  {
    assert rs[..|rs|] == rs;
    AddStageOwned(k, kind, rs, |rs|);
  }

  /** A round keeps the kernel well formed. */
  lemma AppliedKeepsOwned(k: Kernel, m: Desired, rem: seq<Resource>, add: seq<Resource>, k': Kernel)
    requires Owned(k) && Rendered(m) && IsDiff(k, m, rem, add) && Applied(k, rem, add, k')
    ensures Owned(k')
  {
    var kR, a := Removed(k, rem), Added(Removed(k, rem), add);
    AllRemoved(k, rem);
    DiffIsInsertable(k, m, rem, add);
    assert kR.rules <= k.rules;
    WholeStageOwned(kR, KVrf, add);
    WholeStageOwned(a.vrfs, KXfrm, add);
    WholeStageOwned(a.xfrms, KRoute, add);
    WholeStageOwned(a.routes, KSid, add);
    WholeStageOwned(a.sids, KSrRoute, add);
    WholeStageOwned(a.srRoutes, KRule, add);
    WholeStageOwned(a.rules, KMark, add);
  }

  /** One `Apply` of the diff against a desired state, all of whose calls succeeded. */
  ghost predicate Round(k: Kernel, m: Desired, k': Kernel) {
    exists rem, add :: IsDiff(k, m, rem, add) && Applied(k, rem, add, k')
  }

  /** Renderings of one intent may differ in what identifiers do not show. */
  ghost predicate SameIntent(m: Desired, m': Desired) {
    Rendered(m') && DistinctKernelKeys(m') && m'.Keys == m.Keys
  }

  lemma ByKeys(k: Kernel, m: Desired, m': Desired)
    requires m.Keys == m'.Keys
    ensures Placed(k, m) <==> Placed(k, m')
    ensures Converged(k, m) <==> Converged(k, m')
  {
    assert forall id :: id in m <==> id in m';
  }

  /** A round from a kernel in place completes what is left, or else repairs a traded default. */
  lemma LaterRound(k: Kernel, m: Desired, k': Kernel)
    requires Owned(k) && Rendered(m) && DistinctKernelKeys(m) && Placed(k, m) && Round(k, m, k')
    ensures Owned(k') && AlmostConverged(k', m)
    ensures Converged(k', m) <==> AlmostConverged(k, m)
  {
    var rem, add :| IsDiff(k, m, rem, add) && Applied(k, rem, add, k');
    AppliedKeepsOwned(k, m, rem, add, k');
    PlacedTradesNothing(k, m);
    FirstRound(k, m, rem, add, k');
    if AlmostConverged(k, m) {
      SecondRound(k, m, rem, add, k');
    } else {
      var t :| BothDefaults(k, t);
      DefaultTradedAway(k, m, rem, add, k', t);
    }
  }

  /** Two rounds converge exactly when the first trades no default route. */
  lemma TwoRoundsIff(k: Kernel, m: Desired, k1: Kernel, m1: Desired, k2: Kernel)
    requires Owned(k) && Rendered(m) && DistinctKernelKeys(m) && SameIntent(m, m1)
    requires Round(k, m, k1) && Round(k1, m1, k2)
    ensures Converged(k2, m) <==> !Trades(k, m)
    ensures Owned(k2) && AlmostConverged(k2, m)
  {
    var rem, add :| IsDiff(k, m, rem, add) && Applied(k, rem, add, k1);
    AppliedKeepsOwned(k, m, rem, add, k1);
    FirstRound(k, m, rem, add, k1);
    ByKeys(k1, m, m1);
    LaterRound(k1, m1, k2);
    ByKeys(k2, m, m1);
  }

  /** Three rounds converge from any kernel, whatever default routes are wanted. */
  lemma ThreeRoundsConverge(k: Kernel, m: Desired, k1: Kernel, m1: Desired, k2: Kernel, m2: Desired, k3: Kernel)
    requires Owned(k) && Rendered(m) && DistinctKernelKeys(m) && SameIntent(m, m1) && SameIntent(m, m2)
    requires Round(k, m, k1) && Round(k1, m1, k2) && Round(k2, m2, k3)
    ensures Converged(k3, m)
  {
    TwoRoundsIff(k, m, k1, m1, k2);
    ByKeys(k2, m, m2);
    LaterRound(k2, m2, k3);
    ByKeys(k3, m, m2);
  }
}
