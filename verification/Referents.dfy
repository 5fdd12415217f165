/** Whatever `Apply` inserts finds what it refers to, because links come first; and what happens to a
    tunnel that hangs on the wrong vrf. */
module Referents {
  import opened Topology
  import opened Kernel
  import opened Stages
  import opened Convergence
  import opened RenderFacts

  /** A tunnel under no vrf, a route in a table that no wanted vrf owns, or a rule. */
  ghost predicate Standalone(m: Desired, r: Resource) {
    match r
    case XfrmR(_, _, _, master, _) => master.None?
    case RouteR(table, _, dev) =>
      && (forall v :: VrfId(v) in m ==> m[VrfId(v)].VrfR? && m[VrfId(v)].table != table)
      && (exists i :: XfrmId(dev, i) in m)
    case RuleR(_) => true
    case _ => false
  }

  ghost predicate Closed(m: Desired) {
    forall id :: id in m ==> RefersWithin(m, m[id]) || Standalone(m, m[id])
  }

  ghost predicate MasterAsDesired(k: Kernel, m: Desired, n: string, i: int) {
    XfrmId(n, i) in m && HasId(k, XfrmId(n, i)) && m[XfrmId(n, i)].XfrmR? && m[XfrmId(n, i)].master.Some? ==>
      k.links[n].master == m[XfrmId(n, i)].master && HasId(k, VrfId(k.links[n].master.value))
  }

  /** Tunnels already there, under an identifier that is still wanted, have their wanted master.
      Identifiers do not show this, so no diff repairs it. */
  ghost predicate MastersAsDesired(k: Kernel, m: Desired) {
    forall n, i :: MasterAsDesired(k, m, n, i)
  }

  ghost predicate Faithful(k: Kernel, m: Desired) {
    TablesAsDesired(k, m) && MastersAsDesired(k, m)
  }

  ghost predicate Start(k: Kernel, m: Desired, rem: seq<Resource>, add: seq<Resource>) {
    Owned(k) && Filed(m) && DistinctNames(m) && IsDiff(k, m, rem, add)
  }

  /** The kernel once the vrf loop and the first `j` turns of the tunnel loop are through. */
  ghost function LinkState(k: Kernel, rem: seq<Resource>, add: seq<Resource>, j: nat): Kernel
    requires j <= |add|
  {
    AddStage(AddStage(Removed(k, rem), KVrf, add), KXfrm, add[..j])
  }

  lemma AllTunnels(k: Kernel, rem: seq<Resource>, add: seq<Resource>)
    ensures LinkState(k, rem, add, |add|) == Added(Removed(k, rem), add).xfrms
  {
    assert add[..|add|] == add;
  }

  // ---------- Links, one by one ----------

  lemma {:induction false} VrfTables(k: Kernel, rs: seq<Resource>)
    requires NamesApart(rs)
    ensures var k' := AddStage(k, KVrf, rs); forall r :: r in rs && r.VrfR? && r.name !in k.links ==> OwnsTable(k', r.name, r.table)
    decreases |rs|
  {
    if rs != [] {
      Snoc(rs);
      FrontNamesApart(rs);
      VrfTables(k, rs[..|rs| - 1]);
      VrfStage(k, rs[..|rs| - 1]);
    }
  }

  /** A tunnel to be inserted takes a name that no kept link and no wanted vrf has. */
  lemma NewTunnelName(k: Kernel, m: Desired, rem: seq<Resource>, add: seq<Resource>, r: Resource)
    requires Start(k, m, rem, add) && r in add && r.XfrmR?
    ensures r.name in k.links ==> !DeviceKept(k, m, r.name)
    ensures VrfId(r.name) !in m
  {
    OneLinkPerName(m, r.name);
    assert IdOf(r) == XfrmId(r.name, r.ifId) && XfrmId(r.name, r.ifId) in m;
  }

  lemma NewVrfName(k: Kernel, m: Desired, rem: seq<Resource>, add: seq<Resource>, r: Resource)
    requires Start(k, m, rem, add) && r in add && r.VrfR?
    ensures r.name in k.links ==> !DeviceKept(k, m, r.name)
  {
    OneLinkPerName(m, r.name);
    assert IdOf(r) == VrfId(r.name) && VrfId(r.name) in m;
  }

  /** A link that no removal deletes stays through the link loops, at most without its master. */
  lemma KeptLink(k: Kernel, m: Desired, rem: seq<Resource>, add: seq<Resource>, j: nat, n: string)
    requires Start(k, m, rem, add) && j <= |add| && n in k.links && DeviceKept(k, m, n)
    ensures var x := LinkState(k, rem, add, j); n in x.links && x.links[n] == Freed(k.links[n], LinksCut(k, rem))
  {
    var kR := Removed(k, rem);
    AllRemoved(k, rem);
    CutIffUnwanted(k, m, rem, n);
    VrfStage(kR, add);
    AddsNamesApart(k, m, rem, add);
    assert forall r :: r in add[..j] ==> r in add;
    XfrmStage(AddStage(kR, KVrf, add), add[..j]);
    forall r | r in add[..j] && r.XfrmR?
      ensures r.name != n
    {
      NewTunnelName(k, m, rem, add, r);
    }
  }

  lemma NewVrf(k: Kernel, m: Desired, rem: seq<Resource>, add: seq<Resource>, j: nat, n: string)
    requires Start(k, m, rem, add) && j <= |add| && VrfId(n) in m && !HasId(k, VrfId(n))
    ensures OwnsTable(LinkState(k, rem, add, j), n, m[VrfId(n)].table)
  {
    var kR, r := Removed(k, rem), m[VrfId(n)];
    assert r in add;
    AllRemoved(k, rem);
    NewVrfName(k, m, rem, add, r);
    CutIffUnwanted(k, m, rem, n);
    AddsNamesApart(k, m, rem, add);
    VrfTables(kR, add);
    assert forall x :: x in add[..j] ==> x in add;
    XfrmStage(AddStage(kR, KVrf, add), add[..j]);
    forall x | x in add[..j] && x.XfrmR?
      ensures x.name != n
    {
      NewTunnelName(k, m, rem, add, x);
    }
  }

  lemma NewTunnel(k: Kernel, m: Desired, rem: seq<Resource>, add: seq<Resource>, n: string, i: int)
    requires Start(k, m, rem, add) && XfrmId(n, i) in m && !HasId(k, XfrmId(n, i))
    ensures var x := LinkState(k, rem, add, |add|);
            n in x.links && x.links[n].Xfrm? && x.links[n].ifId == i && x.links[n].master == m[XfrmId(n, i)].master
  {
    assert m[XfrmId(n, i)] in add && add[..|add|] == add;
    AddsNamesApart(k, m, rem, add);
    XfrmStage(AddStage(Removed(k, rem), KVrf, add), add);
  }

  /** By name, every wanted vrf is there once the vrf loop is through and every wanted tunnel once
      the tunnel loop is, whatever tables and masters the kernel had given them. */
  lemma LinksPresent(k: Kernel, m: Desired, rem: seq<Resource>, add: seq<Resource>, j: nat, n: string, i: int)
    requires Start(k, m, rem, add) && j <= |add|
    ensures VrfId(n) in m ==> HasId(LinkState(k, rem, add, j), VrfId(n))
    ensures XfrmId(n, i) in m ==> HasId(LinkState(k, rem, add, |add|), XfrmId(n, i))
  {
    if VrfId(n) in m {
      if HasId(k, VrfId(n)) {
        KeptLink(k, m, rem, add, j, n);
      } else {
        NewVrf(k, m, rem, add, j, n);
      }
    }
    if XfrmId(n, i) in m {
      if HasId(k, XfrmId(n, i)) {
        KeptLink(k, m, rem, add, |add|, n);
      } else {
        NewTunnel(k, m, rem, add, n, i);
      }
    }
  }

  /** In a faithful kernel the vrfs are there with their tables. */
  lemma VrfsStay(k: Kernel, m: Desired, rem: seq<Resource>, add: seq<Resource>, j: nat, n: string)
    requires Start(k, m, rem, add) && TablesAsDesired(k, m) && j <= |add| && VrfId(n) in m
    ensures OwnsTable(LinkState(k, rem, add, j), n, m[VrfId(n)].table)
  {
    if HasId(k, VrfId(n)) {
      KeptLink(k, m, rem, add, j, n);
    } else {
      NewVrf(k, m, rem, add, j, n);
    }
  }

  /** And the tunnels under their masters. */
  lemma TunnelsPresent(k: Kernel, m: Desired, rem: seq<Resource>, add: seq<Resource>, n: string, i: int)
    requires Start(k, m, rem, add) && Faithful(k, m) && Closed(m) && XfrmId(n, i) in m
    ensures var x := LinkState(k, rem, add, |add|);
            && n in x.links && x.links[n].Xfrm? && x.links[n].ifId == i
            && (m[XfrmId(n, i)].master.Some? ==> x.links[n].master == m[XfrmId(n, i)].master)
  {
    if HasId(k, XfrmId(n, i)) {
      KeptLink(k, m, rem, add, |add|, n);
      assert MasterAsDesired(k, m, n, i);
      if m[XfrmId(n, i)].master.Some? {
        var v := k.links[n].master.value;
        assert RefersWithin(m, m[XfrmId(n, i)]) && VrfId(v) in m;
        CutIffUnwanted(k, m, rem, v);
      }
    } else {
      NewTunnel(k, m, rem, add, n, i);
    }
  }

  // ---------- Every insertion finds its referents ----------

  lemma LinkStateOwned(k: Kernel, m: Desired, rem: seq<Resource>, add: seq<Resource>)
    requires Owned(k) && Rendered(m) && IsDiff(k, m, rem, add)
    requires AddsAccepted(Removed(k, rem), KVrf, add) && AddsAccepted(AddStage(Removed(k, rem), KVrf, add), KXfrm, add)
    ensures Owned(Added(Removed(k, rem), add).xfrms)
  {
    AllRemoved(k, rem);
    DiffIsInsertable(k, m, rem, add);
    assert Removed(k, rem).rules <= k.rules;
    WholeStageOwned(Removed(k, rem), KVrf, add);
    WholeStageOwned(AddStage(Removed(k, rem), KVrf, add), KXfrm, add);
  }

  lemma {:induction false} LinksUntouched(k: Kernel, kind: Kind, rs: seq<Resource>)
    requires kind != KVrf && kind != KXfrm
    ensures AddStage(k, kind, rs).links == k.links && AddStage(k, kind, rs).foreign == k.foreign
    decreases |rs|
  {
    if rs != [] {
      LinksUntouched(k, kind, rs[..|rs| - 1]);
    }
  }

  lemma SameOwner(k: Kernel, k': Kernel, table: int)
    requires k'.links == k.links && Owned(k)
    ensures OwnerOf(k', table) == OwnerOf(k, table)
  {
    assert forall a :: OwnsTable(k', a, table) <==> OwnsTable(k, a, table);
    if OwnerOf(k, table).Some? {
      UniqueOwner(k, OwnerOf(k, table).value, table);
    }
  }

  lemma LinksAfterLoops(k: Kernel, m: Desired, rem: seq<Resource>, add: seq<Resource>)
    requires Start(k, m, rem, add)
    ensures LinksAfter(Removed(k, rem), add, LinkState(k, rem, add, |add|))
  {
    var kR, x := Removed(k, rem), LinkState(k, rem, add, |add|);
    var v := AddStage(kR, KVrf, add);
    assert add[..|add|] == add;
    VrfStage(kR, add);
    AddsNamesApart(k, m, rem, add);
    XfrmStage(v, add);
    LinksThrough(kR, add, v, x, x);
  }

  /** Only wanted links are left. */
  lemma LinksAreWanted(k: Kernel, m: Desired, rem: seq<Resource>, add: seq<Resource>, n: string, i: int)
    requires Start(k, m, rem, add)
    ensures HasId(LinkState(k, rem, add, |add|), VrfId(n)) ==> VrfId(n) in m
    ensures HasId(LinkState(k, rem, add, |add|), XfrmId(n, i)) ==> XfrmId(n, i) in m
  {
    var x := LinkState(k, rem, add, |add|);
    AllRemoved(k, rem);
    LinksAfterLoops(k, m, rem, add);
    VrfsConverge(k, m, rem, add, Removed(k, rem), x, n);
    XfrmsConverge(k, m, rem, add, Removed(k, rem), x, n, i);
  }

  lemma OwnersAreWanted(k: Kernel, m: Desired, rem: seq<Resource>, add: seq<Resource>, v: string, table: int)
    requires Start(k, m, rem, add) && TablesAsDesired(k, m) && OwnsTable(LinkState(k, rem, add, |add|), v, table)
    ensures VrfId(v) in m && m[VrfId(v)].table == table
  {
    LinksAreWanted(k, m, rem, add, v, 0);
    VrfsStay(k, m, rem, add, |add|, v);
  }

  lemma RouteUnderVrf(k: Kernel, m: Desired, rem: seq<Resource>, add: seq<Resource>, r: Resource)
    requires Start(k, m, rem, add) && Faithful(k, m) && Closed(m) && r.RouteR? && RefersWithin(m, r)
    ensures var x := LinkState(k, rem, add, |add|);
            r.dev in x.links && x.links[r.dev].Xfrm? && x.links[r.dev].master.Some? && OwnsTable(x, x.links[r.dev].master.value, r.table)
  {
    var v :| VrfWithTable(m, v, r.table) && TunnelInto(m, r.dev, v);
    var i :| XfrmId(r.dev, i) in m && m[XfrmId(r.dev, i)].XfrmR? && m[XfrmId(r.dev, i)].master == Some(v);
    TunnelsPresent(k, m, rem, add, r.dev, i);
    VrfsStay(k, m, rem, add, |add|, v);
  }

  lemma RouteOutsideVrfs(k: Kernel, m: Desired, rem: seq<Resource>, add: seq<Resource>, r: Resource)
    requires Start(k, m, rem, add) && Faithful(k, m) && r.RouteR? && Standalone(m, r)
    ensures var x := LinkState(k, rem, add, |add|); r.dev in x.links && OwnerOf(x, r.table).None?
  {
    var x := LinkState(k, rem, add, |add|);
    var i :| XfrmId(r.dev, i) in m;
    LinksPresent(k, m, rem, add, |add|, r.dev, i);
    if OwnerOf(x, r.table).Some? {
      OwnersAreWanted(k, m, rem, add, OwnerOf(x, r.table).value, r.table);
    }
  }

  lemma RouteFinds(k: Kernel, m: Desired, rem: seq<Resource>, add: seq<Resource>, r: Resource)
    requires Start(k, m, rem, add) && Rendered(m) && Faithful(k, m) && Closed(m) && r in add && r.RouteR?
    requires AddsAccepted(Removed(k, rem), KVrf, add) && AddsAccepted(AddStage(Removed(k, rem), KVrf, add), KXfrm, add)
    ensures Addable(Added(Removed(k, rem), add).xfrms, r)
  {
    var x := Added(Removed(k, rem), add).xfrms;
    AllTunnels(k, rem, add);
    LinkStateOwned(k, m, rem, add);
    assert m[IdOf(r)] == r;
    if RefersWithin(m, r) {
      RouteUnderVrf(k, m, rem, add, r);
      UniqueOwner(x, x.links[r.dev].master.value, r.table);
    } else {
      RouteOutsideVrfs(k, m, rem, add, r);
    }
  }

  lemma SidFinds(k: Kernel, m: Desired, rem: seq<Resource>, add: seq<Resource>, r: Resource)
    requires Start(k, m, rem, add) && Faithful(k, m) && Closed(m) && r in add && r.SidR?
    ensures exists v :: OwnsTable(Added(Removed(k, rem), add).xfrms, v, r.table)
  {
    assert RefersWithin(m, m[IdOf(r)]);
    var v :| VrfWithTable(m, v, r.table);
    VrfsStay(k, m, rem, add, |add|, v);
    AllTunnels(k, rem, add);
  }

  /** A resource finds its referents in a kernel: a tunnel its master, a route a tunnel under the vrf
      that owns its table if any does, a segment a vrf to decapsulate into. */
  ghost predicate FindsReferents(k: Kernel, r: Resource) {
    match r
    case XfrmR(_, _, _, master, _) => master.Some? ==> master.value in k.links && k.links[master.value].Vrf?
    case RouteR(_, _, _) => Addable(k, r)
    case SidR(_, _, _) => Addable(k, r)
    case _ => true
  }

  /** The kernel that the insertion of `add[j]` meets, for links, routes and segments. */
  ghost function StateAt(k: Kernel, rem: seq<Resource>, add: seq<Resource>, j: nat): Kernel
    requires j < |add|
  {
    var a := Added(Removed(k, rem), add);
    match add[j]
    case VrfR(_, _, _) => AddStage(Removed(k, rem), KVrf, add[..j])
    case XfrmR(_, _, _, _, _) => AddStage(a.vrfs, KXfrm, add[..j])
    case RouteR(_, _, _) => AddStage(a.xfrms, KRoute, add[..j])
    case SidR(_, _, _) => AddStage(a.routes, KSid, add[..j])
    case SrRouteR(_, _, _) => AddStage(a.sids, KSrRoute, add[..j])
    case RuleR(_) => AddStage(a.srRoutes, KRule, add[..j])
    case MarkR(_, _) => AddStage(a.rules, KMark, add[..j])
  }

  /** In every round, every insertion finds its referents. Only the names of the desired links must
      differ, and links that were there must be as desired. */
  lemma InsertsFindReferents(k: Kernel, m: Desired, rem: seq<Resource>, add: seq<Resource>, j: nat)
    requires Start(k, m, rem, add) && Rendered(m) && Faithful(k, m) && Closed(m) && j < |add|
    requires AddsAccepted(Removed(k, rem), KVrf, add) && AddsAccepted(AddStage(Removed(k, rem), KVrf, add), KXfrm, add)
    ensures FindsReferents(StateAt(k, rem, add, j), add[j])
  {
    var r, a := add[j], Added(Removed(k, rem), add);
    assert r in add && IdOf(r) in m && m[IdOf(r)] == r;
    if r.XfrmR? && r.master.Some? {
      assert RefersWithin(m, m[IdOf(r)]);
      VrfsStay(k, m, rem, add, j, r.master.value);
    } else if r.RouteR? {
      RouteFinds(k, m, rem, add, r);
      LinksUntouched(a.xfrms, KRoute, add[..j]);
      LinkStateOwned(k, m, rem, add);
      SameOwner(a.xfrms, AddStage(a.xfrms, KRoute, add[..j]), r.table);
    } else if r.SidR? {
      SidFinds(k, m, rem, add, r);
      LinksUntouched(a.xfrms, KRoute, add);
      LinksUntouched(a.routes, KSid, add[..j]);
      var v :| OwnsTable(a.xfrms, v, r.table);
      assert OwnsTable(AddStage(a.routes, KSid, add[..j]), v, r.table);
    }
  }

  // ---------- What no retry repairs ----------

  /** A wanted tunnel that is there is never moved: its identifier is in both the kernel and the
      intent, so a round leaves it under a wanted vrf exactly if it already was. */
  lemma MasterStays(k: Kernel, m: Desired, rem: seq<Resource>, add: seq<Resource>, n: string, i: int, v: string)
    requires Start(k, m, rem, add) && XfrmId(n, i) in m && HasId(k, XfrmId(n, i)) && VrfId(v) in m && HasId(k, VrfId(v))
    ensures var x := Added(Removed(k, rem), add).xfrms;
            n in x.links && x.links[n].Xfrm? && (x.links[n].master == Some(v) <==> k.links[n].master == Some(v))
  {
    AllTunnels(k, rem, add);
    KeptLink(k, m, rem, add, |add|, n);
    CutIffUnwanted(k, m, rem, v);
  }

  /** So a missing route over such a tunnel, into the table of a vrf that is there, is accepted
      exactly when the tunnel is already under that vrf. */
  lemma RouteAcceptedIff(k: Kernel, m: Desired, rem: seq<Resource>, add: seq<Resource>, j: nat, i: int, v: string)
    requires Start(k, m, rem, add) && Rendered(m) && j < |add| && add[j].RouteR?
    requires XfrmId(add[j].dev, i) in m && HasId(k, XfrmId(add[j].dev, i))
    requires VrfId(v) in m && OwnsTable(k, v, add[j].table) && add[j].table != MAIN_TABLE && add[j].table != 0
    requires AddsAccepted(Removed(k, rem), KVrf, add) && AddsAccepted(AddStage(Removed(k, rem), KVrf, add), KXfrm, add)
    ensures Addable(StateAt(k, rem, add, j), add[j]) <==> k.links[add[j].dev].master == Some(v)
  {
    var r, x := add[j], Added(Removed(k, rem), add).xfrms;
    MasterStays(k, m, rem, add, r.dev, i, v);
    KeptLink(k, m, rem, add, |add|, v);
    AllTunnels(k, rem, add);
    LinkStateOwned(k, m, rem, add);
    UniqueOwner(x, v, r.table);
    LinksUntouched(x, KRoute, add[..j]);
    SameOwner(x, AddStage(x, KRoute, add[..j]), r.table);
  }

  lemma {:induction false} AcceptedAt(k: Kernel, kind: Kind, rs: seq<Resource>, j: nat)
    requires AddsAccepted(k, kind, rs) && j < |rs| && KindOf(rs[j]) == kind
    ensures Addable(AddStage(k, kind, rs[..j]), rs[j])
    decreases |rs|
  {
    if j < |rs| - 1 {
      AcceptedAt(k, kind, rs[..|rs| - 1], j);
      assert rs[..|rs| - 1][..j] == rs[..j];
    }
  }

  /** A wanted tunnel under another vrf, or under none, blocks its missing routes in every round. */
  lemma WrongMasterBlocksRoutes(k: Kernel, m: Desired, rem: seq<Resource>, add: seq<Resource>, k': Kernel, n: string, i: int, v: string, dst: Prefix)
    requires Start(k, m, rem, add) && Rendered(m)
    requires XfrmId(n, i) in m && HasId(k, XfrmId(n, i)) && k.links[n].master != Some(v)
    requires VrfId(v) in m && v in k.links && k.links[v].Vrf? && k.links[v].table != MAIN_TABLE && k.links[v].table != 0
    requires RouteId(k.links[v].table, dst, n) in m && !HasId(k, RouteId(k.links[v].table, dst, n))
    ensures !Applied(k, rem, add, k')
  {
    var r := m[RouteId(k.links[v].table, dst, n)];
    assert r in add;
    var j :| 0 <= j < |add| && add[j] == r;
    if AllAccepted(Removed(k, rem), add) {
      AcceptedAt(Added(Removed(k, rem), add).xfrms, KRoute, add, j);
      RouteAcceptedIff(k, m, rem, add, j, i, v);
    }
  }
}
