/** What the ordered removals and insertions of one `Apply` add up to. */
module Stages {
  import opened Topology
  import opened Kernel
  import opened Dataplane

  /** One removal loop: the resources of one kind, in list order. */
  ghost function RemoveStage(k: Kernel, kind: Kind, rs: seq<Resource>): Kernel {
    if rs == [] then k
    else
      var k1 := RemoveStage(k, kind, rs[..|rs| - 1]);
      if KindOf(rs[|rs| - 1]) == kind then RemoveEffect(k1, rs[|rs| - 1]) else k1
  }

  ghost function AddStage(k: Kernel, kind: Kind, rs: seq<Resource>): Kernel {
    if rs == [] then k
    else
      var k1 := AddStage(k, kind, rs[..|rs| - 1]);
      if KindOf(rs[|rs| - 1]) == kind then AddEffect(k1, rs[|rs| - 1]) else k1
  }

  /** Every insertion of the loop was accepted. */
  ghost predicate AddsAccepted(k: Kernel, kind: Kind, rs: seq<Resource>) {
    rs != [] ==>
      && AddsAccepted(k, kind, rs[..|rs| - 1])
      && (KindOf(rs[|rs| - 1]) == kind ==> Addable(AddStage(k, kind, rs[..|rs| - 1]), rs[|rs| - 1]))
  }

  /** No removal of the loop is refused. */
  ghost predicate RemovesAccepted(k: Kernel, kind: Kind, rs: seq<Resource>) {
    rs != [] ==>
      && RemovesAccepted(k, kind, rs[..|rs| - 1])
      && (KindOf(rs[|rs| - 1]) == kind ==> Removable(RemoveStage(k, kind, rs[..|rs| - 1]), rs[|rs| - 1]))
  }

  /** The removal order of `Apply`: classifications, rules, segment routes, segments and routes
      first, then the links they may run over. */
  ghost function Removed(k: Kernel, rs: seq<Resource>): Kernel {
    RemoveStage(RemoveStage(NonLinksRemoved(k, rs), KXfrm, rs), KVrf, rs)
  }

  ghost function NonLinksRemoved(k: Kernel, rs: seq<Resource>): Kernel {
    RemoveStage(RemoveStage(RoutesLeft(k, rs), KSid, rs), KRoute, rs)
  }

  ghost function RoutesLeft(k: Kernel, rs: seq<Resource>): Kernel {
    RemoveStage(RemoveStage(RemoveStage(k, KMark, rs), KRule, rs), KSrRoute, rs)
  }

  // ---------- Keys named by a list of resources ----------

  ghost function MarkKeys(rs: seq<Resource>): set<int> {
    set r | r in rs && r.MarkR? :: r.dscp
  }

  ghost function RulesIn(rs: seq<Resource>): set<Rule> {
    set r | r in rs && r.RuleR? :: r.rule
  }

  ghost function SrKeys(rs: seq<Resource>): set<SrKey> {
    set r | r in rs && r.SrRouteR? :: SrKey(r.table, r.prefix)
  }

  ghost function SidKeys(rs: seq<Resource>): set<Addr> {
    set r | r in rs && r.SidR? :: r.sid
  }

  /** How many routes to one destination of a table are listed. */
  ghost function RouteCount(rs: seq<Resource>, table: int, dst: Prefix): nat {
    if rs == [] then 0
    else
      var r := rs[|rs| - 1];
      RouteCount(rs[..|rs| - 1], table, dst) + (if r.RouteR? && r.table == table && r.dst == dst then 1 else 0)
  }

  lemma Snoc(rs: seq<Resource>)
    requires rs != []
    ensures forall r :: r in rs <==> r in rs[..|rs| - 1] || r == rs[|rs| - 1]
  {
    assert rs == rs[..|rs| - 1] + [rs[|rs| - 1]];
  }

  lemma {:induction false} CountsNone(rs: seq<Resource>, table: int, dst: Prefix)
    requires forall r :: r in rs && r.RouteR? ==> r.table != table || r.dst != dst
    ensures RouteCount(rs, table, dst) == 0
    decreases |rs|
  {
    if rs != [] {
      Snoc(rs);
      CountsNone(rs[..|rs| - 1], table, dst);
    }
  }

  lemma {:induction false} CountsOne(rs: seq<Resource>, a: Resource)
    requires a in rs && a.RouteR?
    ensures RouteCount(rs, a.table, a.dst) >= 1
    decreases |rs|
  {
    Snoc(rs);
    if a != rs[|rs| - 1] {
      CountsOne(rs[..|rs| - 1], a);
    }
  }

  lemma {:induction false} CountsTwo(rs: seq<Resource>, a: Resource, b: Resource)
    requires a in rs && b in rs && a != b && a.RouteR? && b.RouteR? && a.table == b.table && a.dst == b.dst
    ensures RouteCount(rs, a.table, a.dst) >= 2
    decreases |rs|
  {
    Snoc(rs);
    var front, last := rs[..|rs| - 1], rs[|rs| - 1];
    if a == last {
      CountsOne(front, b);
    } else if b == last {
      CountsOne(front, a);
    } else {
      CountsTwo(front, a, b);
    }
  }

  lemma {:induction false} StageSkips(k: Kernel, kind: Kind, rs: seq<Resource>)
    requires forall r :: r in rs ==> KindOf(r) != kind
    ensures RemoveStage(k, kind, rs) == k && AddStage(k, kind, rs) == k
    decreases |rs|
  {
    if rs != [] {
      Snoc(rs);
      StageSkips(k, kind, rs[..|rs| - 1]);
    }
  }

  lemma {:induction false} RemoveStageOwned(k: Kernel, kind: Kind, rs: seq<Resource>)
    requires Owned(k)
    ensures Owned(RemoveStage(k, kind, rs))
    decreases |rs|
  {
    if rs != [] {
      RemoveStageOwned(k, kind, rs[..|rs| - 1]);
      RemoveKeepsOwned(RemoveStage(k, kind, rs[..|rs| - 1]), rs[|rs| - 1]);
    }
  }

  // ---------- Removals, kind by kind ----------

  lemma {:induction false} MarksRemoved(k: Kernel, rs: seq<Resource>)
    ensures RemoveStage(k, KMark, rs) == k.(marks := k.marks - MarkKeys(rs))
    decreases |rs|
  {
    if rs == [] {
      assert k.marks - MarkKeys(rs) == k.marks;
    } else {
      Snoc(rs);
      var front, r := rs[..|rs| - 1], rs[|rs| - 1];
      MarksRemoved(k, front);
      assert MarkKeys(rs) == MarkKeys(front) + if r.MarkR? then {r.dscp} else {};
    }
  }

  lemma {:induction false} RulesRemoved(k: Kernel, rs: seq<Resource>)
    ensures RemoveStage(k, KRule, rs) == k.(rules := k.rules - RulesIn(rs))
    decreases |rs|
  {
    if rs == [] {
      assert k.rules - RulesIn(rs) == k.rules;
    } else {
      Snoc(rs);
      var front, r := rs[..|rs| - 1], rs[|rs| - 1];
      RulesRemoved(k, front);
      assert RulesIn(rs) == RulesIn(front) + if r.RuleR? then {r.rule} else {};
    }
  }

  lemma {:induction false} SrRemoved(k: Kernel, rs: seq<Resource>)
    ensures RemoveStage(k, KSrRoute, rs) == k.(srRoutes := k.srRoutes - SrKeys(rs))
    decreases |rs|
  {
    if rs == [] {
      assert k.srRoutes - SrKeys(rs) == k.srRoutes;
    } else {
      Snoc(rs);
      var front, r := rs[..|rs| - 1], rs[|rs| - 1];
      SrRemoved(k, front);
      assert SrKeys(rs) == SrKeys(front) + if r.SrRouteR? then {SrKey(r.table, r.prefix)} else {};
    }
  }

  lemma {:induction false} SidsRemoved(k: Kernel, rs: seq<Resource>)
    ensures RemoveStage(k, KSid, rs) == k.(sids := k.sids - SidKeys(rs))
    decreases |rs|
  {
    if rs == [] {
      assert k.sids - SidKeys(rs) == k.sids;
    } else {
      Snoc(rs);
      var front, r := rs[..|rs| - 1], rs[|rs| - 1];
      SidsRemoved(k, front);
      assert SidKeys(rs) == SidKeys(front) + if r.SidR? then {r.sid} else {};
    }
  }

  /** A route survives when too few removals name its destination to reach its metric. */
  ghost predicate RouteStays(routes: map<RouteKey, string>, rs: seq<Resource>, key: RouteKey) {
    var n := RouteCount(rs, key.table, key.dst);
    if key.metric.Normal? then n == 0
    else n < 1 + if RouteKey(key.table, key.dst, Normal) in routes then 1 else 0
  }

  ghost predicate RoutesCut(routes: map<RouteKey, string>, rs: seq<Resource>, routes': map<RouteKey, string>) {
    && (forall key :: key in routes' <==> key in routes && RouteStays(routes, rs, key))
    && (forall key :: key in routes' ==> routes'[key] == routes[key])
  }

  lemma {:induction false} RoutesRemoved(k: Kernel, rs: seq<Resource>)
    ensures var k' := RemoveStage(k, KRoute, rs);
            k' == k.(routes := k'.routes) && RoutesCut(k.routes, rs, k'.routes)
    decreases |rs|
  {
    if rs != [] {
      var front, r := rs[..|rs| - 1], rs[|rs| - 1];
      RoutesRemoved(k, front);
      var k1, k' := RemoveStage(k, KRoute, front), RemoveStage(k, KRoute, rs);
      if r.RouteR? {
        forall key
          ensures key in k'.routes <==> key in k.routes && RouteStays(k.routes, rs, key)
        {
          assert RouteStays(k.routes, front, RouteKey(r.table, r.dst, Normal)) <==> RouteCount(front, r.table, r.dst) == 0;
        }
      } else {
        assert forall t, d :: RouteCount(rs, t, d) == RouteCount(front, t, d);
        assert forall key :: RouteStays(k.routes, rs, key) <==> RouteStays(k.routes, front, key);
      }
    }
  }

  // ---------- Links ----------

  predicate SameLink(a: Link, b: Link) {
    || (a.Vrf? && b == a)
    || (a.Xfrm? && b.Xfrm? && b.index == a.index && b.ifId == a.ifId)
  }

  /** A link once `names` are gone: a tunnel under one of them has no master any more. */
  function Freed(l: Link, names: set<string>): Link {
    if l.Xfrm? && l.master.Some? && l.master.value in names then l.(master := None) else l
  }

  /** The catch-alls that go with the vrfs among `names`. */
  ghost function CatchAllsOf(k: Kernel, names: set<string>): set<RouteKey> {
    set n | n in names && n in k.links && k.links[n].Vrf? :: RouteKey(k.links[n].table, DEFAULT_PREFIX, CatchAll)
  }

  ghost predicate RunsOn(k: Kernel, names: set<string>, key: RouteKey)
    requires key in k.routes
  {
    k.routes[key] in names || key in CatchAllsOf(k, names)
  }

  /** `names` are gone, and with them exactly the routes and segments that ran over them and the
      catch-alls of their tables. */
  ghost predicate LinksGone(k: Kernel, k': Kernel, names: set<string>) {
    && k'.links.Keys == k.links.Keys - names
    && (forall n :: n in k'.links ==> k'.links[n] == Freed(k.links[n], names))
    && (forall key :: key in k'.routes <==> key in k.routes && !RunsOn(k, names, key))
    && (forall key :: key in k'.routes ==> k'.routes[key] == k.routes[key])
    && (forall a :: a in k'.sids <==> a in k.sids && k.sids[a].dev !in names)
    && (forall a :: a in k'.sids ==> k'.sids[a] == k.sids[a])
    && k'.srRoutes == k.srRoutes && k'.rules == k.rules && k'.marks == k.marks && k'.foreign == k.foreign
  }

  lemma CatchAllsAdd(a: Kernel, b: Kernel, m: set<string>, n: set<string>)
    requires b.links.Keys == a.links.Keys - m
    requires forall x :: x in b.links ==> b.links[x] == Freed(a.links[x], m)
    ensures CatchAllsOf(a, m + n) == CatchAllsOf(a, m) + CatchAllsOf(b, n)
  {
    forall key | key in CatchAllsOf(a, m + n)
      ensures key in CatchAllsOf(a, m) + CatchAllsOf(b, n)
    {
      var x :| x in m + n && x in a.links && a.links[x].Vrf? && key == RouteKey(a.links[x].table, DEFAULT_PREFIX, CatchAll);
      assert x !in m ==> x in b.links && b.links[x] == a.links[x];
    }
    forall key | key in CatchAllsOf(b, n)
      ensures key in CatchAllsOf(a, m + n)
    {
      var x :| x in n && x in b.links && b.links[x].Vrf? && key == RouteKey(b.links[x].table, DEFAULT_PREFIX, CatchAll);
      assert a.links[x] == b.links[x];
    }
  }

  lemma LinksGoneTransitive(a: Kernel, b: Kernel, c: Kernel, m: set<string>, n: set<string>)
    requires LinksGone(a, b, m) && LinksGone(b, c, n)
    ensures LinksGone(a, c, m + n)
  {
    CatchAllsAdd(a, b, m, n);
  }

  /** Links of the right type whose index is listed for removal. */
  ghost function Listed(k: Kernel, kind: Kind, rs: seq<Resource>): set<string> {
    set n | n in k.links &&
      if k.links[n].Xfrm? then kind == KXfrm && exists r :: r in rs && r.XfrmR? && r.index == k.links[n].index
      else kind == KVrf && exists r :: r in rs && r.VrfR? && r.index == k.links[n].index
  }

  lemma NoLinkGone(k: Kernel)
    ensures LinksGone(k, k, {})
  {
    assert CatchAllsOf(k, {}) == {};
  }

  lemma VrfGone(k: Kernel, n: string)
    requires n in k.links && k.links[n].Vrf?
    ensures LinksGone(k, WithoutLink(k.(routes := k.routes - {RouteKey(k.links[n].table, DEFAULT_PREFIX, CatchAll)}), n), {n})
  {
    assert CatchAllsOf(k, {n}) == {RouteKey(k.links[n].table, DEFAULT_PREFIX, CatchAll)};
  }

  lemma XfrmGone(k: Kernel, n: string)
    requires n in k.links && k.links[n].Xfrm?
    ensures LinksGone(k, WithoutLink(k, n), {n})
  {
    assert CatchAllsOf(k, {n}) == {};
  }

  lemma RemoveOneLink(k: Kernel, r: Resource) returns (gone: set<string>)
    requires Owned(k) && (r.VrfR? || r.XfrmR?)
    ensures LinksGone(k, RemoveEffect(k, r), gone)
    ensures forall n :: n in gone <==> n in k.links && k.links[n].index == r.index && (k.links[n].Vrf? <==> r.VrfR?)
  {
    NoLinkGone(k);
    gone := {};
    match LinkAt(k, r.index)
    case None =>
    case Some(n) =>
      UniqueLinkAt(k, n);
      if k.links[n].Vrf? <==> r.VrfR? {
        gone := {n};
        if r.VrfR? {
          VrfGone(k, n);
        } else {
          XfrmGone(k, n);
        }
      }
  }

  lemma {:induction false} LinkStage(k: Kernel, kind: Kind, rs: seq<Resource>)
    requires Owned(k) && (kind == KVrf || kind == KXfrm)
    ensures LinksGone(k, RemoveStage(k, kind, rs), Listed(k, kind, rs))
    decreases |rs|
  {
    if rs == [] {
      assert Listed(k, kind, rs) == {};
      NoLinkGone(k);
    } else {
      Snoc(rs);
      var front, r := rs[..|rs| - 1], rs[|rs| - 1];
      var k1 := RemoveStage(k, kind, front);
      LinkStage(k, kind, front);
      RemoveStageOwned(k, kind, front);
      if KindOf(r) == kind {
        var gone := RemoveOneLink(k1, r);
        LinksGoneTransitive(k, k1, RemoveEffect(k1, r), Listed(k, kind, front), gone);
        ListedGrows(k, k1, kind, rs, gone);
      } else {
        assert Listed(k, kind, rs) == Listed(k, kind, front);
      }
    }
  }

  lemma ListedGrows(k: Kernel, k1: Kernel, kind: Kind, rs: seq<Resource>, gone: set<string>)
    requires rs != [] && KindOf(rs[|rs| - 1]) == kind && (kind == KVrf || kind == KXfrm)
    requires LinksGone(k, k1, Listed(k, kind, rs[..|rs| - 1]))
    requires forall n :: n in gone <==> n in k1.links && k1.links[n].index == rs[|rs| - 1].index && (k1.links[n].Vrf? <==> rs[|rs| - 1].VrfR?)
    ensures Listed(k, kind, rs) == Listed(k, kind, rs[..|rs| - 1]) + gone
  {
    Snoc(rs);
  }

  /** The links that a list removes. */
  ghost function LinksCut(k: Kernel, rs: seq<Resource>): set<string> {
    Listed(k, KXfrm, rs) + Listed(k, KVrf, rs)
  }

  ghost predicate RouteLasts(k: Kernel, rs: seq<Resource>, key: RouteKey)
    requires key in k.routes
  {
    RouteStays(k.routes, rs, key) && !RunsOn(k, LinksCut(k, rs), key)
  }

  /** Where a kernel stands after all removals of a list. */
  ghost predicate AfterRemoval(k: Kernel, rs: seq<Resource>, k': Kernel) {
    && k'.marks == k.marks - MarkKeys(rs)
    && k'.rules == k.rules - RulesIn(rs)
    && k'.srRoutes == k.srRoutes - SrKeys(rs)
    && (forall a :: a in k'.sids <==> a in k.sids && a !in SidKeys(rs) && k.sids[a].dev !in LinksCut(k, rs))
    && (forall a :: a in k'.sids ==> k'.sids[a] == k.sids[a])
    && (forall key :: key in k'.routes <==> key in k.routes && RouteLasts(k, rs, key))
    && (forall key :: key in k'.routes ==> k'.routes[key] == k.routes[key])
    && k'.links.Keys == k.links.Keys - LinksCut(k, rs)
    && (forall n :: n in k'.links ==> k'.links[n] == Freed(k.links[n], LinksCut(k, rs)))
    && k'.foreign == k.foreign
  }

  /** The state once classifications, rules, segment routes, segments and routes are removed. */
  ghost predicate AfterNonLinks(k: Kernel, rs: seq<Resource>, k': Kernel) {
    && k'.links == k.links && k'.foreign == k.foreign && k'.nextIndex == k.nextIndex
    && k'.marks == k.marks - MarkKeys(rs) && k'.rules == k.rules - RulesIn(rs)
    && k'.srRoutes == k.srRoutes - SrKeys(rs) && k'.sids == k.sids - SidKeys(rs)
    && RoutesCut(k.routes, rs, k'.routes)
  }

  lemma NonLinks(k: Kernel, rs: seq<Resource>)
    ensures AfterNonLinks(k, rs, NonLinksRemoved(k, rs))
    ensures Owned(k) ==> Owned(NonLinksRemoved(k, rs))
  {
    var k1 := RemoveStage(k, KMark, rs);
    MarksRemoved(k, rs);
    var k2 := RemoveStage(k1, KRule, rs);
    RulesRemoved(k1, rs);
    var k3 := RemoveStage(k2, KSrRoute, rs);
    SrRemoved(k2, rs);
    var k4 := RemoveStage(k3, KSid, rs);
    SidsRemoved(k3, rs);
    RoutesRemoved(k4, rs);
    if Owned(k) {
      RemoveStageOwned(k, KMark, rs);
      RemoveStageOwned(k1, KRule, rs);
      RemoveStageOwned(k2, KSrRoute, rs);
      RemoveStageOwned(k3, KSid, rs);
      RemoveStageOwned(k4, KRoute, rs);
    }
  }

  lemma LinksRemoved(k: Kernel, rs: seq<Resource>)
    requires Owned(k)
    ensures var k' := RemoveStage(RemoveStage(k, KXfrm, rs), KVrf, rs);
            Owned(k') && LinksGone(k, k', LinksCut(k, rs))
  {
    var k1 := RemoveStage(k, KXfrm, rs);
    LinkStage(k, KXfrm, rs);
    RemoveStageOwned(k, KXfrm, rs);
    LinkStage(k1, KVrf, rs);
    RemoveStageOwned(k1, KVrf, rs);
    assert Listed(k1, KVrf, rs) == Listed(k, KVrf, rs);
    LinksGoneTransitive(k, k1, RemoveStage(k1, KVrf, rs), Listed(k, KXfrm, rs), Listed(k, KVrf, rs));
  }

  /** Removing the links last, after what the list names of the other kinds. */
  lemma ThenLinks(k: Kernel, rs: seq<Resource>, k1: Kernel, k2: Kernel)
    requires AfterNonLinks(k, rs, k1) && LinksGone(k1, k2, LinksCut(k1, rs))
    ensures AfterRemoval(k, rs, k2)
  {
    assert Listed(k1, KXfrm, rs) == Listed(k, KXfrm, rs);
    assert Listed(k1, KVrf, rs) == Listed(k, KVrf, rs);
    var cut := LinksCut(k, rs);
    assert LinksCut(k1, rs) == cut;
    assert CatchAllsOf(k1, cut) == CatchAllsOf(k, cut);
    forall key
      ensures key in k2.routes <==> key in k.routes && RouteLasts(k, rs, key)
    {
      assert key in k1.routes ==> (RunsOn(k1, cut, key) <==> RunsOn(k, cut, key));
    }
  }

  /** All removals of a list together take exactly what they name, and what runs over the links
      among it. */
  lemma AllRemoved(k: Kernel, rs: seq<Resource>)
    requires Owned(k)
    ensures Owned(Removed(k, rs)) && AfterRemoval(k, rs, Removed(k, rs))
  {
    var k5 := NonLinksRemoved(k, rs);
    NonLinks(k, rs);
    LinksRemoved(k5, rs);
    ThenLinks(k, rs, k5, Removed(k, rs));
  }

  /** Without links among them, removals take exactly what they name. */
  lemma NoLinksRemoved(k: Kernel, rs: seq<Resource>)
    requires forall r :: r in rs ==> !r.VrfR? && !r.XfrmR?
    ensures AfterNonLinks(k, rs, Removed(k, rs))
  {
    NonLinks(k, rs);
    StageSkips(NonLinksRemoved(k, rs), KXfrm, rs);
    StageSkips(NonLinksRemoved(k, rs), KVrf, rs);
  }

  // ---------- Insertions, kind by kind ----------

  /** No two resources of the list want the same kernel key. A vrf takes a name and a table. */
  ghost predicate KeysApart(rs: seq<Resource>) {
    forall a, b :: a in rs && b in rs && a != b ==> Apart(a, b)
  }

  predicate Apart(a: Resource, b: Resource) {
    match (a, b)
    case (VrfR(n, t, _), VrfR(m, u, _)) => n != m && t != u
    case (VrfR(n, _, _), XfrmR(m, _, _, _, _)) => n != m
    case (XfrmR(n, _, _, _, _), VrfR(m, _, _)) => n != m
    case (XfrmR(n, _, _, _, _), XfrmR(m, _, _, _, _)) => n != m
    case (RouteR(t, d, _), RouteR(u, e, _)) => t != u || d != e
    case (SidR(_, x, _), SidR(_, y, _)) => x != y
    case (SrRouteR(t, p, _), SrRouteR(u, q, _)) => t != u || p != q
    case (MarkR(d, _), MarkR(e, _)) => d != e
    case (_, _) => true
  }

  /** No two links of the list want the same name. */
  ghost predicate NamesApart(rs: seq<Resource>) {
    forall a, b :: a in rs && b in rs && a != b && IsLink(a) && IsLink(b) ==> a.name != b.name
  }

  predicate IsLink(r: Resource) {
    r.VrfR? || r.XfrmR?
  }

  lemma FrontNamesApart(rs: seq<Resource>)
    requires rs != [] && NamesApart(rs)
    ensures NamesApart(rs[..|rs| - 1])
    ensures var front, last := rs[..|rs| - 1], rs[|rs| - 1];
            forall a :: a in front && a != last && IsLink(a) && IsLink(last) ==> a.name != last.name
  {
    Snoc(rs);
  }

  lemma FrontApart(rs: seq<Resource>)
    requires rs != [] && KeysApart(rs)
    ensures KeysApart(rs[..|rs| - 1])
    ensures var front, last := rs[..|rs| - 1], rs[|rs| - 1];
            forall a :: a in front && a != last ==> Apart(a, last)
  {
    Snoc(rs);
  }

  ghost function VrfNames(rs: seq<Resource>): set<string> {
    set r | r in rs && r.VrfR? :: r.name
  }

  ghost function CatchAlls(rs: seq<Resource>): set<RouteKey> {
    set r | r in rs && r.VrfR? :: RouteKey(r.table, DEFAULT_PREFIX, CatchAll)
  }

  ghost predicate VrfsAdded(k: Kernel, rs: seq<Resource>, k': Kernel) {
    && k'.links.Keys == k.links.Keys + VrfNames(rs)
    && (forall n :: n in k'.links ==> if n in k.links then k'.links[n] == k.links[n] else k'.links[n].Vrf?)
    && k'.routes.Keys == k.routes.Keys + CatchAlls(rs)
    && (forall key :: key in k'.routes ==> k'.routes[key] == if key in CatchAlls(rs) then LOOPBACK else k.routes[key])
    && k'.sids == k.sids && k'.srRoutes == k.srRoutes && k'.rules == k.rules && k'.marks == k.marks && k'.foreign == k.foreign
  }

  lemma OneVrf(k: Kernel, r: Resource)
    requires r.VrfR?
    ensures VrfsAdded(k, [r], WithVrf(k, r.name, r.table))
  {
    assert VrfNames([r]) == {r.name};
    assert CatchAlls([r]) == {RouteKey(r.table, DEFAULT_PREFIX, CatchAll)};
  }

  lemma VrfsAddedOn(k: Kernel, a: seq<Resource>, k1: Kernel, b: seq<Resource>, k2: Kernel)
    requires VrfsAdded(k, a, k1) && VrfsAdded(k1, b, k2)
    ensures VrfsAdded(k, a + b, k2)
  {
    assert VrfNames(a + b) == VrfNames(a) + VrfNames(b);
    assert CatchAlls(a + b) == CatchAlls(a) + CatchAlls(b);
  }

  lemma {:induction false} VrfStage(k: Kernel, rs: seq<Resource>)
    ensures VrfsAdded(k, rs, AddStage(k, KVrf, rs))
    decreases |rs|
  {
    if rs == [] {
      assert VrfNames(rs) == {} && CatchAlls(rs) == {};
    } else {
      Snoc(rs);
      var front, r := rs[..|rs| - 1], rs[|rs| - 1];
      VrfStage(k, front);
      var k1 := AddStage(k, KVrf, front);
      if r.VrfR? {
        OneVrf(k1, r);
        VrfsAddedOn(k, front, k1, [r], WithVrf(k1, r.name, r.table));
        assert rs == front + [r];
      } else {
        assert VrfNames(rs) == VrfNames(front) && CatchAlls(rs) == CatchAlls(front);
      }
    }
  }

  ghost predicate XfrmsAdded(k: Kernel, rs: seq<Resource>, k': Kernel) {
    && (forall n :: n in k'.links ==> n in k.links || exists r :: r in rs && r.XfrmR? && r.name == n)
    && (forall r :: r in rs && r.XfrmR? ==> r.name in k'.links && k'.links[r.name].Xfrm? && k'.links[r.name].ifId == r.ifId && k'.links[r.name].master == r.master)
    && (forall n :: n in k.links && (forall r :: r in rs && r.XfrmR? ==> r.name != n) ==> n in k'.links && k'.links[n] == k.links[n])
    && k'.routes == k.routes && k'.sids == k.sids && k'.srRoutes == k.srRoutes && k'.rules == k.rules && k'.marks == k.marks && k'.foreign == k.foreign
  }

  lemma XfrmsAddedOn(k: Kernel, rs: seq<Resource>, k1: Kernel, r: Resource)
    requires XfrmsAdded(k, rs, k1) && r.XfrmR? && forall a :: a in rs && a != r && a.XfrmR? ==> a.name != r.name
    ensures XfrmsAdded(k, rs + [r], WithXfrm(k1, r.name, r.ifId, r.master))
  {
    var rs' := rs + [r];
    assert r in rs' && forall a :: a in rs ==> a in rs';
    assert forall a :: a in rs' ==> a in rs || a == r;
  }

  lemma XfrmsAddedSkip(k: Kernel, rs: seq<Resource>, k1: Kernel, r: Resource)
    requires XfrmsAdded(k, rs, k1) && !r.XfrmR?
    ensures XfrmsAdded(k, rs + [r], k1)
  {
    assert forall a :: a in rs + [r] ==> a in rs || a == r;
    assert forall a :: a in rs ==> a in rs + [r];
  }

  lemma {:induction false} XfrmStage(k: Kernel, rs: seq<Resource>)
    requires NamesApart(rs)
    ensures XfrmsAdded(k, rs, AddStage(k, KXfrm, rs))
    decreases |rs|
  {
    if rs != [] {
      var front, r := rs[..|rs| - 1], rs[|rs| - 1];
      FrontNamesApart(rs);
      XfrmStage(k, front);
      assert rs == front + [r];
      if r.XfrmR? {
        XfrmsAddedOn(k, front, AddStage(k, KXfrm, front), r);
      } else {
        XfrmsAddedSkip(k, front, AddStage(k, KXfrm, front), r);
      }
    }
  }

  ghost predicate RoutesAdded(k: Kernel, rs: seq<Resource>, k': Kernel) {
    && (forall r :: r in rs && r.RouteR? ==> RouteKey(r.table, r.dst, Normal) in k'.routes && k'.routes[RouteKey(r.table, r.dst, Normal)] == r.dev)
    && (forall key :: key in k.routes && (forall r :: r in rs && r.RouteR? ==> RouteKey(r.table, r.dst, Normal) != key) ==>
          key in k'.routes && k'.routes[key] == k.routes[key])
    && (forall key :: key in k'.routes ==> key in k.routes || exists r :: r in rs && r.RouteR? && RouteKey(r.table, r.dst, Normal) == key)
    && k' == k.(routes := k'.routes)
  }

  lemma {:induction false} RouteStage(k: Kernel, rs: seq<Resource>)
    requires KeysApart(rs)
    ensures RoutesAdded(k, rs, AddStage(k, KRoute, rs))
    decreases |rs|
  {
    if rs != [] {
      Snoc(rs);
      FrontApart(rs);
      RouteStage(k, rs[..|rs| - 1]);
    }
  }

  ghost predicate SidsAdded(k: Kernel, rs: seq<Resource>, k': Kernel) {
    && (forall r :: r in rs && r.SidR? ==> r.sid in k'.sids && k'.sids[r.sid].kind == "dt46")
    && (forall a :: a in k.sids && a !in SidKeys(rs) ==> a in k'.sids && k'.sids[a] == k.sids[a])
    && (forall a :: a in k'.sids ==> a in k.sids || a in SidKeys(rs))
    && k' == k.(sids := k'.sids)
  }

  lemma {:induction false} SidStage(k: Kernel, rs: seq<Resource>)
    requires AddsAccepted(k, KSid, rs)
    ensures SidsAdded(k, rs, AddStage(k, KSid, rs))
    decreases |rs|
  {
    if rs != [] {
      Snoc(rs);
      var front, r := rs[..|rs| - 1], rs[|rs| - 1];
      SidStage(k, front);
      assert SidKeys(rs) == SidKeys(front) + if r.SidR? then {r.sid} else {};
    }
  }

  ghost predicate SrAdded(k: Kernel, rs: seq<Resource>, k': Kernel) {
    && (forall r :: r in rs && r.SrRouteR? ==> SrKey(r.table, r.prefix) in k'.srRoutes && k'.srRoutes[SrKey(r.table, r.prefix)] == r.segments)
    && (forall x :: x in k.srRoutes && x !in SrKeys(rs) ==> x in k'.srRoutes && k'.srRoutes[x] == k.srRoutes[x])
    && (forall x :: x in k'.srRoutes ==> x in k.srRoutes || x in SrKeys(rs))
    && k' == k.(srRoutes := k'.srRoutes)
  }

  lemma {:induction false} SrStage(k: Kernel, rs: seq<Resource>)
    requires KeysApart(rs)
    ensures SrAdded(k, rs, AddStage(k, KSrRoute, rs))
    decreases |rs|
  {
    if rs != [] {
      Snoc(rs);
      FrontApart(rs);
      var front, r := rs[..|rs| - 1], rs[|rs| - 1];
      SrStage(k, front);
      assert SrKeys(rs) == SrKeys(front) + if r.SrRouteR? then {SrKey(r.table, r.prefix)} else {};
    }
  }

  lemma {:induction false} RuleStage(k: Kernel, rs: seq<Resource>)
    ensures AddStage(k, KRule, rs) == k.(rules := k.rules + RulesIn(rs))
    decreases |rs|
  {
    if rs == [] {
      assert k.rules + RulesIn(rs) == k.rules;
    } else {
      Snoc(rs);
      var front, r := rs[..|rs| - 1], rs[|rs| - 1];
      RuleStage(k, front);
      assert RulesIn(rs) == RulesIn(front) + if r.RuleR? then {r.rule} else {};
    }
  }

  ghost predicate MarksAdded(k: Kernel, rs: seq<Resource>, k': Kernel) {
    && (forall r :: r in rs && r.MarkR? ==> r.dscp in k'.marks && k'.marks[r.dscp] == r.mark)
    && (forall d :: d in k.marks && d !in MarkKeys(rs) ==> d in k'.marks && k'.marks[d] == k.marks[d])
    && (forall d :: d in k'.marks ==> d in k.marks || d in MarkKeys(rs))
    && k' == k.(marks := k'.marks)
  }

  lemma {:induction false} MarkStage(k: Kernel, rs: seq<Resource>)
    requires KeysApart(rs)
    ensures MarksAdded(k, rs, AddStage(k, KMark, rs))
    decreases |rs|
  {
    if rs != [] {
      Snoc(rs);
      FrontApart(rs);
      var front, r := rs[..|rs| - 1], rs[|rs| - 1];
      MarkStage(k, front);
      assert MarkKeys(rs) == MarkKeys(front) + if r.MarkR? then {r.dscp} else {};
    }
  }

  /** The insertion order of `Apply`: links first, then what runs over them. */
  datatype Adding = Adding(vrfs: Kernel, xfrms: Kernel, routes: Kernel, sids: Kernel, srRoutes: Kernel, rules: Kernel, marks: Kernel)

  ghost function Added(k: Kernel, rs: seq<Resource>): Adding {
    var k1 := AddStage(k, KVrf, rs);
    var k2 := AddStage(k1, KXfrm, rs);
    var k3 := AddStage(k2, KRoute, rs);
    var k4 := AddStage(k3, KSid, rs);
    var k5 := AddStage(k4, KSrRoute, rs);
    var k6 := AddStage(k5, KRule, rs);
    Adding(k1, k2, k3, k4, k5, k6, AddStage(k6, KMark, rs))
  }

  ghost predicate AllAccepted(k: Kernel, rs: seq<Resource>) {
    var a := Added(k, rs);
    && AddsAccepted(k, KVrf, rs) && AddsAccepted(a.vrfs, KXfrm, rs) && AddsAccepted(a.xfrms, KRoute, rs)
    && AddsAccepted(a.routes, KSid, rs) && AddsAccepted(a.sids, KSrRoute, rs)
    && AddsAccepted(a.srRoutes, KRule, rs) && AddsAccepted(a.rules, KMark, rs)
  }

  ghost predicate XfrmNamed(rs: seq<Resource>, n: string) {
    exists r :: r in rs && r.XfrmR? && r.name == n
  }

  /** The links after all insertions of a list. */
  ghost predicate LinksAfter(k: Kernel, rs: seq<Resource>, k': Kernel) {
    && (forall n :: n in k'.links <==> n in k.links || n in VrfNames(rs) || XfrmNamed(rs, n))
    && (forall r :: r in rs && r.XfrmR? ==> r.name in k'.links && k'.links[r.name].Xfrm? && k'.links[r.name].ifId == r.ifId)
    && (forall n :: n in k.links && !XfrmNamed(rs, n) ==> n in k'.links && k'.links[n] == k.links[n])
    && (forall n :: n in VrfNames(rs) && n !in k.links && !XfrmNamed(rs, n) ==> n in k'.links && k'.links[n].Vrf?)
  }

  ghost predicate RouteNamed(rs: seq<Resource>, key: RouteKey) {
    exists r :: r in rs && r.RouteR? && key == RouteKey(r.table, r.dst, Normal)
  }

  /** The routes after all insertions of a list: new vrfs bring their catch-all along. */
  ghost predicate RoutesAfter(k: Kernel, rs: seq<Resource>, k': Kernel) {
    && (forall key :: key in k'.routes <==> key in k.routes || key in CatchAlls(rs) || RouteNamed(rs, key))
    && (forall r :: r in rs && r.RouteR? ==> RouteKey(r.table, r.dst, Normal) in k'.routes && k'.routes[RouteKey(r.table, r.dst, Normal)] == r.dev)
    && (forall key :: key in k.routes && key !in CatchAlls(rs) && !RouteNamed(rs, key) ==> key in k'.routes && k'.routes[key] == k.routes[key])
    && (forall key :: key in CatchAlls(rs) ==> key in k'.routes && k'.routes[key] == LOOPBACK)
  }

  ghost predicate RestAfter(k: Kernel, rs: seq<Resource>, k': Kernel) {
    && SidsAdded(k.(sids := k.sids), rs, k.(sids := k'.sids))
    && SrAdded(k, rs, k.(srRoutes := k'.srRoutes))
    && k'.rules == k.rules + RulesIn(rs)
    && MarksAdded(k, rs, k.(marks := k'.marks))
  }

  lemma AllAdded(k: Kernel, rs: seq<Resource>)
    requires KeysApart(rs) && AllAccepted(k, rs)
    ensures var k' := Added(k, rs).marks; LinksAfter(k, rs, k') && RoutesAfter(k, rs, k') && RestAfter(k, rs, k')
  {
    var a := Added(k, rs);
    VrfStage(k, rs);
    assert forall x, y :: x in rs && y in rs && x != y && IsLink(x) && IsLink(y) ==> Apart(x, y);
    XfrmStage(a.vrfs, rs);
    RouteStage(a.xfrms, rs);
    SidStage(a.routes, rs);
    SrStage(a.sids, rs);
    RuleStage(a.srRoutes, rs);
    MarkStage(a.rules, rs);
    LinksThrough(k, rs, a.vrfs, a.xfrms, a.marks);
    RoutesThrough(k, rs, a.vrfs, a.xfrms, a.routes, a.marks);
  }

  lemma LinksThrough(k: Kernel, rs: seq<Resource>, v: Kernel, x: Kernel, k': Kernel)
    requires VrfsAdded(k, rs, v) && XfrmsAdded(v, rs, x) && k'.links == x.links
    ensures LinksAfter(k, rs, k')
  {
    forall n
      ensures n in k'.links <==> n in k.links || n in VrfNames(rs) || XfrmNamed(rs, n)
      ensures n in k.links && !XfrmNamed(rs, n) ==> n in k'.links && k'.links[n] == k.links[n]
      ensures n in VrfNames(rs) && n !in k.links && !XfrmNamed(rs, n) ==> n in k'.links && k'.links[n].Vrf?
    {
      if !XfrmNamed(rs, n) {
        assert n in v.links ==> n in x.links && x.links[n] == v.links[n];
      }
    }
  }

  lemma RoutesThrough(k: Kernel, rs: seq<Resource>, v: Kernel, x: Kernel, z: Kernel, k': Kernel)
    requires VrfsAdded(k, rs, v) && XfrmsAdded(v, rs, x) && RoutesAdded(x, rs, z) && k'.routes == z.routes
    ensures RoutesAfter(k, rs, k')
  {
    forall key
      ensures key in k'.routes <==> key in k.routes || key in CatchAlls(rs) || RouteNamed(rs, key)
      ensures key in k.routes && key !in CatchAlls(rs) && !RouteNamed(rs, key) ==> key in k'.routes && k'.routes[key] == k.routes[key]
      ensures key in CatchAlls(rs) ==> key in k'.routes && k'.routes[key] == LOOPBACK
    {
      if !RouteNamed(rs, key) {
        assert key in x.routes ==> key in z.routes && z.routes[key] == x.routes[key];
      }
      if RouteNamed(rs, key) {
        var r :| r in rs && r.RouteR? && key == RouteKey(r.table, r.dst, Normal);
        assert key.metric == Normal;
      }
    }
  }
}
