/** What every rendering of an intent satisfies. */
module RenderFacts {
  import opened Topology
  import opened Kernel
  import opened Dataplane
  import opened Stages
  import opened Convergence
  import opened Render

  /** The maps that `RenderPe` may return. */
  ghost predicate IsRendering(h: Hash, pe: PeIntent, m: Desired) {
    exists owners :: RenderedWith(h, pe, m, owners)
  }

  lemma TenantPart(h: Hash, pe: PeIntent, m: Desired, t: string, r: Resource)
    requires IsRendering(h, pe, m) && t in pe.tenants && TenantWants(h, t, pe.tenants[t], r)
    ensures IdOf(r) in m && IdOf(m[IdOf(r)]) == IdOf(r)
  {
    var owners :| RenderedWith(h, pe, m, owners);
    assert Covers(h, pe, t, m, owners);
  }

  // ---------- Names ----------

  lemma {:induction false} DecimalDigits(n: nat)
    ensures Decimal(n) != "" && forall c :: c in Decimal(n) ==> '0' <= c <= '9'
  {
    if n >= 10 {
      DecimalDigits(n / 10);
    }
  }

  /** Reading a decimal back. */
  function Value(s: string): int {
    if s == "" then 0 else 10 * Value(s[..|s| - 1]) + (s[|s| - 1] as int - '0' as int)
  }

  lemma {:induction false} DecimalReadsBack(n: nat)
    ensures Value(Decimal(n)) == n
  {
    if n >= 10 {
      DecimalReadsBack(n / 10);
      var s := Decimal(n);
      assert s[..|s| - 1] == Decimal(n / 10);
    }
  }

  lemma DecimalInjective(a: nat, b: nat)
    requires Decimal(a) == Decimal(b)
    ensures a == b
  {
    DecimalReadsBack(a);
    DecimalReadsBack(b);
  }

  /** What stands before and after the last dash. */
  function AtLastDash(s: string): (string, string) {
    if s == "" then ("", "")
    else if s[|s| - 1] == '-' then (s[..|s| - 1], "")
    else var r := AtLastDash(s[..|s| - 1]); (r.0, r.1 + [s[|s| - 1]])
  }

  lemma {:induction false} DashSplits(p: string, x: string)
    requires '-' !in x
    ensures AtLastDash(p + "-" + x) == (p, x)
    decreases |x|
  {
    var s := p + "-" + x;
    if x == "" {
      assert s[..|s| - 1] == p;
    } else {
      assert s[..|s| - 1] == p + "-" + x[..|x| - 1] && s[|s| - 1] in x;
      DashSplits(p, x[..|x| - 1]);
      assert x == x[..|x| - 1] + [x[|x| - 1]];
    }
  }

  lemma TunnelNameInjective(t: string, i: nat, u: string, j: nat)
    requires TunnelName(t, i) == TunnelName(u, j)
    ensures t == u && i == j
  {
    DecimalDigits(i);
    DecimalDigits(j);
    DashSplits("maeto-tun-" + t, Decimal(i));
    DashSplits("maeto-tun-" + u, Decimal(j));
    assert t == ("maeto-tun-" + t)[10..] && u == ("maeto-tun-" + u)[10..];
    DecimalInjective(i, j);
  }

  lemma VrfNameInjective(t: string, u: string)
    requires VrfName(t) == VrfName(u)
    ensures t == u
  {
    assert t == VrfName(t)[10..] && u == VrfName(u)[10..];
  }

  lemma NamesDiffer(t: string, u: string, i: nat)
    ensures VrfName(t) != TunnelName(u, i)
    ensures TunnelName(u, i) != LOOPBACK
  {
    assert VrfName(t)[6] == 'v' && TunnelName(u, i)[6] == 't';
  }

  // ---------- References are closed ----------

  ghost predicate VrfWithTable(m: Desired, v: string, table: int) {
    VrfId(v) in m && m[VrfId(v)] == VrfR(v, table, 0)
  }

  ghost predicate TunnelInto(m: Desired, dev: string, v: string) {
    exists i :: XfrmId(dev, i) in m && m[XfrmId(dev, i)].XfrmR? && m[XfrmId(dev, i)].master == Some(v)
  }

  /** What a resource refers to is rendered too: the master of a tunnel, the tunnel of a route
      enslaved to the vrf of its table, the vrf of a segment and of a rule. */
  ghost predicate RefersWithin(m: Desired, r: Resource) {
    match r
    case XfrmR(_, _, _, master, _) => master.Some? && VrfId(master.value) in m
    case RouteR(table, _, dev) => exists v :: VrfWithTable(m, v, table) && TunnelInto(m, dev, v)
    case SidR(_, _, table) => exists v :: VrfWithTable(m, v, table)
    case RuleR(rule) => VrfId(rule.iif) in m
    case _ => true
  }

  /** Which tenant a rendered resource belongs to, and what it then looks like. */
  ghost predicate OfTenant(h: Hash, t: string, ti: TenantIntent, r: Resource) {
    match r
    case VrfR(_, _, _) => r == VrfR(VrfName(t), TableOf(h, t), 0)
    case XfrmR(_, _, _, _, _) => exists p :: p in ti.portals && PortalWants(h, t, ti.portals[p], r)
    case RouteR(_, _, _) => exists p :: p in ti.portals && PortalWants(h, t, ti.portals[p], r)
    case SidR(kind, _, table) => kind == "dt46" && table == TableOf(h, t)
    case SrRouteR(_, _, _) => SrWanted(h, t, ti, r)
    case RuleR(rule) => rule.mark >= 0 && rule == ColorRule(h, t, rule.mark)
    case MarkR(_, _) => false
  }

  lemma WantedOfTenant(h: Hash, t: string, ti: TenantIntent, r: Resource)
    requires TenantWants(h, t, ti, r) || SrWanted(h, t, ti, r)
    ensures OfTenant(h, t, ti, r)
  {
  }

  lemma TenantOf(h: Hash, pe: PeIntent, m: Desired, id: Id) returns (t: string)
    requires Sound(h, pe, m) && id in m && !m[id].MarkR?
    ensures t in pe.tenants && OfTenant(h, t, pe.tenants[t], m[id]) && IdOf(m[id]) == id
  {
    var r := m[id];
    assert Wanted(h, pe, r);
    t :| t in pe.tenants && (TenantWants(h, t, pe.tenants[t], r) || SrWanted(h, t, pe.tenants[t], r));
    WantedOfTenant(h, t, pe.tenants[t], r);
  }

  lemma VrfRendered(h: Hash, pe: PeIntent, m: Desired, t: string)
    requires IsRendering(h, pe, m) && t in pe.tenants
    ensures VrfWithTable(m, VrfName(t), TableOf(h, t))
  {
    var r := VrfR(VrfName(t), TableOf(h, t), 0);
    TenantPart(h, pe, m, t, r);
    var u := TenantOf(h, pe, m, VrfId(VrfName(t)));
    VrfNameInjective(t, u);
  }

  lemma TunnelRendered(h: Hash, pe: PeIntent, m: Desired, t: string, p: string)
    requires IsRendering(h, pe, m) && t in pe.tenants && p in pe.tenants[t].portals
    ensures TunnelInto(m, TunnelName(t, pe.tenants[t].portals[p].ifId), VrfName(t))
  {
    var portal := pe.tenants[t].portals[p];
    var r := XfrmR(TunnelName(t, portal.ifId), portal.ifId, portal.hostInterface, Some(VrfName(t)), 0);
    assert PortalWants(h, t, portal, r);
    TenantPart(h, pe, m, t, r);
    var u := TenantOf(h, pe, m, XfrmId(TunnelName(t, portal.ifId), portal.ifId));
    var got := m[XfrmId(TunnelName(t, portal.ifId), portal.ifId)];
    var q :| q in pe.tenants[u].portals && PortalWants(h, u, pe.tenants[u].portals[q], got);
    TunnelNameInjective(t, portal.ifId, u, pe.tenants[u].portals[q].ifId);
  }

  /** For every rendered PE intent, each resource's references are rendered too. */
  lemma ReferencesAreClosed(h: Hash, pe: PeIntent, m: Desired, id: Id)
    requires IsRendering(h, pe, m) && id in m
    ensures RefersWithin(m, m[id])
  {
    if !m[id].MarkR? {
      var t := TenantOf(h, pe, m, id);
      VrfRendered(h, pe, m, t);
      if m[id].RouteR? {
        var p :| p in pe.tenants[t].portals && PortalWants(h, t, pe.tenants[t].portals[p], m[id]);
        TunnelRendered(h, pe, m, t, p);
      }
    }
  }

  lemma RenderedOne(h: Hash, pe: PeIntent, m: Desired, id: Id)
    requires Sound(h, pe, m) && id in m
    ensures Sane(m[id]) && IdOf(m[id]) == id
    ensures id.SidId? ==> id.kind == "dt46"
  {
    if !m[id].MarkR? {
      var t := TenantOf(h, pe, m, id);
      if m[id].RouteR? {
        var p :| p in pe.tenants[t].portals && PortalWants(h, t, pe.tenants[t].portals[p], m[id]);
        NamesDiffer(t, t, pe.tenants[t].portals[p].ifId);
      }
    }
  }

  /** Renderings are what the convergence argument asks for. */
  lemma RenderingIsRendered(h: Hash, pe: PeIntent, m: Desired)
    requires Sound(h, pe, m)
    ensures Rendered(m)
  {
    forall id | id in m
      ensures Sane(m[id]) && IdOf(m[id]) == id
      ensures id.SidId? ==> id.kind == "dt46"
    {
      RenderedOne(h, pe, m, id);
    }
  }

  // ---------- Segment routes ----------

  /** The path belongs to the tenant that the first path of its color names. */
  ghost predicate Granted(ti: TenantIntent, p: InstallPath) {
    Grantee(ti.paths, p.color) == Some(p.tenant)
  }

  lemma {:induction false} GranteeExists(paths: seq<InstallPath>, p: InstallPath)
    requires p in paths && p.prefixes != []
    ensures Grantee(paths, p.color).Some?
  {
    var front := paths[..|paths| - 1];
    assert paths == front + [paths[|paths| - 1]];
    if p in front {
      GranteeExists(front, p);
    }
  }

  lemma {:induction false} GranteeIsOneOf(paths: seq<InstallPath>, color: nat)
    requires Grantee(paths, color).Some?
    ensures exists p :: p in paths && p.color == color && p.tenant == Grantee(paths, color).value
  {
    var front, last := paths[..|paths| - 1], paths[|paths| - 1];
    assert paths == front + [last];
    if Grantee(front, color).Some? {
      GranteeIsOneOf(front, color);
    } else {
      assert last in paths;
    }
  }

  /** Paths that all name the tenant they belong to are all granted. */
  lemma OwnPathsGranted(ti: TenantIntent, t: string, p: InstallPath)
    requires (forall q :: q in ti.paths ==> q.tenant == t) && p in ti.paths && p.prefixes != []
    ensures Granted(ti, p)
  {
    GranteeExists(ti.paths, p);
    GranteeIsOneOf(ti.paths, p.color);
  }

  lemma HolderOf(h: Hash, pe: PeIntent, m: Desired, owners: Owners, t: string, p: InstallPath)
    requires RenderedWith(h, pe, m, owners) && OneTableEach(h, pe) && t in pe.tenants && p in pe.tenants[t].paths && p.prefixes != []
    ensures var x := ColorTable(TableOf(h, t), p.color);
            x in owners && (owners[x] == p.tenant <==> Granted(pe.tenants[t], p))
  {
    assert FirstCome(TableOf(h, t), pe.tenants[t].paths, owners);
    GranteeExists(pe.tenants[t].paths, p);
    assert ColorTable(TableOf(h, t), p.color) in owners;
  }

  /** With a table for each tenant, the segment routes of granted paths are rendered. */
  lemma GrantedRendered(h: Hash, pe: PeIntent, m: Desired, t: string, p: InstallPath, r: Resource)
    requires IsRendering(h, pe, m) && OneTableEach(h, pe) && t in pe.tenants && p in pe.tenants[t].paths
    requires PathWants(h, t, p, r) && Granted(pe.tenants[t], p)
    ensures IdOf(r) in m && IdOf(m[IdOf(r)]) == IdOf(r)
  {
    var owners :| RenderedWith(h, pe, m, owners);
    HolderOf(h, pe, m, owners, t, p);
    assert Covers(h, pe, t, m, owners) && PathInstalled(h, t, p, m, owners);
  }

  /** And no others. */
  lemma RenderedGranted(h: Hash, pe: PeIntent, m: Desired, id: Id) returns (t: string, p: InstallPath)
    requires IsRendering(h, pe, m) && OneTableEach(h, pe) && id in m && m[id].SrRouteR?
    ensures t in pe.tenants && p in pe.tenants[t].paths && PathWants(h, t, p, m[id]) && Granted(pe.tenants[t], p)
    ensures |m[id].segments| == |p.segments| && forall i :: 0 <= i < |p.segments| ==> m[id].segments[i] == p.segments[|p.segments| - 1 - i]
  {
    var owners :| RenderedWith(h, pe, m, owners);
    t, p :| t in pe.tenants && p in pe.tenants[t].paths && PathWants(h, t, p, m[id]) && p.tenant == owners[m[id].table];
    HolderOf(h, pe, m, owners, t, p);
  }

  /** Whatever order maps are iterated in, the renderings of an intent with a table for each tenant
      have the same identifiers. */
  lemma RenderingsAgree(h: Hash, pe: PeIntent, m: Desired, m': Desired)
    requires IsRendering(h, pe, m) && IsRendering(h, pe, m') && OneTableEach(h, pe)
    ensures m.Keys <= m'.Keys
  {
    var owners' :| RenderedWith(h, pe, m', owners');
    forall id | id in m
      ensures id in m'
    {
      var r := m[id];
      assert Wanted(h, pe, r) && IdOf(r) == id;
      if r.SrRouteR? {
        var t, p := RenderedGranted(h, pe, m, id);
        GrantedRendered(h, pe, m', t, p, r);
      } else if !ClassWants(pe.classes, r) {
        var t :| t in pe.tenants && (TenantWants(h, t, pe.tenants[t], r) || SrWanted(h, t, pe.tenants[t], r));
        TenantPart(h, pe, m', t, r);
      }
    }
  }

  // ---------- When an intent can converge at all ----------

  /** Portals that route one prefix in one table use one tunnel. */
  ghost predicate PortalsAgree(h: Hash, pe: PeIntent) {
    forall t, u, p, q ::
      && t in pe.tenants && u in pe.tenants && p in pe.tenants[t].portals && q in pe.tenants[u].portals
      && TableOf(h, t) == TableOf(h, u) && pe.tenants[t].portals[p].sitePrefix == pe.tenants[u].portals[q].sitePrefix
      ==> t == u && pe.tenants[t].portals[p].ifId == pe.tenants[u].portals[q].ifId
  }

  ghost predicate OnPath(h: Hash, pe: PeIntent, t: string, p: InstallPath, table: int, prefix: Prefix) {
    && t in pe.tenants && p in pe.tenants[t].paths && Granted(pe.tenants[t], p)
    && prefix in p.prefixes && ColorTable(TableOf(h, t), p.color) == table
  }

  /** Granted paths that install one prefix in one table carry the same segments. */
  ghost predicate PathsAgree(h: Hash, pe: PeIntent) {
    forall t, u, p, q, table, prefix ::
      OnPath(h, pe, t, p, table, prefix) && OnPath(h, pe, u, q, table, prefix) ==>
      Joined(Reversed(p.segments)) == Joined(Reversed(q.segments))
  }

  /** A codepoint is classified into one color. */
  ghost predicate ClassesAgree(pe: PeIntent) {
    forall c, d, x :: c in pe.classes && d in pe.classes && x in c.dscps && x in d.dscps ==> c.color == d.color
  }

  /** No two things the intent asks for compete for one key of the kernel. */
  ghost predicate Agreeing(h: Hash, pe: PeIntent) {
    OneTableEach(h, pe) && PortalsAgree(h, pe) && PathsAgree(h, pe) && ClassesAgree(pe)
  }

  lemma RoutesApart(h: Hash, pe: PeIntent, m: Desired, a: Id, b: Id)
    requires Sound(h, pe, m) && PortalsAgree(h, pe)
    requires a in m && b in m && a != b && m[a].RouteR? && m[b].RouteR?
    ensures Apart(m[a], m[b])
  {
    var t := TenantOf(h, pe, m, a);
    var u := TenantOf(h, pe, m, b);
    var p :| p in pe.tenants[t].portals && PortalWants(h, t, pe.tenants[t].portals[p], m[a]);
    var q :| q in pe.tenants[u].portals && PortalWants(h, u, pe.tenants[u].portals[q], m[b]);
  }

  lemma SrApart(h: Hash, pe: PeIntent, m: Desired, a: Id, b: Id)
    requires IsRendering(h, pe, m) && OneTableEach(h, pe) && PathsAgree(h, pe)
    requires a in m && b in m && a != b && m[a].SrRouteR? && m[b].SrRouteR? && IdOf(m[a]) == a && IdOf(m[b]) == b
    ensures Apart(m[a], m[b])
  {
    var t, p := RenderedGranted(h, pe, m, a);
    var u, q := RenderedGranted(h, pe, m, b);
    assert OnPath(h, pe, t, p, m[a].table, m[a].prefix) && OnPath(h, pe, u, q, m[b].table, m[b].prefix);
  }

  lemma MarkOf(h: Hash, pe: PeIntent, m: Desired, id: Id) returns (c: ClassIntent)
    requires Sound(h, pe, m) && id in m && m[id].MarkR?
    ensures c in pe.classes && Marks(c, m[id])
  {
    assert Wanted(h, pe, m[id]);
    if t :| t in pe.tenants && (TenantWants(h, t, pe.tenants[t], m[id]) || SrWanted(h, t, pe.tenants[t], m[id])) {
      WantedOfTenant(h, t, pe.tenants[t], m[id]);
    }
    c :| c in pe.classes && Marks(c, m[id]);
  }

  /** The names of a rendering's links never clash, whatever the intent. */
  lemma LinksApart(h: Hash, pe: PeIntent, m: Desired, a: Id, b: Id)
    requires Sound(h, pe, m)
    requires a in m && b in m && a != b && IsLink(m[a]) && IsLink(m[b])
    ensures m[a].name != m[b].name
  {
    var t := TenantOf(h, pe, m, a);
    var u := TenantOf(h, pe, m, b);
    if m[a].XfrmR? {
      var p :| p in pe.tenants[t].portals && PortalWants(h, t, pe.tenants[t].portals[p], m[a]);
      NamesDiffer(u, t, pe.tenants[t].portals[p].ifId);
      if m[b].XfrmR? && m[a].name == m[b].name {
        var q :| q in pe.tenants[u].portals && PortalWants(h, u, pe.tenants[u].portals[q], m[b]);
        TunnelNameInjective(t, pe.tenants[t].portals[p].ifId, u, pe.tenants[u].portals[q].ifId);
      }
    } else if m[b].XfrmR? {
      var q :| q in pe.tenants[u].portals && PortalWants(h, u, pe.tenants[u].portals[q], m[b]);
      NamesDiffer(t, u, pe.tenants[u].portals[q].ifId);
    }
  }

  lemma RenderingNamesApart(h: Hash, pe: PeIntent, m: Desired)
    requires Sound(h, pe, m)
    ensures DistinctNames(m)
  {
    forall a, b | a in m && b in m && a != b && IsLink(m[a]) && IsLink(m[b])
      ensures m[a].name != m[b].name
    {
      LinksApart(h, pe, m, a, b);
    }
  }

  lemma VrfsApart(h: Hash, pe: PeIntent, m: Desired, a: Id, b: Id)
    requires Sound(h, pe, m) && OneTableEach(h, pe)
    requires a in m && b in m && a != b && m[a].VrfR? && m[b].VrfR?
    ensures Apart(m[a], m[b])
  {
    var t := TenantOf(h, pe, m, a);
    var u := TenantOf(h, pe, m, b);
  }

  lemma AgreeingIsApart(h: Hash, pe: PeIntent, m: Desired, a: Id, b: Id)
    requires IsRendering(h, pe, m) && Agreeing(h, pe)
    requires a in m && b in m && a != b
    ensures Apart(m[a], m[b])
  {
    var x, y := m[a], m[b];
    assert IdOf(x) == a && IdOf(y) == b;
    if x.RouteR? && y.RouteR? {
      RoutesApart(h, pe, m, a, b);
    } else if x.SrRouteR? && y.SrRouteR? {
      SrApart(h, pe, m, a, b);
    } else if x.MarkR? && y.MarkR? {
      var c := MarkOf(h, pe, m, a);
      var d := MarkOf(h, pe, m, b);
    } else if x.VrfR? && y.VrfR? {
      VrfsApart(h, pe, m, a, b);
    } else if IsLink(x) && IsLink(y) {
      LinksApart(h, pe, m, a, b);
    } else if x.SidR? && y.SidR? {
      RenderedOne(h, pe, m, a);
      RenderedOne(h, pe, m, b);
    }
  }

  /** A rendering avoids kernel clashes exactly when tenants have tables of their own and portals,
      paths and classes agree. */
  lemma DistinctIffAgree(h: Hash, pe: PeIntent, m: Desired)
    requires IsRendering(h, pe, m)
    ensures DistinctKernelKeys(m) <==> Agreeing(h, pe)
  {
    if Agreeing(h, pe) {
      forall a, b | a in m && b in m && a != b
        ensures Apart(m[a], m[b])
      {
        AgreeingIsApart(h, pe, m, a, b);
      }
    }
    if DistinctKernelKeys(m) {
      DistinctTables(h, pe, m);
      DistinctPortals(h, pe, m);
      DistinctPaths(h, pe, m);
      RenderingIsRendered(h, pe, m);
      DistinctClasses(h, pe, m);
    }
  }

  lemma DistinctTables(h: Hash, pe: PeIntent, m: Desired)
    requires IsRendering(h, pe, m) && DistinctKernelKeys(m)
    ensures OneTableEach(h, pe)
  {
    forall t, u | t in pe.tenants && u in pe.tenants && TableOf(h, t) == TableOf(h, u)
      ensures t == u
    {
      VrfRendered(h, pe, m, t);
      VrfRendered(h, pe, m, u);
      OneVrfPerTable(m, VrfId(VrfName(t)), VrfId(VrfName(u)));
      VrfNameInjective(t, u);
    }
  }

  lemma OneVrfPerTable(m: Desired, a: Id, b: Id)
    requires DistinctKernelKeys(m) && a in m && b in m && m[a].VrfR? && m[b].VrfR? && m[a].table == m[b].table
    ensures a == b
  {
  }

  lemma PortalPair(h: Hash, pe: PeIntent, m: Desired, t: string, p: string, u: string, q: string)
    requires IsRendering(h, pe, m) && DistinctKernelKeys(m)
    requires t in pe.tenants && u in pe.tenants && p in pe.tenants[t].portals && q in pe.tenants[u].portals
    requires TableOf(h, t) == TableOf(h, u) && pe.tenants[t].portals[p].sitePrefix == pe.tenants[u].portals[q].sitePrefix
    ensures t == u && pe.tenants[t].portals[p].ifId == pe.tenants[u].portals[q].ifId
  {
    var a := RouteRendered(h, pe, m, t, p);
    var b := RouteRendered(h, pe, m, u, q);
    OneRoutePerKey(m, a, b);
    TunnelNameInjective(t, pe.tenants[t].portals[p].ifId, u, pe.tenants[u].portals[q].ifId);
  }

  lemma OneRoutePerKey(m: Desired, a: Id, b: Id)
    requires DistinctKernelKeys(m) && a in m && b in m && IdOf(m[a]) == a && IdOf(m[b]) == b
    requires a.RouteId? && b.RouteId? && a.table == b.table && a.dst == b.dst
    ensures a == b
  {
  }

  lemma DistinctPortals(h: Hash, pe: PeIntent, m: Desired)
    requires IsRendering(h, pe, m) && DistinctKernelKeys(m)
    ensures PortalsAgree(h, pe)
  {
    forall t, u, p, q |
      && t in pe.tenants && u in pe.tenants && p in pe.tenants[t].portals && q in pe.tenants[u].portals
      && TableOf(h, t) == TableOf(h, u) && pe.tenants[t].portals[p].sitePrefix == pe.tenants[u].portals[q].sitePrefix
      ensures t == u && pe.tenants[t].portals[p].ifId == pe.tenants[u].portals[q].ifId
    {
      PortalPair(h, pe, m, t, p, u, q);
    }
  }

  lemma RouteRendered(h: Hash, pe: PeIntent, m: Desired, t: string, p: string) returns (id: Id)
    requires IsRendering(h, pe, m) && t in pe.tenants && p in pe.tenants[t].portals
    ensures var portal := pe.tenants[t].portals[p];
            id in m && id == RouteId(TableOf(h, t), portal.sitePrefix, TunnelName(t, portal.ifId)) && IdOf(m[id]) == id
  {
    var portal := pe.tenants[t].portals[p];
    var r := RouteR(TableOf(h, t), portal.sitePrefix, TunnelName(t, portal.ifId));
    assert PortalWants(h, t, portal, r);
    TenantPart(h, pe, m, t, r);
    id := IdOf(r);
  }

  lemma DistinctPaths(h: Hash, pe: PeIntent, m: Desired)
    requires IsRendering(h, pe, m) && DistinctKernelKeys(m) && OneTableEach(h, pe)
    ensures PathsAgree(h, pe)
  {
    forall t, u, p, q, table, prefix | OnPath(h, pe, t, p, table, prefix) && OnPath(h, pe, u, q, table, prefix)
      ensures Joined(Reversed(p.segments)) == Joined(Reversed(q.segments))
    {
      var a := SrRendered(h, pe, m, t, p, table, prefix);
      var b := SrRendered(h, pe, m, u, q, table, prefix);
      assert a == b;
    }
  }

  lemma SrRendered(h: Hash, pe: PeIntent, m: Desired, t: string, p: InstallPath, table: int, prefix: Prefix) returns (id: Id)
    requires IsRendering(h, pe, m) && OneTableEach(h, pe) && OnPath(h, pe, t, p, table, prefix)
    ensures id in m && id == SrId(table, prefix, Joined(Reversed(p.segments))) && IdOf(m[id]) == id
  {
    var r := SrRouteR(table, prefix, Reversed(p.segments));
    assert PathWants(h, t, p, r);
    GrantedRendered(h, pe, m, t, p, r);
    id := IdOf(r);
  }

  /** Granted paths lead somewhere: a route without segments is never accepted. */
  ghost predicate SegmentsGiven(pe: PeIntent) {
    forall t, p :: t in pe.tenants && p in pe.tenants[t].paths && p.prefixes != [] && Granted(pe.tenants[t], p) ==> p.segments != []
  }

  ghost predicate NoEmptyRoutes(m: Desired) {
    forall id :: id in m && m[id].SrRouteR? ==> m[id].segments != []
  }

  lemma GivenSegments(h: Hash, pe: PeIntent, m: Desired)
    requires IsRendering(h, pe, m) && OneTableEach(h, pe) && SegmentsGiven(pe)
    ensures NoEmptyRoutes(m)
  {
    forall id | id in m && m[id].SrRouteR?
      ensures m[id].segments != []
    {
      var t, p := RenderedGranted(h, pe, m, id);
      assert p.segments != [];
    }
  }

  lemma NeededSegments(h: Hash, pe: PeIntent, m: Desired, t: string, p: InstallPath)
    requires IsRendering(h, pe, m) && OneTableEach(h, pe) && NoEmptyRoutes(m)
    requires t in pe.tenants && p in pe.tenants[t].paths && p.prefixes != [] && Granted(pe.tenants[t], p)
    ensures p.segments != []
  {
    var id := SrRendered(h, pe, m, t, p, ColorTable(TableOf(h, t), p.color), p.prefixes[0]);
    JoinedEmpty(m[id].segments);
  }

  lemma SegmentsIff(h: Hash, pe: PeIntent, m: Desired)
    requires IsRendering(h, pe, m) && OneTableEach(h, pe)
    ensures NoEmptyRoutes(m) <==> SegmentsGiven(pe)
  {
    if SegmentsGiven(pe) {
      GivenSegments(h, pe, m);
    }
    if NoEmptyRoutes(m) {
      forall t, p | t in pe.tenants && p in pe.tenants[t].paths && p.prefixes != [] && Granted(pe.tenants[t], p)
        ensures p.segments != []
      {
        NeededSegments(h, pe, m, t, p);
      }
    }
  }

  lemma MarkRendered(h: Hash, pe: PeIntent, m: Desired, c: ClassIntent, x: int)
    requires IsRendering(h, pe, m) && c in pe.classes && x in c.dscps
    ensures MarkId(x, c.color) in m && IdOf(m[MarkId(x, c.color)]) == MarkId(x, c.color)
  {
    var owners :| RenderedWith(h, pe, m, owners);
    assert Marks(c, MarkR(x, c.color));
    assert IdOf(MarkR(x, c.color)) in m;
  }

  lemma OneMarkPerCodepoint(m: Desired, x: int, a: int, b: int)
    requires Filed(m) && DistinctKernelKeys(m) && MarkId(x, a) in m && MarkId(x, b) in m
    ensures a == b
  {
  }

  lemma DistinctClasses(h: Hash, pe: PeIntent, m: Desired)
    requires IsRendering(h, pe, m) && Filed(m) && DistinctKernelKeys(m)
    ensures ClassesAgree(pe)
  {
    forall c, d, x | c in pe.classes && d in pe.classes && x in c.dscps && x in d.dscps
      ensures c.color == d.color
    {
      MarkRendered(h, pe, m, c, x);
      MarkRendered(h, pe, m, d, x);
      OneMarkPerCodepoint(m, x, c.color, d.color);
    }
  }

  /** Vrf tables stay free of default routes exactly when no site claims `::/0`. */
  lemma NoDefaultIff(h: Hash, pe: PeIntent, m: Desired)
    requires IsRendering(h, pe, m)
    ensures NoDefaultInVrfTables(m) <==>
            forall t, p :: t in pe.tenants && p in pe.tenants[t].portals ==> pe.tenants[t].portals[p].sitePrefix != DEFAULT_PREFIX
  {
    forall t, p | NoDefaultInVrfTables(m) && t in pe.tenants && p in pe.tenants[t].portals
      ensures pe.tenants[t].portals[p].sitePrefix != DEFAULT_PREFIX
    {
      VrfRendered(h, pe, m, t);
      var id := RouteRendered(h, pe, m, t, p);
      assert m[VrfId(VrfName(t))].VrfR? && m[id].RouteR?;
    }
    forall id | id in m && m[id].RouteR?
      ensures exists t, p :: t in pe.tenants && p in pe.tenants[t].portals && m[id].dst == pe.tenants[t].portals[p].sitePrefix
    {
      var t := TenantOf(h, pe, m, id);
      var p :| p in pe.tenants[t].portals && PortalWants(h, t, pe.tenants[t].portals[p], m[id]);
    }
  }

  lemma CpeShape(cpe: CpeIntent, site: Prefix, id: Id)
    requires id in CpeResources(cpe, site)
    ensures var r := CpeResources(cpe, site)[id];
            IdOf(r) == id && (r.XfrmR? || r.RouteR? || r.RuleR?) && (r.RouteR? ==> r.dev == CpeTunnel(cpe.tenant))
    ensures id == XfrmId(CpeTunnel(cpe.tenant), cpe.ifId) || id == RouteId(CPE_TUNNEL_TABLE, DEFAULT_PREFIX, CpeTunnel(cpe.tenant))
         || id == RuleId(CPE_RULE_PRIORITY, Some(site), CPE_TUNNEL_TABLE, 0)
  {
  }

  /** What a CPE renders never clashes: one tunnel, one route outside any vrf, one rule. */
  lemma CpeRenderingIsFine(cpe: CpeIntent)
    requires RenderCpe(cpe).Some?
    ensures Rendered(RenderCpe(cpe).value) && DistinctKernelKeys(RenderCpe(cpe).value) && NoDefaultInVrfTables(RenderCpe(cpe).value)
  {
    assert CpeTunnel(cpe.tenant)[0] == 'x' && LOOPBACK[0] == 'l';
    if cpe.ifId != 0 {
      forall id | id in CpeResources(cpe, cpe.sitePrefix.value)
      {
        CpeShape(cpe, cpe.sitePrefix.value, id);
      }
    }
  }

  /** The node sends exactly the site's traffic into the tunnel: its one rule looks up, for the site
      prefix, a table whose one route is a default through its one link. */
  ghost predicate Steers(k: Kernel, site: Prefix, ifId: int) {
    exists rule, dev ::
      && k.rules == {rule} && rule.src == Some(site) && rule.mark == 0
      && k.routes == map[RouteKey(rule.table, DEFAULT_PREFIX, Normal) := dev]
      && k.links.Keys == {dev} && k.links[dev].Xfrm? && k.links[dev].ifId == ifId
  }

  lemma CpeIds(cpe: CpeIntent, site: Prefix, id: Id)
    ensures id in CpeResources(cpe, site) <==>
            || id == XfrmId(CpeTunnel(cpe.tenant), cpe.ifId)
            || id == RouteId(CPE_TUNNEL_TABLE, DEFAULT_PREFIX, CpeTunnel(cpe.tenant))
            || id == RuleId(CPE_RULE_PRIORITY, Some(site), CPE_TUNNEL_TABLE, 0)
  {
  }

  lemma CpeLinks(cpe: CpeIntent, site: Prefix, k: Kernel)
    requires Converged(k, CpeResources(cpe, site))
    ensures k.links.Keys == {CpeTunnel(cpe.tenant)}
    ensures k.links[CpeTunnel(cpe.tenant)].Xfrm? && k.links[CpeTunnel(cpe.tenant)].ifId == cpe.ifId
  {
    var m := CpeResources(cpe, site);
    CpeIds(cpe, site, XfrmId(CpeTunnel(cpe.tenant), cpe.ifId));
    forall n | n in k.links
      ensures n == CpeTunnel(cpe.tenant)
    {
      var id := if k.links[n].Vrf? then VrfId(n) else XfrmId(n, k.links[n].ifId);
      assert HasId(k, id);
      CpeIds(cpe, site, id);
    }
  }

  lemma CpeRoutes(cpe: CpeIntent, site: Prefix, k: Kernel)
    requires Owned(k) && Converged(k, CpeResources(cpe, site))
    ensures k.routes == map[RouteKey(CPE_TUNNEL_TABLE, DEFAULT_PREFIX, Normal) := CpeTunnel(cpe.tenant)]
  {
    var dev := CpeTunnel(cpe.tenant);
    var key := RouteKey(CPE_TUNNEL_TABLE, DEFAULT_PREFIX, Normal);
    assert dev[0] == 'x' && LOOPBACK[0] == 'l';
    forall r | r in k.routes
      ensures r == key && k.routes[r] == dev
    {
      assert r == RouteKey(r.table, r.dst, r.metric) && (r.metric == Normal || r.metric == CatchAll);
      assert HasId(k, RouteId(r.table, r.dst, k.routes[r]));
      CpeIds(cpe, site, RouteId(r.table, r.dst, k.routes[r]));
    }
    CpeIds(cpe, site, RouteId(CPE_TUNNEL_TABLE, DEFAULT_PREFIX, dev));
    assert key in k.routes;
  }

  lemma CpeRules(cpe: CpeIntent, site: Prefix, k: Kernel) returns (rule: Rule)
    requires Owned(k) && Converged(k, CpeResources(cpe, site))
    ensures k.rules == {rule} && RuleIdOf(rule) == RuleId(CPE_RULE_PRIORITY, Some(site), CPE_TUNNEL_TABLE, 0)
  {
    var id := RuleId(CPE_RULE_PRIORITY, Some(site), CPE_TUNNEL_TABLE, 0);
    CpeIds(cpe, site, id);
    assert HasId(k, id);
    rule :| rule in k.rules && RuleIdOf(rule) == id;
    forall x | x in k.rules
      ensures x == rule
    {
      assert HasId(k, RuleIdOf(x));
      CpeIds(cpe, site, RuleIdOf(x));
    }
  }

  /** A CPE intent is refused exactly when it has a tunnel but no site. A kernel that has converged on
      any other holds nothing before the tunnel has an identifier, and then steers exactly the site's
      traffic into the tunnel of that identifier. */
  lemma CpeSteersSite(cpe: CpeIntent, k: Kernel)
    requires Owned(k)
    ensures RenderCpe(cpe).None? <==> cpe.ifId != 0 && cpe.sitePrefix.None?
    ensures RenderCpe(cpe).Some? && Converged(k, RenderCpe(cpe).value) ==>
              if cpe.ifId == 0 then forall id :: !HasId(k, id) else Steers(k, cpe.sitePrefix.value, cpe.ifId)
  {
    if RenderCpe(cpe).Some? && Converged(k, RenderCpe(cpe).value) && cpe.ifId != 0 {
      var site := cpe.sitePrefix.value;
      CpeLinks(cpe, site, k);
      CpeRoutes(cpe, site, k);
      var rule := CpeRules(cpe, site, k);
    }
  }
}
