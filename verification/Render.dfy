/** Rendering an intent into the resources the node should hold. */
module Render {
  import opened Topology
  import opened Kernel
  import opened Convergence

  datatype Portal = Portal(hostInterface: string, ifId: nat, sitePrefix: Prefix)

  datatype InstallPath = InstallPath(tenant: string, prefixes: seq<Prefix>, segments: seq<Addr>, color: nat)

  datatype TenantIntent = TenantIntent(portals: map<string, Portal>, dt46: Option<Addr>, paths: seq<InstallPath>)

  datatype ClassIntent = ClassIntent(color: nat, dscps: seq<int>)

  datatype PeIntent = PeIntent(classes: seq<ClassIntent>, tenants: map<string, TenantIntent>)

  datatype CpeIntent = CpeIntent(tenant: string, ifId: nat, sitePrefix: Option<Prefix>)

  // ---------- Names and tables ----------

  function Decimal(n: nat): string {
    if n < 10 then [('0' as int + n) as char] else Decimal(n / 10) + [('0' as int + n % 10) as char]
  }

  function VrfName(tenant: string): string {
    "maeto-vrf-" + tenant
  }

  function TunnelName(tenant: string, ifId: nat): string {
    "maeto-tun-" + tenant + "-" + Decimal(ifId)
  }

  const VRF_TABLE_SPAN := 0x100_0000
  const MIN_TABLE := 300

  /** The hash of tenant names, FNV-1a in the source. */
  type Hash = string -> nat

  /** `StringToID`: a table in the lower 24 bits, above the reserved ones. */
  function TableOf(h: Hash, tenant: string): (t: nat)
    ensures MIN_TABLE <= t < VRF_TABLE_SPAN
  {
    MIN_TABLE + h(tenant) % (VRF_TABLE_SPAN - MIN_TABLE)
  }

  /** `ColorTableID`: the color above the vrf table's 24 bits. */
  function ColorTable(table: nat, color: nat): nat {
    color * VRF_TABLE_SPAN + table
  }

  /** Per-color tables of different vrf tables or colors never coincide. */
  lemma ColorTableInjective(t: nat, c: nat, u: nat, d: nat)
    requires t < VRF_TABLE_SPAN && u < VRF_TABLE_SPAN && ColorTable(t, c) == ColorTable(u, d)
    ensures t == u && c == d
  {
  }

  /** One list is the other read from its end. */
  ghost predicate Backwards(r: seq<Addr>, s: seq<Addr>) {
    |r| == |s| && forall i :: 0 <= i < |s| ==> r[i] == s[|s| - 1 - i]
  }

  function Reversed(s: seq<Addr>): (r: seq<Addr>)
    ensures Backwards(r, s)
  {
    if s == [] then [] else Reversed(s[1..]) + [s[0]]
  }

  const COLOR_RULE_PRIORITY := 80

  function ColorRule(h: Hash, tenant: string, color: nat): Rule {
    Rule(COLOR_RULE_PRIORITY, None, ColorTable(TableOf(h, tenant), color), color, VrfName(tenant))
  }

  // ---------- What an intent asks for ----------

  ghost predicate ClassWants(classes: seq<ClassIntent>, r: Resource) {
    exists c :: c in classes && Marks(c, r)
  }

  predicate Marks(c: ClassIntent, r: Resource) {
    r.MarkR? && r.dscp in c.dscps && r.mark == c.color
  }

  /** Everything but segment routes. */
  ghost predicate TenantWants(h: Hash, t: string, ti: TenantIntent, r: Resource) {
    || r == VrfR(VrfName(t), TableOf(h, t), 0)
    || (ti.dt46.Some? && r == SidR("dt46", ti.dt46.value, TableOf(h, t)))
    || (exists p :: p in ti.portals && PortalWants(h, t, ti.portals[p], r))
    || (exists p :: p in ti.paths && p.prefixes != [] && r == RuleR(ColorRule(h, t, p.color)))
  }

  predicate PortalWants(h: Hash, t: string, p: Portal, r: Resource) {
    || r == XfrmR(TunnelName(t, p.ifId), p.ifId, p.hostInterface, Some(VrfName(t)), 0)
    || r == RouteR(TableOf(h, t), p.sitePrefix, TunnelName(t, p.ifId))
  }

  ghost predicate PathWants(h: Hash, t: string, p: InstallPath, r: Resource) {
    && r.SrRouteR? && r.prefix in p.prefixes
    && r.table == ColorTable(TableOf(h, t), p.color) && r.segments == Reversed(p.segments)
  }

  /** A segment route some path of tenant `t` asks for. */
  ghost predicate SrWanted(h: Hash, t: string, ti: TenantIntent, r: Resource) {
    exists p :: p in ti.paths && PathWants(h, t, p, r)
  }

  ghost predicate Wanted(h: Hash, pe: PeIntent, r: Resource) {
    || ClassWants(pe.classes, r)
    || (exists t :: t in pe.tenants && (TenantWants(h, t, pe.tenants[t], r) || SrWanted(h, t, pe.tenants[t], r)))
  }

  ghost predicate Sound(h: Hash, pe: PeIntent, m: Desired) {
    forall id :: id in m ==> IdOf(m[id]) == id && Wanted(h, pe, m[id])
  }

  /** Every segment route in a table comes from a path of the one tenant recorded for that table. */
  ghost predicate OneTenantPerTable(h: Hash, pe: PeIntent, m: Desired, owners: Owners) {
    forall id :: id in m && m[id].SrRouteR? ==>
      m[id].table in owners &&
      exists t, p :: t in pe.tenants && p in pe.tenants[t].paths && PathWants(h, t, p, m[id]) && p.tenant == owners[m[id].table]
  }

  function Put(m: Desired, r: Resource): Desired {
    m[IdOf(r) := r]
  }

  // ---------- Rendering ----------

  const MAX_DSCP := 255

  ghost predicate CodepointsFit(classes: seq<ClassIntent>) {
    forall c, d :: c in classes && d in c.dscps ==> d < MAX_DSCP
  }

  /** The classification loops; a codepoint too big is refused. */
  method RenderClasses(h: Hash, pe: PeIntent) returns (r: Option<Desired>)
    ensures r.Some? <==> CodepointsFit(pe.classes)
    ensures r.Some? ==> Sound(h, pe, r.value) && forall id :: id in r.value ==> r.value[id].MarkR?
    ensures r.Some? ==> forall x :: ClassWants(pe.classes, x) ==> IdOf(x) in r.value
  {
    var m: Desired := map[];
    var i := 0;
    while i < |pe.classes|
      invariant 0 <= i <= |pe.classes|
      invariant CodepointsFit(pe.classes[..i])
      invariant forall id :: id in m ==> IdOf(m[id]) == id && m[id].MarkR? && ClassWants(pe.classes, m[id])
      invariant forall x :: ClassWants(pe.classes[..i], x) ==> IdOf(x) in m
    {
      var c := pe.classes[i];
      var j := 0;
      while j < |c.dscps|
        invariant 0 <= j <= |c.dscps|
        invariant forall d :: d in c.dscps[..j] ==> d < MAX_DSCP
        invariant forall id :: id in m ==> IdOf(m[id]) == id && m[id].MarkR? && ClassWants(pe.classes, m[id])
        invariant forall x :: ClassWants(pe.classes[..i], x) ==> IdOf(x) in m
        invariant forall d :: d in c.dscps[..j] ==> MarkId(d, c.color) in m
      {
        if c.dscps[j] >= MAX_DSCP {
          assert c in pe.classes && c.dscps[j] in c.dscps;
          return None;
        }
        var mark := MarkR(c.dscps[j], c.color);
        assert c in pe.classes && Marks(c, mark);
        assert c.dscps[..j + 1] == c.dscps[..j] + [c.dscps[j]];
        m := Put(m, mark);
        j := j + 1;
      }
      assert c.dscps[..j] == c.dscps;
      assert pe.classes[..i + 1] == pe.classes[..i] + [c];
      i := i + 1;
    }
    assert pe.classes[..i] == pe.classes;
    r := Some(m);
  }

  lemma PutSound(h: Hash, pe: PeIntent, t: string, m: Desired, r: Resource)
    requires Sound(h, pe, m) && t in pe.tenants
    requires TenantWants(h, t, pe.tenants[t], r) || SrWanted(h, t, pe.tenants[t], r)
    ensures Sound(h, pe, Put(m, r))
  {
    assert Wanted(h, pe, r);
  }

  /** The portal loop: a tunnel and a route through it for each site. */
  method RenderPortals(h: Hash, pe: PeIntent, t: string, m0: Desired) returns (m: Desired)
    requires t in pe.tenants && Sound(h, pe, m0)
    ensures Sound(h, pe, m) && m0.Keys <= m.Keys
    ensures forall id :: id in m && m[id].SrRouteR? ==> id in m0 && m0[id] == m[id]
    ensures forall p, r :: p in pe.tenants[t].portals && PortalWants(h, t, pe.tenants[t].portals[p], r) ==> IdOf(r) in m
  {
    var portals := pe.tenants[t].portals;
    m := m0;
    var todo := portals.Keys;
    while todo != {}
      invariant todo <= portals.Keys
      invariant Sound(h, pe, m) && m0.Keys <= m.Keys
      invariant forall id :: id in m && m[id].SrRouteR? ==> id in m0 && m0[id] == m[id]
      invariant forall p, r :: p in portals && p !in todo && PortalWants(h, t, portals[p], r) ==> IdOf(r) in m
    {
      var p :| p in todo;
      todo := todo - {p};
      var name := TunnelName(t, portals[p].ifId);
      var xfrm := XfrmR(name, portals[p].ifId, portals[p].hostInterface, Some(VrfName(t)), 0);
      var route := RouteR(TableOf(h, t), portals[p].sitePrefix, name);
      assert PortalWants(h, t, pe.tenants[t].portals[p], xfrm) && PortalWants(h, t, pe.tenants[t].portals[p], route);
      PutSound(h, pe, t, m, xfrm);
      m := Put(m, xfrm);
      PutSound(h, pe, t, m, route);
      m := Put(m, route);
    }
  }

  // ---------- Segment routes: first come, first served ----------

  /** The tenant recorded for each table that holds segment routes. */
  type Owners = map<int, string>

  ghost predicate SrState(h: Hash, pe: PeIntent, m: Desired, owners: Owners) {
    Sound(h, pe, m) && OneTenantPerTable(h, pe, m, owners)
  }

  /** Recording a path's tenant for a table, unless the table is taken. */
  function Recorded(owners: Owners, table: int, tenant: string): Owners {
    if table in owners then owners else owners[table := tenant]
  }

  /** Of the paths of one color that install anything, the first one decides whose they are. */
  function Grantee(paths: seq<InstallPath>, color: nat): Option<string> {
    if paths == [] then None
    else
      var before, p := Grantee(paths[..|paths| - 1], color), paths[|paths| - 1];
      if before.Some? then before else if p.color == color && p.prefixes != [] then Some(p.tenant) else None
  }

  /** The tables of one vrf are recorded as its paths alone decide. */
  ghost predicate FirstCome(base: nat, paths: seq<InstallPath>, owners: Owners) {
    forall c: nat ::
      && (ColorTable(base, c) in owners <==> Grantee(paths, c).Some?)
      && (ColorTable(base, c) in owners ==> owners[ColorTable(base, c)] == Grantee(paths, c).value)
  }

  ghost predicate NotRecorded(base: nat, owners: Owners) {
    forall c: nat :: ColorTable(base, c) !in owners
  }

  /** Only tables of one vrf are newly recorded, and no record changes. */
  ghost predicate RecordsOnly(base: nat, owners: Owners, owners': Owners) {
    && (forall x :: x in owners ==> x in owners' && owners'[x] == owners[x])
    && (forall x :: x in owners' && x !in owners ==> exists c: nat :: x == ColorTable(base, c))
  }

  /** Every prefix of a path is in the rendering if the path's tenant holds its table. */
  ghost predicate PathInstalled(h: Hash, t: string, p: InstallPath, m: Desired, owners: Owners) {
    forall r :: PathWants(h, t, p, r) ==> r.table in owners && (owners[r.table] == p.tenant ==> IdOf(r) in m)
  }

  /** Installing one prefix of a path: exactly when its table is free or recorded for the path's
      tenant, which it then is. */
  method RenderPrefix(h: Hash, pe: PeIntent, t: string, path: InstallPath, prefix: Prefix, m0: Desired, owners0: Owners)
    returns (m: Desired, owners: Owners)
    requires t in pe.tenants && path in pe.tenants[t].paths && prefix in path.prefixes
    requires SrState(h, pe, m0, owners0)
    ensures SrState(h, pe, m, owners)
    ensures owners == Recorded(owners0, ColorTable(TableOf(h, t), path.color), path.tenant)
    ensures var r := SrRouteR(ColorTable(TableOf(h, t), path.color), prefix, Reversed(path.segments));
            Backwards(r.segments, path.segments) && m == if owners[r.table] == path.tenant then Put(m0, r) else m0
  {
    m, owners := m0, owners0;
    var table := ColorTable(TableOf(h, t), path.color);
    if table in owners && owners[table] != path.tenant {
      return;
    }
    var r := SrRouteR(table, prefix, Reversed(path.segments));
    assert PathWants(h, t, path, r) && SrWanted(h, t, pe.tenants[t], r);
    PutSound(h, pe, t, m, r);
    m := Put(m, r);
    owners := owners[table := path.tenant];
    assert owners == Recorded(owners0, table, path.tenant);
    forall id | id in m && m[id].SrRouteR?
      ensures m[id].table in owners
      ensures exists u, p :: u in pe.tenants && p in pe.tenants[u].paths && PathWants(h, u, p, m[id]) && p.tenant == owners[m[id].table]
    {
      if id != IdOf(r) {
        assert m[id] == m0[id];
      }
    }
  }

  /** The same for a part of the path's prefixes. */
  ghost predicate PrefixesInstalled(table: int, p: InstallPath, prefixes: seq<Prefix>, m: Desired, owners: Owners) {
    forall x :: x in prefixes ==>
      table in owners && (owners[table] == p.tenant ==> IdOf(SrRouteR(table, x, Reversed(p.segments))) in m)
  }

  lemma OneMorePrefix(table: int, p: InstallPath, j: nat, m: Desired, owners: Owners, m': Desired, owners': Owners)
    requires j < |p.prefixes| && PrefixesInstalled(table, p, p.prefixes[..j], m, owners)
    requires owners' == Recorded(owners, table, p.tenant) && m.Keys <= m'.Keys
    requires owners'[table] == p.tenant ==> IdOf(SrRouteR(table, p.prefixes[j], Reversed(p.segments))) in m'
    ensures PrefixesInstalled(table, p, p.prefixes[..j + 1], m', owners')
  {
    assert p.prefixes[..j + 1] == p.prefixes[..j] + [p.prefixes[j]];
  }

  lemma AllPrefixes(h: Hash, t: string, p: InstallPath, m: Desired, owners: Owners)
    requires PrefixesInstalled(ColorTable(TableOf(h, t), p.color), p, p.prefixes, m, owners)
    ensures PathInstalled(h, t, p, m, owners)
  {
  }

  method RenderPath(h: Hash, pe: PeIntent, t: string, path: InstallPath, m0: Desired, owners0: Owners)
    returns (m: Desired, owners: Owners)
    requires t in pe.tenants && path in pe.tenants[t].paths
    requires SrState(h, pe, m0, owners0)
    ensures SrState(h, pe, m, owners) && m0.Keys <= m.Keys
    ensures owners == if path.prefixes == [] then owners0 else Recorded(owners0, ColorTable(TableOf(h, t), path.color), path.tenant)
    ensures PathInstalled(h, t, path, m, owners)
  {
    m, owners := m0, owners0;
    ghost var table := ColorTable(TableOf(h, t), path.color);
    var j := 0;
    while j < |path.prefixes|
      invariant 0 <= j <= |path.prefixes|
      invariant SrState(h, pe, m, owners) && m0.Keys <= m.Keys
      invariant owners == if j == 0 then owners0 else Recorded(owners0, table, path.tenant)
      invariant PrefixesInstalled(table, path, path.prefixes[..j], m, owners)
    {
      ghost var m1, owners1 := m, owners;
      m, owners := RenderPrefix(h, pe, t, path, path.prefixes[j], m, owners);
      OneMorePrefix(table, path, j, m1, owners1, m, owners);
      j := j + 1;
    }
    assert path.prefixes[..j] == path.prefixes;
    AllPrefixes(h, t, path, m, owners);
  }

  /** One more path, seen by the records of its vrf. */
  lemma FirstComeOn(base: nat, paths: seq<InstallPath>, i: nat, owners: Owners, owners': Owners)
    requires base < VRF_TABLE_SPAN && i < |paths| && FirstCome(base, paths[..i], owners)
    requires owners' == if paths[i].prefixes == [] then owners else Recorded(owners, ColorTable(base, paths[i].color), paths[i].tenant)
    ensures FirstCome(base, paths[..i + 1], owners')
  {
    var p := paths[i];
    assert paths[..i + 1][..i] == paths[..i];
    forall c: nat
      ensures ColorTable(base, c) in owners' <==> Grantee(paths[..i + 1], c).Some?
      ensures ColorTable(base, c) in owners' ==> owners'[ColorTable(base, c)] == Grantee(paths[..i + 1], c).value
    {
      if ColorTable(base, c) == ColorTable(base, p.color) {
        ColorTableInjective(base, c, base, p.color);
      }
    }
  }

  /** What the path loop of one tenant has done after some of its paths. */
  ghost predicate PathsDone(h: Hash, t: string, paths: seq<InstallPath>, owners0: Owners, m: Desired, owners: Owners) {
    && RecordsOnly(TableOf(h, t), owners0, owners)
    && (forall p :: p in paths ==> PathInstalled(h, t, p, m, owners))
    && (NotRecorded(TableOf(h, t), owners0) ==> FirstCome(TableOf(h, t), paths, owners))
  }

  lemma StillInstalled(h: Hash, t: string, p: InstallPath, m: Desired, owners: Owners, m': Desired, owners': Owners)
    requires PathInstalled(h, t, p, m, owners) && m.Keys <= m'.Keys
    requires forall x :: x in owners ==> x in owners' && owners'[x] == owners[x]
    ensures PathInstalled(h, t, p, m', owners')
  {
  }

  lemma OneMorePath(h: Hash, t: string, paths: seq<InstallPath>, i: nat, owners0: Owners, m: Desired, owners: Owners, m': Desired, owners': Owners)
    requires i < |paths| && PathsDone(h, t, paths[..i], owners0, m, owners) && m.Keys <= m'.Keys
    requires owners' == if paths[i].prefixes == [] then owners else Recorded(owners, ColorTable(TableOf(h, t), paths[i].color), paths[i].tenant)
    requires PathInstalled(h, t, paths[i], m', owners')
    ensures PathsDone(h, t, paths[..i + 1], owners0, m', owners')
  {
    assert paths[..i + 1] == paths[..i] + [paths[i]];
    forall p | p in paths[..i + 1]
      ensures PathInstalled(h, t, p, m', owners')
    {
      if p in paths[..i] {
        StillInstalled(h, t, p, m, owners, m', owners');
      }
    }
    if NotRecorded(TableOf(h, t), owners0) {
      FirstComeOn(TableOf(h, t), paths, i, owners, owners');
    }
  }

  method RenderPaths(h: Hash, pe: PeIntent, t: string, m0: Desired, owners0: Owners)
    returns (m: Desired, owners: Owners)
    requires t in pe.tenants && SrState(h, pe, m0, owners0)
    ensures SrState(h, pe, m, owners) && m0.Keys <= m.Keys
    ensures PathsDone(h, t, pe.tenants[t].paths, owners0, m, owners)
  {
    var paths := pe.tenants[t].paths;
    m, owners := m0, owners0;
    var i := 0;
    while i < |paths|
      invariant 0 <= i <= |paths|
      invariant SrState(h, pe, m, owners) && m0.Keys <= m.Keys
      invariant PathsDone(h, t, paths[..i], owners0, m, owners)
    {
      ghost var m1, owners1 := m, owners;
      m, owners := RenderPath(h, pe, t, paths[i], m, owners);
      OneMorePath(h, t, paths, i, owners0, m1, owners1, m, owners);
      i := i + 1;
    }
    assert paths[..i] == paths;
  }

  /** The colors of paths that install at least one prefix. */
  function ColorsOf(ti: TenantIntent): set<nat> {
    set p | p in ti.paths && p.prefixes != [] :: p.color
  }

  lemma SameSrState(h: Hash, pe: PeIntent, t: string, m: Desired, owners: Owners, r: Resource)
    requires SrState(h, pe, m, owners) && t in pe.tenants && TenantWants(h, t, pe.tenants[t], r)
    ensures SrState(h, pe, Put(m, r), owners)
  {
    PutSound(h, pe, t, m, r);
    var m' := Put(m, r);
    forall id | id in m' && m'[id].SrRouteR?
      ensures id in m && m[id] == m'[id]
    {
    }
  }

  /** One policy rule per color, whether or not a path of that color was denied. */
  method RenderRules(h: Hash, pe: PeIntent, t: string, m0: Desired, owners: Owners) returns (m: Desired)
    requires t in pe.tenants && SrState(h, pe, m0, owners)
    ensures SrState(h, pe, m, owners) && m0.Keys <= m.Keys
    ensures forall c :: c in ColorsOf(pe.tenants[t]) ==> RuleIdOf(ColorRule(h, t, c)) in m
  {
    m := m0;
    var todo := ColorsOf(pe.tenants[t]);
    while todo != {}
      invariant todo <= ColorsOf(pe.tenants[t])
      invariant SrState(h, pe, m, owners) && m0.Keys <= m.Keys
      invariant forall c :: c in ColorsOf(pe.tenants[t]) && c !in todo ==> RuleIdOf(ColorRule(h, t, c)) in m
    {
      var c :| c in todo;
      todo := todo - {c};
      var r := RuleR(ColorRule(h, t, c));
      SameSrState(h, pe, t, m, owners, r);
      m := Put(m, r);
    }
  }

  lemma KeepsSrState(h: Hash, pe: PeIntent, m: Desired, m': Desired, owners: Owners)
    requires SrState(h, pe, m, owners) && Sound(h, pe, m')
    requires forall id :: id in m' && m'[id].SrRouteR? ==> id in m && m[id] == m'[id]
    ensures SrState(h, pe, m', owners)
  {
  }

  /** Everything one tenant asks for is in the rendering, segment routes while the path's tenant
      holds their table. */
  ghost predicate Covers(h: Hash, pe: PeIntent, t: string, m: Desired, owners: Owners)
    requires t in pe.tenants
  {
    && (forall r :: TenantWants(h, t, pe.tenants[t], r) ==> IdOf(r) in m)
    && (forall p :: p in pe.tenants[t].paths ==> PathInstalled(h, t, p, m, owners))
  }

  lemma CoversStays(h: Hash, pe: PeIntent, t: string, m: Desired, owners: Owners, base: nat, m': Desired, owners': Owners)
    requires t in pe.tenants && Covers(h, pe, t, m, owners) && m.Keys <= m'.Keys && RecordsOnly(base, owners, owners')
    ensures Covers(h, pe, t, m', owners')
  {
    forall p | p in pe.tenants[t].paths
      ensures PathInstalled(h, t, p, m', owners')
    {
      StillInstalled(h, t, p, m, owners, m', owners');
    }
  }

  /** The body of the tenant loop. */
  method RenderTenant(h: Hash, pe: PeIntent, t: string, m0: Desired, owners0: Owners)
    returns (m: Desired, owners: Owners)
    requires t in pe.tenants && SrState(h, pe, m0, owners0)
    ensures SrState(h, pe, m, owners) && m0.Keys <= m.Keys
    ensures Covers(h, pe, t, m, owners)
    ensures RecordsOnly(TableOf(h, t), owners0, owners)
    ensures NotRecorded(TableOf(h, t), owners0) ==> FirstCome(TableOf(h, t), pe.tenants[t].paths, owners)
  {
    var ti := pe.tenants[t];
    var vrf := VrfR(VrfName(t), TableOf(h, t), 0);
    SameSrState(h, pe, t, m0, owners0, vrf);
    m := Put(m0, vrf);
    if ti.dt46.Some? {
      var sid := SidR("dt46", ti.dt46.value, TableOf(h, t));
      SameSrState(h, pe, t, m, owners0, sid);
      m := Put(m, sid);
    }
    ghost var before := m;
    m := RenderPortals(h, pe, t, m);
    KeepsSrState(h, pe, before, m, owners0);
    m, owners := RenderPaths(h, pe, t, m, owners0);
    ghost var paths := m;
    m := RenderRules(h, pe, t, m, owners);
    forall p | p in ti.paths
      ensures PathInstalled(h, t, p, m, owners)
    {
      StillInstalled(h, t, p, paths, owners, m, owners);
    }
  }

  /** No two tenants of the intent hash to one vrf table. */
  ghost predicate OneTableEach(h: Hash, pe: PeIntent) {
    forall t, u :: t in pe.tenants && u in pe.tenants && TableOf(h, t) == TableOf(h, u) ==> t == u
  }

  /** What a rendering holds: exactly what the intent asks for, segment routes of a table from the
      one tenant recorded for it. With a table for each tenant, that is the tenant of the first path. */
  ghost predicate RenderedWith(h: Hash, pe: PeIntent, m: Desired, owners: Owners) {
    && Sound(h, pe, m) && OneTenantPerTable(h, pe, m, owners)
    && (forall x :: ClassWants(pe.classes, x) ==> IdOf(x) in m)
    && (forall t :: t in pe.tenants ==> Covers(h, pe, t, m, owners))
    && (OneTableEach(h, pe) ==> forall t :: t in pe.tenants ==> FirstCome(TableOf(h, t), pe.tenants[t].paths, owners))
  }

  /** The tenants already rendered have recorded their own tables and no others. */
  ghost predicate RecordedBy(h: Hash, pe: PeIntent, done: set<string>, owners: Owners) {
    && (forall x :: x in owners ==> exists u, c: nat :: u in done && x == ColorTable(TableOf(h, u), c))
    && (OneTableEach(h, pe) ==> forall t :: t in done && t in pe.tenants ==> FirstCome(TableOf(h, t), pe.tenants[t].paths, owners))
  }

  lemma NotYetRecorded(h: Hash, pe: PeIntent, done: set<string>, owners: Owners, t: string)
    requires RecordedBy(h, pe, done, owners) && OneTableEach(h, pe) && t in pe.tenants && t !in done && done <= pe.tenants.Keys
    ensures NotRecorded(TableOf(h, t), owners)
  {
    forall c: nat
      ensures ColorTable(TableOf(h, t), c) !in owners
    {
      if ColorTable(TableOf(h, t), c) in owners {
        var u, d: nat :| u in done && ColorTable(TableOf(h, t), c) == ColorTable(TableOf(h, u), d);
        ColorTableInjective(TableOf(h, t), c, TableOf(h, u), d);
      }
    }
  }

  lemma FirstComeStays(base: nat, paths: seq<InstallPath>, owners: Owners, base': nat, owners': Owners)
    requires base < VRF_TABLE_SPAN && base' < VRF_TABLE_SPAN && base != base'
    requires FirstCome(base, paths, owners) && RecordsOnly(base', owners, owners')
    ensures FirstCome(base, paths, owners')
  {
    forall c: nat
      ensures ColorTable(base, c) in owners' <==> ColorTable(base, c) in owners
    {
      if ColorTable(base, c) in owners' && ColorTable(base, c) !in owners {
        var d: nat :| ColorTable(base, c) == ColorTable(base', d);
        ColorTableInjective(base, c, base', d);
      }
    }
  }

  lemma OneMoreTenant(h: Hash, pe: PeIntent, done: set<string>, t: string, owners: Owners, owners': Owners)
    requires done <= pe.tenants.Keys && t in pe.tenants && t !in done && RecordedBy(h, pe, done, owners)
    requires RecordsOnly(TableOf(h, t), owners, owners')
    requires NotRecorded(TableOf(h, t), owners) ==> FirstCome(TableOf(h, t), pe.tenants[t].paths, owners')
    ensures RecordedBy(h, pe, done + {t}, owners')
  {
    if OneTableEach(h, pe) {
      NotYetRecorded(h, pe, done, owners, t);
      forall u | u in done
        ensures FirstCome(TableOf(h, u), pe.tenants[u].paths, owners')
      {
        FirstComeStays(TableOf(h, u), pe.tenants[u].paths, owners, TableOf(h, t), owners');
      }
    }
  }

  /** `RenderPEIntent`, with the tenants in any order: refused exactly when a codepoint is too big. */
  method RenderPe(h: Hash, pe: PeIntent) returns (r: Option<Desired>, owners: Owners)
    ensures r.Some? <==> CodepointsFit(pe.classes)
    ensures r.Some? ==> RenderedWith(h, pe, r.value, owners)
  {
    owners := map[];
    var classes := RenderClasses(h, pe);
    if classes.None? {
      return None, owners;
    }
    var m := classes.value;
    var todo := pe.tenants.Keys;
    ghost var done: set<string> := {};
    while todo != {}
      invariant done !! todo && done + todo == pe.tenants.Keys
      invariant SrState(h, pe, m, owners) && classes.value.Keys <= m.Keys
      invariant RecordedBy(h, pe, done, owners)
      invariant forall t :: t in done ==> Covers(h, pe, t, m, owners)
    {
      var t :| t in todo;
      ghost var m1, owners1 := m, owners;
      m, owners := RenderTenant(h, pe, t, m, owners);
      forall u | u in done
        ensures Covers(h, pe, u, m, owners)
      {
        CoversStays(h, pe, u, m1, owners1, TableOf(h, t), m, owners);
      }
      OneMoreTenant(h, pe, done, t, owners1, owners);
      todo, done := todo - {t}, done + {t};
    }
    assert done == pe.tenants.Keys;
    r := Some(m);
  }

  const CPE_TUNNEL_TABLE := 100
  const CPE_RULE_PRIORITY := 100

  function CpeTunnel(tenant: string): string {
    "xfrm-tenant-" + tenant
  }

  function CpeResources(cpe: CpeIntent, site: Prefix): Desired {
    var name := CpeTunnel(cpe.tenant);
    Put(Put(Put(map[],
                XfrmR(name, cpe.ifId, LOOPBACK, None, 0)),
            RouteR(CPE_TUNNEL_TABLE, DEFAULT_PREFIX, name)),
        RuleR(Rule(CPE_RULE_PRIORITY, Some(site), CPE_TUNNEL_TABLE, 0, "")))
  }

  /** `RenderCPEIntent`: nothing until the tunnel has an identifier; an error without a site prefix. */
  function RenderCpe(cpe: CpeIntent): Option<Desired> {
    if cpe.ifId == 0 then Some(map[])
    else if cpe.sitePrefix.None? then None
    else Some(CpeResources(cpe, cpe.sitePrefix.value))
  }
}
