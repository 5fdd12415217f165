/** Where a PE sends a tenant's classified traffic: the codepoint gives the mark, the mark and the vrf
    give the rule, the rule gives the table, and the table gives the segments of the granted path. */
module Steering {
  import opened Topology
  import opened Kernel
  import opened Stages
  import opened Convergence
  import opened Render
  import opened RenderFacts
  import opened Lawfulness

  /** A path of tenant `t` that is in force for a prefix. */
  ghost predicate InForce(pe: PeIntent, t: string, p: InstallPath, prefix: Prefix) {
    t in pe.tenants && p in pe.tenants[t].paths && Granted(pe.tenants[t], p) && prefix in p.prefixes
  }

  /** No other path in force gives this prefix and color other segments. */
  ghost predicate OnlySegments(pe: PeIntent, t: string, p: InstallPath, prefix: Prefix) {
    forall q :: InForce(pe, t, q, prefix) && q.color == p.color ==> q.segments == p.segments
  }

  ghost function TableFor(h: Hash, t: string, p: InstallPath): int {
    ColorTable(TableOf(h, t), p.color)
  }

  /** The table of a color is the vrf's own with the color above its 24 bits. */
  lemma TableParts(h: Hash, t: string, p: InstallPath)
    ensures TableFor(h, t, p) % 0x100_0000 == 300 + h(t) % (0x100_0000 - 300) && TableFor(h, t, p) / 0x100_0000 == p.color
  {
  }

  // ---------- What is rendered for a path ----------

  lemma RuleWanted(h: Hash, pe: PeIntent, m: Desired, t: string, p: InstallPath)
    requires IsRendering(h, pe, m) && OneTableEach(h, pe) && t in pe.tenants && p in pe.tenants[t].paths && p.prefixes != []
    ensures RuleIdOf(ColorRule(h, t, p.color)) in m && m[RuleIdOf(ColorRule(h, t, p.color))] == RuleR(ColorRule(h, t, p.color))
  {
    var r := RuleR(ColorRule(h, t, p.color));
    assert TenantWants(h, t, pe.tenants[t], r);
    TenantPart(h, pe, m, t, r);
    var u := TenantOf(h, pe, m, IdOf(r));
    ColorTableInjective(TableOf(h, t), p.color, TableOf(h, u), m[IdOf(r)].rule.mark);
  }

  lemma RouteWanted(h: Hash, pe: PeIntent, m: Desired, t: string, p: InstallPath, prefix: Prefix) returns (id: Id)
    requires IsRendering(h, pe, m) && OneTableEach(h, pe) && InForce(pe, t, p, prefix)
    ensures id == SrId(TableFor(h, t, p), prefix, Joined(Reversed(p.segments))) && id in m
    ensures IdOf(m[id]) == id && m[id].SrRouteR?
    ensures OnlySegments(pe, t, p, prefix) ==> Backwards(m[id].segments, p.segments)
  {
    assert OnPath(h, pe, t, p, TableFor(h, t, p), prefix);
    id := SrRendered(h, pe, m, t, p, TableFor(h, t, p), prefix);
    var u, q := RenderedGranted(h, pe, m, id);
    ColorTableInjective(TableOf(h, t), p.color, TableOf(h, u), q.color);
    assert InForce(pe, t, q, prefix);
  }

  // ---------- Converged kernels ----------

  /** Every rule is some tenant's rule for its mark. */
  ghost predicate LawfulRules(h: Hash, k: Kernel) {
    forall r :: r in k.rules ==> LawfulRule(h, r)
  }

  ghost predicate LawfulRule(h: Hash, r: Rule) {
    r.mark >= 0 && exists t :: r == ColorRule(h, t, r.mark)
  }

  lemma TableOfRule(h: Hash, r: Rule, t: string)
    requires LawfulRule(h, r) && r.iif == VrfName(t)
    ensures r.table == ColorTable(TableOf(h, t), r.mark)
  {
    var u :| r == ColorRule(h, u, r.mark);
    VrfNameInjective(t, u);
  }

  /** All that the intent wants of one kind of object is in the kernel. */
  ghost predicate HoldsMarks(k: Kernel, m: Desired) {
    forall id: Id :: id.MarkId? && id in m ==> HasId(k, id)
  }

  /** The codepoints of the classes of a color are marked with it. */
  ghost predicate MarksClass(pe: PeIntent, k: Kernel, color: nat) {
    forall c, x :: c in pe.classes && x in c.dscps && c.color == color ==> x in k.marks && k.marks[x] == color
  }

  lemma MarksHeld(h: Hash, pe: PeIntent, m: Desired, k: Kernel, color: nat)
    requires IsRendering(h, pe, m) && HoldsMarks(k, m)
    ensures MarksClass(pe, k, color)
  {
    forall c, x | c in pe.classes && x in c.dscps && c.color == color
      ensures x in k.marks && k.marks[x] == color
    {
      MarkRendered(h, pe, m, c, x);
      assert HasId(k, MarkId(x, c.color));
    }
  }

  lemma RuleHeld(h: Hash, pe: PeIntent, m: Desired, k: Kernel, t: string, p: InstallPath)
    requires IsRendering(h, pe, m) && OneTableEach(h, pe) && t in pe.tenants && p in pe.tenants[t].paths && p.prefixes != []
    requires Converged(k, m)
    ensures exists rule :: rule in k.rules && rule.mark == p.color && rule.table == TableFor(h, t, p)
  {
    RuleWanted(h, pe, m, t, p);
    assert HasId(k, RuleIdOf(ColorRule(h, t, p.color)));
  }

  lemma RouteHeld(h: Hash, pe: PeIntent, m: Desired, k: Kernel, t: string, p: InstallPath, prefix: Prefix)
    requires IsRendering(h, pe, m) && OneTableEach(h, pe) && Converged(k, m) && InForce(pe, t, p, prefix)
    ensures HasId(k, SrId(TableFor(h, t, p), prefix, Joined(Reversed(p.segments))))
  {
    var id := RouteWanted(h, pe, m, t, p, prefix);
  }

  /** The table of the rule holds the prefix, with segments that read as these. */
  ghost predicate LooksUp(k: Kernel, rule: Rule, prefix: Prefix, segments: seq<Addr>) {
    SrKey(rule.table, prefix) in k.srRoutes && Joined(k.srRoutes[SrKey(rule.table, prefix)]) == Joined(segments)
  }

  lemma RulesLead(h: Hash, k: Kernel, t: string, p: InstallPath, prefix: Prefix)
    requires LawfulRules(h, k) && HasId(k, SrId(TableFor(h, t, p), prefix, Joined(Reversed(p.segments))))
    ensures forall rule :: rule in k.rules && rule.iif == VrfName(t) && rule.mark == p.color ==> LooksUp(k, rule, prefix, Reversed(p.segments))
  {
    forall rule | rule in k.rules && rule.iif == VrfName(t) && rule.mark == p.color
      ensures rule.table == TableFor(h, t, p)
    {
      TableOfRule(h, rule, t);
    }
  }

  /** A converged PE marks every codepoint of a class with its color; it has a rule for the color of
      every path in force, and whatever rule it has for the tenant's vrf and that color looks up a
      table that holds the path's prefixes with the path's segments, last segment first. */
  lemma PeSteersPath(h: Hash, pe: PeIntent, m: Desired, k: Kernel, t: string, p: InstallPath, prefix: Prefix)
    requires IsRendering(h, pe, m) && OneTableEach(h, pe) && Converged(k, m) && LawfulRules(h, k) && InForce(pe, t, p, prefix)
    ensures MarksClass(pe, k, p.color)
    ensures exists rule :: rule in k.rules && rule.mark == p.color && rule.table == TableFor(h, t, p)
    ensures forall rule :: rule in k.rules && rule.iif == VrfName(t) && rule.mark == p.color ==> LooksUp(k, rule, prefix, Reversed(p.segments))
  {
    MarksHeld(h, pe, m, k, p.color);
    RuleHeld(h, pe, m, k, t, p);
    RouteHeld(h, pe, m, k, t, p, prefix);
    RulesLead(h, k, t, p, prefix);
  }

  // ---------- Rounds ----------

  lemma {:induction false} RulesUntouched(k: Kernel, kind: Kind, rs: seq<Resource>)
    requires kind != KRule
    ensures AddStage(k, kind, rs).rules == k.rules
    decreases |rs|
  {
    if rs != [] {
      RulesUntouched(k, kind, rs[..|rs| - 1]);
    }
  }

  lemma RulesAfter(k: Kernel, rem: seq<Resource>, add: seq<Resource>, k': Kernel)
    requires Owned(k) && Applied(k, rem, add, k')
    ensures k'.rules == k.rules - RulesIn(rem) + RulesIn(add)
  {
    var kR := Removed(k, rem);
    var a := Added(kR, add);
    AllRemoved(k, rem);
    RulesUntouched(kR, KVrf, add);
    RulesUntouched(a.vrfs, KXfrm, add);
    RulesUntouched(a.xfrms, KRoute, add);
    RulesUntouched(a.routes, KSid, add);
    RulesUntouched(a.sids, KSrRoute, add);
    RuleStage(a.srRoutes, add);
    RulesUntouched(a.rules, KMark, add);
  }

  lemma RenderedRuleIsLawful(h: Hash, pe: PeIntent, m: Desired, r: Rule)
    requires Sound(h, pe, m) && RuleIdOf(r) in m && m[RuleIdOf(r)] == RuleR(r)
    ensures LawfulRule(h, r)
  {
    var t := TenantOf(h, pe, m, RuleIdOf(r));
  }

  lemma RoundKeepsLawfulRules(h: Hash, pe: PeIntent, k: Kernel, m: Desired, rem: seq<Resource>, add: seq<Resource>, k': Kernel)
    requires Owned(k) && LawfulRules(h, k) && Sound(h, pe, m) && IsDiff(k, m, rem, add) && Applied(k, rem, add, k')
    ensures LawfulRules(h, k')
  {
    RulesAfter(k, rem, add, k');
    AddedRulesAreLawful(h, pe, k, m, rem, add);
  }

  lemma AddedRulesAreLawful(h: Hash, pe: PeIntent, k: Kernel, m: Desired, rem: seq<Resource>, add: seq<Resource>)
    requires Sound(h, pe, m) && IsDiff(k, m, rem, add)
    ensures forall r :: r in RulesIn(add) ==> LawfulRule(h, r)
  {
    forall r | r in RulesIn(add)
      ensures LawfulRule(h, r)
    {
      assert RuleR(r) in add;
      RenderedRuleIsLawful(h, pe, m, r);
    }
  }

  lemma PeRoundKeepsLawfulRules(h: Hash, pe: PeIntent, k: Kernel, k': Kernel)
    requires Owned(k) && LawfulRules(h, k) && PeRound(h, pe, k, k')
    ensures LawfulRules(h, k')
  {
    var m :| IsRendering(h, pe, m) && Round(k, m, k');
    var rem, add :| IsDiff(k, m, rem, add) && Applied(k, rem, add, k');
    RoundKeepsLawfulRules(h, pe, k, m, rem, add, k');
  }

  ghost predicate Tidy(h: Hash, k: Kernel) {
    Owned(k) && Lawful(h, k) && LawfulRules(h, k)
  }

  lemma PeRoundKeepsTidy(h: Hash, pe: PeIntent, k: Kernel, k': Kernel)
    requires Tidy(h, k) && PeRound(h, pe, k, k')
    ensures Tidy(h, k')
  {
    PeRoundKeepsLawful(h, pe, k, k');
    PeRoundKeepsLawfulRules(h, pe, k, k');
  }

  /** So over any run of clean rounds, of whatever intents, rules stay lawful, from a node without any. */
  lemma {:induction false} RunKeepsTidy(h: Hash, intents: seq<PeIntent>, kernels: seq<Kernel>, i: nat)
    requires IsRun(h, intents, kernels) && Tidy(h, kernels[0]) && i <= |intents|
    ensures Tidy(h, kernels[i])
    decreases i
  {
    if i > 0 {
      RunKeepsTidy(h, intents, kernels, i - 1);
      PeRoundKeepsTidy(h, intents[i - 1], kernels[i - 1], kernels[i]);
    }
  }

  /** A rule identifier omits the interface: a round puts the tenant's own rule in place exactly when
      no rule of another tenant, from an earlier intent, already carries its identifier. */
  lemma RuleArrivesIff(h: Hash, pe: PeIntent, k: Kernel, m: Desired, rem: seq<Resource>, add: seq<Resource>, k': Kernel, t: string, p: InstallPath)
    requires Owned(k) && IsRendering(h, pe, m) && OneTableEach(h, pe) && IsDiff(k, m, rem, add) && Applied(k, rem, add, k')
    requires t in pe.tenants && p in pe.tenants[t].paths && p.prefixes != []
    ensures var mine := ColorRule(h, t, p.color);
            mine in k'.rules <==> forall x :: x in k.rules && RuleIdOf(x) == RuleIdOf(mine) ==> x.iif == VrfName(t)
  {
    var mine := ColorRule(h, t, p.color);
    RuleWanted(h, pe, m, t, p);
    RulesAfter(k, rem, add, k');
    assert RuleR(mine) in add <==> !HasId(k, RuleIdOf(mine));
    forall x | x in k.rules && RuleIdOf(x) == RuleIdOf(mine)
      ensures HasId(k, RuleIdOf(mine)) && x !in RulesIn(rem) && (x.iif == VrfName(t) ==> x == mine)
    {
      RuleLeavesIff(k, m, rem, x);
    }
    if !HasId(k, RuleIdOf(mine)) {
      assert mine in RulesIn(add);
    } else {
      assert mine !in RulesIn(add);
      var x :| x in k.rules && RuleIdOf(x) == RuleIdOf(mine);
      assert forall y :: y in k.rules && RuleIdOf(y) == RuleIdOf(mine) ==> y == x;
    }
  }

  /** With such a rule left over, the tenant's vrf gets no rule for this color at all. */
  lemma FormerTenantBlocks(h: Hash, pe: PeIntent, k: Kernel, m: Desired, rem: seq<Resource>, add: seq<Resource>, k': Kernel, t: string, p: InstallPath, former: string)
    requires Owned(k) && LawfulRules(h, k) && IsRendering(h, pe, m) && OneTableEach(h, pe) && IsDiff(k, m, rem, add) && Applied(k, rem, add, k')
    requires t in pe.tenants && p in pe.tenants[t].paths && p.prefixes != []
    requires former != t && TableOf(h, former) == TableOf(h, t) && ColorRule(h, former, p.color) in k.rules
    ensures forall rule :: rule in k'.rules && rule.iif == VrfName(t) ==> rule.mark != p.color
  {
    RuleArrivesIff(h, pe, k, m, rem, add, k', t, p);
    RoundKeepsLawfulRules(h, pe, k, m, rem, add, k');
    assert RuleIdOf(ColorRule(h, former, p.color)) == RuleIdOf(ColorRule(h, t, p.color));
    if VrfName(former) == VrfName(t) {
      VrfNameInjective(former, t);
    }
    forall rule | rule in k'.rules && rule.iif == VrfName(t) && rule.mark == p.color
      ensures rule == ColorRule(h, t, p.color)
    {
      var u :| rule == ColorRule(h, u, rule.mark);
      VrfNameInjective(u, t);
    }
  }

  /** And a segment list enters its identifier as joined text: a round puts a path's segments in place
      exactly when the table does not already hold another list that reads the same. */
  lemma SegmentsArriveIff(h: Hash, pe: PeIntent, k: Kernel, m: Desired, rem: seq<Resource>, add: seq<Resource>, k': Kernel,
                          t: string, p: InstallPath, prefix: Prefix)
    requires Owned(k) && IsRendering(h, pe, m) && Agreeing(h, pe) && IsDiff(k, m, rem, add) && Applied(k, rem, add, k')
    requires InForce(pe, t, p, prefix) && OnlySegments(pe, t, p, prefix)
    ensures var key := SrKey(TableFor(h, t, p), prefix);
            && key in k'.srRoutes && Joined(k'.srRoutes[key]) == Joined(Reversed(p.segments))
            && (Backwards(k'.srRoutes[key], p.segments) <==>
                  (key in k.srRoutes && Joined(k.srRoutes[key]) == Joined(Reversed(p.segments)) ==> Backwards(k.srRoutes[key], p.segments)))
  {
    RenderingIsRendered(h, pe, m);
    DistinctIffAgree(h, pe, m);
    var id := RouteWanted(h, pe, m, t, p, prefix);
    SegmentsAfter(k, m, rem, add, k', SrKey(TableFor(h, t, p), prefix), id);
  }

  /** Two different lists that read the same. */
  lemma TextIsAmbiguous()
    ensures Joined(["fd00::1", "fd00::2"]) == Joined(["fd00::1f", "d00::2"]) && ["fd00::1", "fd00::2"] != ["fd00::1f", "d00::2"]
  {
    var a, b: seq<Addr> := ["fd00::1", "fd00::2"], ["fd00::1f", "d00::2"];
    assert a[1..] == ["fd00::2"] && b[1..] == ["d00::2"] && a[1..][1..] == [] && b[1..][1..] == [];
    assert Joined(a[1..]) == "fd00::2" + "" && Joined(b[1..]) == "d00::2" + "";
    assert "fd00::1" + ("fd00::2" + "") == "fd00::1f" + ("d00::2" + "");
    assert |a[0]| != |b[0]|;
  }

  lemma SegmentsAfter(k: Kernel, m: Desired, rem: seq<Resource>, add: seq<Resource>, k': Kernel, key: SrKey, id: Id)
    requires Owned(k) && Filed(m) && DistinctKernelKeys(m) && IsDiff(k, m, rem, add) && Applied(k, rem, add, k')
    requires id in m && m[id].SrRouteR? && SrKey(m[id].table, m[id].prefix) == key
    ensures key in k'.srRoutes && k'.srRoutes[key] == if HasId(k, id) then k.srRoutes[key] else m[id].segments
  {
    var kR := Removed(k, rem);
    AllRemoved(k, rem);
    AddsApart(k, m, rem, add);
    AllAdded(kR, add);
    SrConverge(k, m, rem, add, kR, kR.(srRoutes := k'.srRoutes), key.table, key.prefix, id.text);
    assert HasId(k', id);
    SegmentsKeptOrWritten(k, m, rem, add, kR, k', key, id);
  }

  lemma SegmentsKeptOrWritten(k: Kernel, m: Desired, rem: seq<Resource>, add: seq<Resource>, kR: Kernel, k': Kernel, key: SrKey, id: Id)
    requires IsDiff(k, m, rem, add) && Filed(m) && DistinctKernelKeys(m) && kR.srRoutes == k.srRoutes - SrKeys(rem) && RestAfter(kR, add, k')
    requires id in m && m[id].SrRouteR? && SrKey(m[id].table, m[id].prefix) == key && key in k'.srRoutes
    ensures k'.srRoutes[key] == if HasId(k, id) then k.srRoutes[key] else m[id].segments
  {
    if HasId(k, id) {
      var o := SrRouteR(key.table, key.prefix, k.srRoutes[key]);
      assert IsObject(k, o) && IdOf(o) == id;
      assert forall r :: r in rem && r.SrRouteR? && SrKey(r.table, r.prefix) == key ==> r == o;
      assert key in kR.srRoutes;
      forall r | r in add
        ensures Apart(r, m[id])
      {
        assert IdOf(r) != id && m[IdOf(r)] == r;
      }
      assert key !in SrKeys(add);
    } else {
      assert m[id] in add;
    }
  }

  /** A fresh node: after one clean round, each codepoint of a class gets its color, the tenant's vrf has
      its rule for it, and the rule's table sends the prefix over the path's segments, last first. */
  lemma FreshNodeSteers(h: Hash, pe: PeIntent, k: Kernel, m: Desired, rem: seq<Resource>, add: seq<Resource>, k': Kernel,
                        t: string, p: InstallPath, prefix: Prefix) returns (rule: Rule)
    requires Owned(k) && k.rules == {} && k.srRoutes == map[]
    requires IsRendering(h, pe, m) && Agreeing(h, pe) && IsDiff(k, m, rem, add) && Applied(k, rem, add, k')
    requires InForce(pe, t, p, prefix) && OnlySegments(pe, t, p, prefix)
    ensures MarksClass(pe, k', p.color)
    ensures rule in k'.rules && rule.priority == 80 && rule.src == None && rule.iif == VrfName(t) && rule.mark == p.color
    ensures SrKey(rule.table, prefix) in k'.srRoutes && Backwards(k'.srRoutes[SrKey(rule.table, prefix)], p.segments)
  {
    rule := ColorRule(h, t, p.color);
    RuleArrivesIff(h, pe, k, m, rem, add, k', t, p);
    SegmentsArriveIff(h, pe, k, m, rem, add, k', t, p, prefix);
    RenderingIsRendered(h, pe, m);
    DistinctIffAgree(h, pe, m);
    FirstRound(k, m, rem, add, k');
    MarksHeld(h, pe, m, k', p.color);
  }

  // ---------- Towards the sites ----------

  /** The vrf of a tenant owns a table that routes the prefix over a tunnel of its own. */
  ghost predicate Delivers(k: Kernel, t: string, prefix: Prefix, ifId: int) {
    exists dev, table ::
      && OwnsTable(k, VrfName(t), table)
      && RouteKey(table, prefix, Normal) in k.routes && k.routes[RouteKey(table, prefix, Normal)] == dev
      && dev in k.links && k.links[dev].Xfrm? && k.links[dev].ifId == ifId && k.links[dev].master == Some(VrfName(t))
  }

  /** A converged PE delivers each site's prefix through the site's tunnel, inside the tenant's vrf. */
  lemma PeDeliversSite(h: Hash, pe: PeIntent, m: Desired, k: Kernel, t: string, p: string)
    requires IsRendering(h, pe, m) && Converged(k, m) && Owned(k) && Lawful(h, k)
    requires t in pe.tenants && p in pe.tenants[t].portals
    ensures Delivers(k, t, pe.tenants[t].portals[p].sitePrefix, pe.tenants[t].portals[p].ifId)
  {
    var portal := pe.tenants[t].portals[p];
    var dev := TunnelName(t, portal.ifId);
    VrfRendered(h, pe, m, t);
    assert HasId(k, VrfId(VrfName(t)));
    TunnelHeld(h, pe, m, k, t, p);
    var id := RouteRendered(h, pe, m, t, p);
    RenderingIsRendered(h, pe, m);
    NamesDiffer(t, t, portal.ifId);
    assert HasId(k, id);
    assert RouteKey(TableOf(h, t), portal.sitePrefix, Normal) in k.routes && k.routes[RouteKey(TableOf(h, t), portal.sitePrefix, Normal)] == dev;
    assert OwnsTable(k, VrfName(t), TableOf(h, t));
  }

  lemma TunnelHeld(h: Hash, pe: PeIntent, m: Desired, k: Kernel, t: string, p: string)
    requires IsRendering(h, pe, m) && Converged(k, m) && Lawful(h, k) && t in pe.tenants && p in pe.tenants[t].portals
    ensures var i := pe.tenants[t].portals[p].ifId; var dev := TunnelName(t, i);
            dev in k.links && k.links[dev].Xfrm? && k.links[dev].ifId == i && k.links[dev].master == Some(VrfName(t))
  {
    var portal := pe.tenants[t].portals[p];
    var r := XfrmR(TunnelName(t, portal.ifId), portal.ifId, portal.hostInterface, Some(VrfName(t)), 0);
    assert PortalWants(h, t, portal, r);
    TenantPart(h, pe, m, t, r);
    assert HasId(k, XfrmId(TunnelName(t, portal.ifId), portal.ifId));
  }

  ghost predicate OnePerSid(rs: seq<Resource>) {
    forall r, q :: r in rs && q in rs && r.SidR? && q.SidR? && r.sid == q.sid ==> r == q
  }

  lemma {:induction false} SidTables(k: Kernel, rs: seq<Resource>)
    requires AddsAccepted(k, KSid, rs) && OnePerSid(rs)
    ensures forall r :: r in rs && r.SidR? ==> r.sid in AddStage(k, KSid, rs).sids && AddStage(k, KSid, rs).sids[r.sid].table == r.table
    decreases |rs|
  {
    if rs != [] {
      Snoc(rs);
      SidTables(k, rs[..|rs| - 1]);
    }
  }

  lemma {:induction false} SidsUntouched(k: Kernel, kind: Kind, rs: seq<Resource>)
    requires kind == KSrRoute || kind == KRule || kind == KMark
    ensures AddStage(k, kind, rs).sids == k.sids
    decreases |rs|
  {
    if rs != [] {
      SidsUntouched(k, kind, rs[..|rs| - 1]);
    }
  }

  lemma SidWanted(h: Hash, pe: PeIntent, m: Desired, t: string, a: Addr)
    requires IsRendering(h, pe, m) && t in pe.tenants && pe.tenants[t].dt46 == Some(a)
    requires forall u :: u in pe.tenants && pe.tenants[u].dt46 == Some(a) ==> u == t
    ensures SidId("dt46", a) in m && m[SidId("dt46", a)] == SidR("dt46", a, TableOf(h, t))
  {
    var r := SidR("dt46", a, TableOf(h, t));
    assert TenantWants(h, t, pe.tenants[t], r);
    TenantPart(h, pe, m, t, r);
    var got := m[IdOf(r)];
    assert Wanted(h, pe, got);
    var u :| u in pe.tenants && (TenantWants(h, u, pe.tenants[u], got) || SrWanted(h, u, pe.tenants[u], got));
  }

  /** A segment of its own that a round inserts decapsulates into the table of its tenant's vrf. */
  lemma SegmentDecapsulates(h: Hash, pe: PeIntent, k: Kernel, m: Desired, rem: seq<Resource>, add: seq<Resource>, k': Kernel, t: string, a: Addr)
    requires IsRendering(h, pe, m) && IsDiff(k, m, rem, add) && Applied(k, rem, add, k')
    requires t in pe.tenants && pe.tenants[t].dt46 == Some(a) && !HasId(k, SidId("dt46", a))
    requires forall u :: u in pe.tenants && pe.tenants[u].dt46 == Some(a) ==> u == t
    ensures a in k'.sids && k'.sids[a].table == TableOf(h, t)
  {
    SidWanted(h, pe, m, t, a);
    var s := Added(Removed(k, rem), add);
    assert m[SidId("dt46", a)] in add;
    forall r, q | r in add && q in add && r.SidR? && q.SidR? && r.sid == q.sid
      ensures r == q
    {
      RenderedOne(h, pe, m, IdOf(r));
      RenderedOne(h, pe, m, IdOf(q));
    }
    SidTables(s.routes, add);
    SidsUntouched(s.sids, KSrRoute, add);
    SidsUntouched(s.srRoutes, KRule, add);
    SidsUntouched(s.rules, KMark, add);
  }
}
