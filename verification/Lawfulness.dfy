/** In every rendering the table of a vrf and the master of a tunnel are functions of its name. So
    they are in every kernel that clean rounds build, and each round finds the links as it wants them. */
module Lawfulness {
  import opened Topology
  import opened Kernel
  import opened Dataplane
  import opened Stages
  import opened Convergence
  import opened Render
  import opened RenderFacts
  import opened Referents

  ghost predicate LawfulTables(h: Hash, k: Kernel) {
    forall t :: HasId(k, VrfId(VrfName(t))) ==> k.links[VrfName(t)].table == TableOf(h, t)
  }

  ghost predicate LawfulMasters(k: Kernel) {
    forall t, i: nat :: HasId(k, XfrmId(TunnelName(t, i), i)) ==>
      k.links[TunnelName(t, i)].master == Some(VrfName(t)) && HasId(k, VrfId(VrfName(t)))
  }

  ghost predicate Lawful(h: Hash, k: Kernel) {
    LawfulTables(h, k) && LawfulMasters(k)
  }

  ghost predicate LawfulDesired(h: Hash, m: Desired) {
    && (forall t :: VrfId(VrfName(t)) in m ==> m[VrfId(VrfName(t))].VrfR? && m[VrfId(VrfName(t))].table == TableOf(h, t))
    && (forall t, i: nat :: XfrmId(TunnelName(t, i), i) in m ==>
          m[XfrmId(TunnelName(t, i), i)].XfrmR? && m[XfrmId(TunnelName(t, i), i)].master == Some(VrfName(t)))
  }

  /** A node starts without links of maeto's own. */
  lemma EmptyIsLawful(h: Hash, k: Kernel)
    requires k.links == map[]
    ensures Lawful(h, k)
  {
  }

  // ---------- Renderings ----------

  lemma RenderingIsClosed(h: Hash, pe: PeIntent, m: Desired)
    requires IsRendering(h, pe, m)
    ensures Closed(m)
  {
    forall id | id in m
      ensures RefersWithin(m, m[id])
    {
      ReferencesAreClosed(h, pe, m, id);
    }
  }

  lemma RenderedVrf(h: Hash, pe: PeIntent, m: Desired, n: string) returns (t: string)
    requires Sound(h, pe, m) && VrfId(n) in m
    ensures n == VrfName(t) && m[VrfId(n)] == VrfR(n, TableOf(h, t), 0)
  {
    t := TenantOf(h, pe, m, VrfId(n));
  }

  lemma RenderedTunnel(h: Hash, pe: PeIntent, m: Desired, n: string, i: int) returns (t: string)
    requires Sound(h, pe, m) && XfrmId(n, i) in m
    ensures i >= 0 && n == TunnelName(t, i) && m[XfrmId(n, i)].XfrmR? && m[XfrmId(n, i)].master == Some(VrfName(t))
  {
    t := TenantOf(h, pe, m, XfrmId(n, i));
  }

  lemma RenderingIsLawful(h: Hash, pe: PeIntent, m: Desired)
    requires Sound(h, pe, m)
    ensures LawfulDesired(h, m)
  {
    forall t | VrfId(VrfName(t)) in m
      ensures m[VrfId(VrfName(t))] == VrfR(VrfName(t), TableOf(h, t), 0)
    {
      var u := RenderedVrf(h, pe, m, VrfName(t));
      VrfNameInjective(t, u);
    }
    forall t, i: nat | XfrmId(TunnelName(t, i), i) in m
      ensures m[XfrmId(TunnelName(t, i), i)].XfrmR? && m[XfrmId(TunnelName(t, i), i)].master == Some(VrfName(t))
    {
      var u := RenderedTunnel(h, pe, m, TunnelName(t, i), i);
      TunnelNameInjective(t, i, u, i);
    }
  }

  lemma LawfulTablesAsDesired(h: Hash, pe: PeIntent, k: Kernel, m: Desired)
    requires Sound(h, pe, m) && LawfulTables(h, k)
    ensures TablesAsDesired(k, m)
  {
    forall n | VrfId(n) in m && HasId(k, VrfId(n))
      ensures m[VrfId(n)].VrfR? && OwnsTable(k, n, m[VrfId(n)].table)
    {
      var t := RenderedVrf(h, pe, m, n);
    }
  }

  lemma LawfulMasterAsDesired(h: Hash, pe: PeIntent, k: Kernel, m: Desired, n: string, i: int)
    requires Sound(h, pe, m) && LawfulMasters(k)
    ensures MasterAsDesired(k, m, n, i)
  {
    if XfrmId(n, i) in m {
      var t := RenderedTunnel(h, pe, m, n, i);
    }
  }

  /** A lawful kernel has every link of every rendering as the rendering wants it. */
  lemma LawfulIsFaithful(h: Hash, pe: PeIntent, k: Kernel, m: Desired)
    requires Sound(h, pe, m) && Lawful(h, k)
    ensures Faithful(k, m)
  {
    LawfulTablesAsDesired(h, pe, k, m);
    forall n, i
      ensures MasterAsDesired(k, m, n, i)
    {
      LawfulMasterAsDesired(h, pe, k, m, n, i);
    }
  }

  // ---------- Rounds ----------

  lemma LinksThroughout(k: Kernel, rem: seq<Resource>, add: seq<Resource>)
    ensures Added(Removed(k, rem), add).marks.links == LinkState(k, rem, add, |add|).links
  {
    var a := Added(Removed(k, rem), add);
    AllTunnels(k, rem, add);
    LinksUntouched(a.xfrms, KRoute, add);
    LinksUntouched(a.routes, KSid, add);
    LinksUntouched(a.sids, KSrRoute, add);
    LinksUntouched(a.srRoutes, KRule, add);
    LinksUntouched(a.rules, KMark, add);
  }

  lemma TablesStayLawful(h: Hash, k: Kernel, m: Desired, rem: seq<Resource>, add: seq<Resource>, k': Kernel)
    requires Start(k, m, rem, add) && Faithful(k, m) && LawfulDesired(h, m) && k'.links == LinkState(k, rem, add, |add|).links
    ensures LawfulTables(h, k')
  {
    forall t | HasId(k', VrfId(VrfName(t)))
      ensures k'.links[VrfName(t)].table == TableOf(h, t)
    {
      var n := VrfName(t);
      assert OwnsTable(LinkState(k, rem, add, |add|), n, k'.links[n].table);
      OwnersAreWanted(k, m, rem, add, n, k'.links[n].table);
    }
  }

  lemma MastersStayLawful(h: Hash, k: Kernel, m: Desired, rem: seq<Resource>, add: seq<Resource>, k': Kernel)
    requires Start(k, m, rem, add) && Faithful(k, m) && Closed(m) && LawfulDesired(h, m) && k'.links == LinkState(k, rem, add, |add|).links
    ensures LawfulMasters(k')
  {
    forall t, i: nat | HasId(k', XfrmId(TunnelName(t, i), i))
      ensures k'.links[TunnelName(t, i)].master == Some(VrfName(t)) && HasId(k', VrfId(VrfName(t)))
    {
      var id := XfrmId(TunnelName(t, i), i);
      LinksAreWanted(k, m, rem, add, TunnelName(t, i), i);
      TunnelsPresent(k, m, rem, add, TunnelName(t, i), i);
      assert RefersWithin(m, m[id]);
      LinksPresent(k, m, rem, add, |add|, VrfName(t), i);
    }
  }

  /** Clean rounds keep a kernel lawful. */
  lemma RoundKeepsLawful(h: Hash, k: Kernel, m: Desired, rem: seq<Resource>, add: seq<Resource>, k': Kernel)
    requires Start(k, m, rem, add) && Faithful(k, m) && Closed(m) && LawfulDesired(h, m) && Applied(k, rem, add, k')
    ensures Lawful(h, k')
  {
    LinksThroughout(k, rem, add);
    TablesStayLawful(h, k, m, rem, add, k');
    MastersStayLawful(h, k, m, rem, add, k');
  }

  /** For every PE intent and every lawful kernel, every insertion finds its referents, whether or
      not the intent's portals, paths and classes agree. */
  lemma RenderedIntentsFindReferents(h: Hash, pe: PeIntent, k: Kernel, m: Desired, rem: seq<Resource>, add: seq<Resource>, j: nat)
    requires IsRendering(h, pe, m) && Owned(k) && Lawful(h, k) && IsDiff(k, m, rem, add) && j < |add|
    requires AddsAccepted(Removed(k, rem), KVrf, add) && AddsAccepted(AddStage(Removed(k, rem), KVrf, add), KXfrm, add)
    ensures FindsReferents(StateAt(k, rem, add, j), add[j])
  {
    RenderingIsRendered(h, pe, m);
    RenderingNamesApart(h, pe, m);
    RenderingIsClosed(h, pe, m);
    LawfulIsFaithful(h, pe, k, m);
    InsertsFindReferents(k, m, rem, add, j);
  }

  ghost predicate PeRound(h: Hash, pe: PeIntent, k: Kernel, k': Kernel) {
    exists m :: IsRendering(h, pe, m) && Round(k, m, k')
  }

  lemma PeRoundKeepsLawful(h: Hash, pe: PeIntent, k: Kernel, k': Kernel)
    requires Owned(k) && Lawful(h, k) && PeRound(h, pe, k, k')
    ensures Owned(k') && Lawful(h, k')
  {
    var m :| IsRendering(h, pe, m) && Round(k, m, k');
    var rem, add :| IsDiff(k, m, rem, add) && Applied(k, rem, add, k');
    RenderingIsRendered(h, pe, m);
    RenderingNamesApart(h, pe, m);
    RenderingIsClosed(h, pe, m);
    RenderingIsLawful(h, pe, m);
    LawfulIsFaithful(h, pe, k, m);
    AppliedKeepsOwned(k, m, rem, add, k');
    RoundKeepsLawful(h, k, m, rem, add, k');
  }

  ghost predicate IsRun(h: Hash, intents: seq<PeIntent>, kernels: seq<Kernel>) {
    && |kernels| == |intents| + 1
    && forall i :: 0 <= i < |intents| ==> PeRound(h, intents[i], kernels[i], kernels[i + 1])
  }

  /** Over any run of clean rounds, of whatever intents, a kernel that starts lawful stays so. */
  lemma {:induction false} RunKeepsLawful(h: Hash, intents: seq<PeIntent>, kernels: seq<Kernel>, i: nat)
    requires IsRun(h, intents, kernels) && Owned(kernels[0]) && Lawful(h, kernels[0]) && i <= |intents|
    ensures Owned(kernels[i]) && Lawful(h, kernels[i])
    decreases i
  {
    if i > 0 {
      RunKeepsLawful(h, intents, kernels, i - 1);
      PeRoundKeepsLawful(h, intents[i - 1], kernels[i - 1], kernels[i]);
    }
  }

  /** Two tenants on one vrf table: the kernel refuses one of the vrfs in every round. */
  lemma SharedTableNeverApplied(h: Hash, pe: PeIntent, k: Kernel, m: Desired, rem: seq<Resource>, add: seq<Resource>, k': Kernel)
    requires IsRendering(h, pe, m) && !OneTableEach(h, pe)
    requires Owned(k) && LawfulTables(h, k) && IsDiff(k, m, rem, add)
    ensures !Applied(k, rem, add, k')
  {
    RenderingIsRendered(h, pe, m);
    RenderingNamesApart(h, pe, m);
    LawfulTablesAsDesired(h, pe, k, m);
    var t, u :| t in pe.tenants && u in pe.tenants && TableOf(h, t) == TableOf(h, u) && t != u;
    VrfRendered(h, pe, m, t);
    VrfRendered(h, pe, m, u);
    VrfsStay(k, m, rem, add, |add|, VrfName(t));
    VrfsStay(k, m, rem, add, |add|, VrfName(u));
    AllTunnels(k, rem, add);
    if AllAccepted(Removed(k, rem), add) {
      LinkStateOwned(k, m, rem, add);
      VrfNameInjective(t, u);
    }
  }

  // ---------- Rounds with failures ----------

  /** Every vrf is one that was there, or one the list asks for in the table it asks for. */
  ghost predicate VrfsFrom(k: Kernel, rs: seq<Resource>, k': Kernel) {
    forall n :: n in k'.links && k'.links[n].Vrf? ==>
      || (n in k.links && k'.links[n] == k.links[n])
      || (exists r :: r in rs && r.VrfR? && r.name == n && r.table == k'.links[n].table)
  }

  lemma VrfsFromOn(k: Kernel, k1: Kernel, rs: seq<Resource>, k2: Kernel)
    requires VrfsFrom(k, rs, k1) && VrfsFrom(k1, rs, k2)
    ensures VrfsFrom(k, rs, k2)
  {
  }

  lemma AddedVrfsFrom(k: Kernel, rs: seq<Resource>, r: Resource, k': Kernel)
    requires r in rs && ((k' == AddEffect(k, r) && Addable(k, r)) || AddLeaves(k, r, k'))
    ensures VrfsFrom(k, rs, k')
  {
  }

  lemma RemovedVrfsFrom(k: Kernel, rs: seq<Resource>, r: Resource, k': Kernel)
    requires k' == RemoveEffect(k, r) || RemoveLeaves(k, r, k')
    ensures VrfsFrom(k, rs, k')
  {
  }

  /** So tables stay lawful however many calls fail. */
  lemma AttemptKeepsTables(h: Hash, k: Kernel, m: Desired, rem: seq<Resource>, add: seq<Resource>, k': Kernel)
    requires LawfulTables(h, k) && LawfulDesired(h, m) && Filed(m) && IsDiff(k, m, rem, add) && VrfsFrom(k, add, k')
    ensures LawfulTables(h, k')
  {
    forall t | HasId(k', VrfId(VrfName(t)))
      ensures k'.links[VrfName(t)].table == TableOf(h, t)
    {
      var n := VrfName(t);
      if !(n in k.links && k'.links[n] == k.links[n]) {
        var r :| r in add && r.VrfR? && r.name == n && r.table == k'.links[n].table;
        assert IdOf(r) == VrfId(n);
      }
    }
  }
}
