/** The node's reconciler: plan, diff and apply, at most three times per intent. */
module Reconciler {
  import opened Topology
  import opened Kernel
  import opened Dataplane
  import opened Stages
  import opened Convergence
  import opened Render
  import opened RenderFacts
  import opened Referents
  import opened Acceptance
  import opened Lawfulness
  import Fencing

  datatype NodeType = PeNode | CpeNode

  datatype Body = PeBody(pe: PeIntent) | CpeBody(cpe: CpeIntent)

  datatype NodeIntent = NodeIntent(nodeType: NodeType, version: nat, generation: nat, body: Body)

  /** Older by version, or by generation within one version; a repeat is not stale. */
  predicate Stale(current: Option<NodeIntent>, ni: NodeIntent) {
    current.Some? &&
    (ni.version < current.value.version || (ni.version == current.value.version && ni.generation < current.value.generation))
  }

  function StampOf(ni: NodeIntent): Fencing.Stamp {
    Fencing.Stamp(ni.version, ni.generation)
  }

  /** What the fencing protocol says of the agent on this node. */
  ghost predicate Stands(current: Option<NodeIntent>, s: Fencing.State, n: Fencing.NodeId) {
    && (current.Some? <==> n in s.agents)
    && (current.Some? ==> StampOf(current.value) == s.agents[n].entry.stamp)
  }

  /** The reconciler is the agent of the fencing protocol: it finds stale exactly what the protocol
      refuses, and a delivery that is done, or not, takes it where the protocol's step does. */
  lemma AgentIsReconciler(current: Option<NodeIntent>, ni: NodeIntent, done: bool, current': Option<NodeIntent>, s: Fencing.State, m: Fencing.Msg)
    requires Stands(current, s, m.node) && StampOf(ni) == m.entry.stamp
    requires current' == if done then Some(ni) else current
    requires done ==> !Stale(current, ni)
    ensures Stale(current, ni) <==> Fencing.Refused(s, m)
    ensures Stands(current', Fencing.Next(s, Fencing.Deliver(m, done)), m.node)
  {
  }

  /** What a step of the protocol means to the reconciler on node `n`: a delivery to it ends done or
      not, its own restart makes it forget, and nothing else concerns it. */
  ghost predicate Reacts(n: Fencing.NodeId, step: Fencing.Step, ni: NodeIntent, current: Option<NodeIntent>, current': Option<NodeIntent>) {
    match step
    case Deliver(m, done) =>
      if m.node != n then current' == current
      else
        && StampOf(ni) == m.entry.stamp && (done ==> !Stale(current, ni))
        && current' == if done then Some(ni) else current
    case AgentRestart(x) => current' == if x == n then None else current
    case _ => current' == current
  }

  /** Over every run of the protocol the reconciler's current intent is the one the protocol says its
      agent converged on. So `AgentNeverGoesBack` speaks of the reconciler. */
  lemma {:induction false} NodeFollowsProtocol(s: Fencing.State, steps: seq<Fencing.Step>, nis: seq<NodeIntent>, currents: seq<Option<NodeIntent>>, n: Fencing.NodeId)
    requires |nis| == |steps| && |currents| == |steps| + 1 && Stands(currents[0], s, n)
    requires forall i :: 0 <= i < |steps| ==> Reacts(n, steps[i], nis[i], currents[i], currents[i + 1])
    ensures Stands(currents[|steps|], Fencing.After(s, steps), n)
    decreases |steps|
  {
    if steps != [] {
      var k := |steps| - 1;
      NodeFollowsProtocol(s, steps[..k], nis[..k], currents[..k + 1], n);
      assert Reacts(n, steps[k], nis[k], currents[k], currents[k + 1]);
    }
  }

  /** And until the node itself restarts, no delivery makes it older. */
  lemma ReconcilerNeverGoesBack(s: Fencing.State, steps: seq<Fencing.Step>, nis: seq<NodeIntent>, currents: seq<Option<NodeIntent>>, n: Fencing.NodeId)
    requires |nis| == |steps| && |currents| == |steps| + 1 && Stands(currents[0], s, n)
    requires forall i :: 0 <= i < |steps| ==> Reacts(n, steps[i], nis[i], currents[i], currents[i + 1])
    requires Fencing.Inv(s) && Fencing.Possible(s, steps) && Fencing.Unwrapped(s, steps) && Fencing.AgentRestart(n) !in steps
    requires currents[0].Some?
    ensures currents[|steps|].Some? && !Fencing.Less(StampOf(currents[|steps|].value), StampOf(currents[0].value))
  {
    NodeFollowsProtocol(s, steps, nis, currents, n);
    Fencing.AgentNeverGoesBack(s, steps, n);
  }

  /** The resource maps an intent may be rendered to. Map iteration order leaves a choice. */
  ghost predicate RendersTo(h: Hash, body: Body, m: Desired) {
    match body
    case PeBody(pe) => CodepointsFit(pe.classes) && IsRendering(h, pe, m)
    case CpeBody(cpe) => RenderCpe(cpe) == Some(m)
  }

  /** Intents whose resources fit into one kernel. */
  ghost predicate Realizable(h: Hash, body: Body) {
    match body
    case PeBody(pe) => Agreeing(h, pe) && SegmentsGiven(pe) && CodepointsFit(pe.classes)
    case CpeBody(cpe) => cpe.ifId == 0 || cpe.sitePrefix.Some?
  }

  /** What the node provides to the intent: free names, the interfaces under its tunnels, the device
      of its segment routes. */
  ghost predicate NodeReady(body: Body, foreign: set<string>) {
    match body
    case PeBody(pe) =>
      && (forall t :: t in pe.tenants ==> VrfName(t) !in foreign)
      && (forall t, p :: t in pe.tenants && p in pe.tenants[t].portals ==>
            TunnelName(t, pe.tenants[t].portals[p].ifId) !in foreign && pe.tenants[t].portals[p].hostInterface in foreign)
      && (forall t, p :: t in pe.tenants && p in pe.tenants[t].paths && p.prefixes != [] ==> SEGMENT_DEVICE in foreign)
    case CpeBody(cpe) => CpeTunnel(cpe.tenant) !in foreign
  }

  /** A kernel that clean passes have built on a ready node. */
  ghost predicate Suited(h: Hash, body: Body, k: Kernel) {
    NodeReady(body, k.foreign) && (body.PeBody? ==> Lawful(h, k))
  }

  lemma RenderingsAreRendered(h: Hash, body: Body, m: Desired)
    requires RendersTo(h, body, m)
    ensures Rendered(m) && DistinctNames(m) && LawfulDesired(h, m)
  {
    match body
    case PeBody(pe) =>
      RenderingIsRendered(h, pe, m);
      RenderingNamesApart(h, pe, m);
      RenderingIsLawful(h, pe, m);
    case CpeBody(cpe) =>
      CpeRenderingIsFine(cpe);
      KeysGiveNames(m);
      CpeIsLawful(h, cpe, m);
  }

  lemma CpeIsLawful(h: Hash, cpe: CpeIntent, m: Desired)
    requires RenderCpe(cpe) == Some(m)
    ensures LawfulDesired(h, m)
  {
    forall id | id in m
      ensures id.XfrmId? ==> id.name[..1] == "x"
      ensures !id.VrfId?
    {
      CpeShape(cpe, cpe.sitePrefix.value, id);
      assert CpeTunnel(cpe.tenant)[..1] == "x";
    }
    forall t, i: nat
      ensures TunnelName(t, i)[..1] == "m"
    {
    }
  }

  lemma CpeIsClosed(cpe: CpeIntent, k: Kernel, m: Desired)
    requires RenderCpe(cpe) == Some(m)
    ensures Closed(m) && Faithful(k, m)
  {
    forall id | id in m
      ensures !id.VrfId? && Standalone(m, m[id])
    {
      CpeShape(cpe, cpe.sitePrefix.value, id);
      assert XfrmId(CpeTunnel(cpe.tenant), cpe.ifId) in m;
      forall v
        ensures VrfId(v) !in m
      {
      }
    }
  }

  lemma RealizableIsDistinct(h: Hash, body: Body, m: Desired)
    requires RendersTo(h, body, m) && Realizable(h, body)
    ensures DistinctKernelKeys(m)
  {
    match body
    case PeBody(pe) => DistinctIffAgree(h, pe, m);
    case CpeBody(cpe) => CpeRenderingIsFine(cpe);
  }

  lemma RenderingsFit(h: Hash, body: Body, k: Kernel, m: Desired)
    requires RendersTo(h, body, m) && (body.PeBody? ==> Lawful(h, k))
    ensures Closed(m) && Faithful(k, m)
  {
    match body
    case PeBody(pe) =>
      RenderingIsClosed(h, pe, m);
      LawfulIsFaithful(h, pe, k, m);
    case CpeBody(cpe) => CpeIsClosed(cpe, k, m);
  }

  lemma RenderingsAreReady(h: Hash, body: Body, foreign: set<string>, m: Desired)
    requires RendersTo(h, body, m) && Realizable(h, body) && NodeReady(body, foreign) && LOOPBACK in foreign
    ensures Ready(foreign, m)
  {
    forall id | id in m
      ensures Provided(foreign, m[id])
    {
      match body
      case PeBody(pe) => PeProvided(h, pe, foreign, m, id);
      case CpeBody(cpe) => CpeShape(cpe, cpe.sitePrefix.value, id);
    }
  }

  lemma PeProvided(h: Hash, pe: PeIntent, foreign: set<string>, m: Desired, id: Id)
    requires IsRendering(h, pe, m) && Realizable(h, PeBody(pe)) && NodeReady(PeBody(pe), foreign) && id in m
    ensures Provided(foreign, m[id])
  {
    SegmentsIff(h, pe, m);
    if !m[id].MarkR? {
      var t := TenantOf(h, pe, m, id);
      if m[id].XfrmR? {
        var p :| p in pe.tenants[t].portals && PortalWants(h, t, pe.tenants[t].portals[p], m[id]);
      } else if m[id].SrRouteR? {
        var p :| p in pe.tenants[t].paths && PathWants(h, t, p, m[id]);
        assert p.prefixes != [];
      }
    }
  }

  lemma SameKeys(h: Hash, body: Body, m: Desired, m': Desired)
    requires RendersTo(h, body, m) && RendersTo(h, body, m') && Realizable(h, body)
    ensures m.Keys == m'.Keys
  {
    if body.PeBody? {
      RenderingsAgree(h, body.pe, m, m');
      RenderingsAgree(h, body.pe, m', m);
    }
  }

  /** Whether a default route is traded does not depend on the order of maps either. */
  lemma TradesAgree(h: Hash, body: Body, k: Kernel, m: Desired, m': Desired)
    requires RendersTo(h, body, m) && RendersTo(h, body, m') && Realizable(h, body)
    ensures Trades(k, m) <==> Trades(k, m')
  {
    SameKeys(h, body, m, m');
    if body.PeBody? {
      forall v | VrfId(v) in m
        ensures m[VrfId(v)] == m'[VrfId(v)]
      {
        SameVrf(h, body.pe, m, m', v);
      }
      SameTrades(k, m, m');
      SameTrades(k, m', m);
    }
  }

  lemma SameVrf(h: Hash, pe: PeIntent, m: Desired, m': Desired, v: string)
    requires IsRendering(h, pe, m) && IsRendering(h, pe, m') && VrfId(v) in m && VrfId(v) in m'
    ensures m[VrfId(v)] == m'[VrfId(v)]
  {
    var t := RenderedVrf(h, pe, m, v);
    var u := RenderedVrf(h, pe, m', v);
    VrfNameInjective(t, u);
  }

  lemma SameTrades(k: Kernel, m: Desired, m': Desired)
    requires m.Keys == m'.Keys && (forall v :: VrfId(v) in m ==> m[VrfId(v)] == m'[VrfId(v)])
    ensures Trades(k, m) ==> Trades(k, m')
  {
    assert forall id :: id in m <==> id in m';
    if v, dev :| TradesDefault(k, m, v, dev) {
      assert TradesDefault(k, m', v, dev);
    }
  }

  // ---------- Plan and diff ----------

  /** The owned objects filed by identifier. */
  ghost predicate IsView(k: Kernel, cur: Desired) {
    && (forall id :: id in cur <==> HasId(k, id))
    && (forall id :: id in cur ==> IsObject(k, cur[id]) && IdOf(cur[id]) == id)
  }

  lemma OneObjectPerId(k: Kernel, a: Resource, b: Resource)
    requires Owned(k) && IsObject(k, a) && IsObject(k, b) && IdOf(a) == IdOf(b)
    ensures a == b
  {
  }

  /** `RenderFIB`, over the getters' results in any order. */
  method RenderFib(k: Kernel) returns (cur: Desired)
    requires Owned(k)
    ensures IsView(k, cur)
  {
    cur := map[];
    var todo := Objects(k);
    while todo != {}
      invariant todo <= Objects(k)
      invariant forall id :: id in cur ==> IsObject(k, cur[id]) && IdOf(cur[id]) == id
      invariant forall r :: r in Objects(k) && r !in todo ==> IdOf(r) in cur
    {
      var r :| r in todo;
      todo := todo - {r};
      ObjectsAre(k, r);
      cur := Put(cur, r);
    }
    forall id
      ensures id in cur <==> HasId(k, id)
    {
      if id in cur {
        ObjectsHaveIds(k, cur[id]);
      }
      if HasId(k, id) {
        var r := IdsHaveObjects(k, id);
        ObjectsAre(k, r);
      }
    }
  }

  method KeyDifference(a: Desired, b: Desired) returns (diff: seq<Id>)
    ensures forall id :: id in diff <==> id in a && id !in b
    ensures forall i, j :: 0 <= i < j < |diff| ==> diff[i] != diff[j]
  {
    diff := [];
    var todo := a.Keys;
    while todo != {}
      invariant todo <= a.Keys
      invariant forall id :: id in diff <==> id in a && id !in todo && id !in b
      invariant forall i, j :: 0 <= i < j < |diff| ==> diff[i] != diff[j]
    {
      var id :| id in todo;
      todo := todo - {id};
      if id !in b {
        diff := diff + [id];
      }
    }
  }

  method Lookups(a: Desired, ids: seq<Id>) returns (rs: seq<Resource>)
    requires forall id :: id in ids ==> id in a
    ensures forall r :: r in rs <==> exists id :: id in ids && a[id] == r
    ensures |rs| == |ids| && forall j :: 0 <= j < |ids| ==> rs[j] == a[ids[j]]
  {
    rs := [];
    var i := 0;
    while i < |ids|
      invariant 0 <= i <= |ids|
      invariant |rs| == i
      invariant forall j :: 0 <= j < i ==> rs[j] == a[ids[j]]
    {
      rs := rs + [a[ids[i]]];
      i := i + 1;
    }
    forall r
      ensures r in rs <==> exists id :: id in ids && a[id] == r
    {
      if id :| id in ids && a[id] == r {
        var j :| 0 <= j < |ids| && ids[j] == id;
        assert rs[j] == r;
      }
      if r in rs {
        var j :| 0 <= j < |rs| && rs[j] == r;
        assert ids[j] in ids && a[ids[j]] == r;
      }
    }
  }

  /** `Diff`, against the kernel it was computed from: both lists are empty exactly on convergence. */
  method Diff(ghost k: Kernel, cur: Desired, desired: Desired) returns (rem: seq<Resource>, add: seq<Resource>)
    requires Owned(k) && IsView(k, cur) && Filed(desired)
    ensures IsDiff(k, desired, rem, add)
    ensures NoRepeats(rem) && NoRepeats(add)
    ensures rem == [] && add == [] <==> Converged(k, desired)
  {
    var remove := KeyDifference(cur, desired);
    var insert := KeyDifference(desired, cur);
    rem := Lookups(cur, remove);
    add := Lookups(desired, insert);
    DiffIs(k, cur, desired, remove, insert, rem, add);
    LookupsDiffer(cur, remove, rem);
    LookupsDiffer(desired, insert, add);
    assert rem == [] <==> remove == [];
    assert add == [] <==> insert == [];
    EmptyDiff(k, cur, desired, remove, insert);
  }

  lemma LookupsDiffer(a: Desired, ids: seq<Id>, rs: seq<Resource>)
    requires Filed(a) && (forall id :: id in ids ==> id in a) && (forall i, j :: 0 <= i < j < |ids| ==> ids[i] != ids[j])
    requires |rs| == |ids| && forall j :: 0 <= j < |ids| ==> rs[j] == a[ids[j]]
    ensures NoRepeats(rs)
  {
    forall i, j | 0 <= i < j < |rs|
      ensures rs[i] != rs[j]
    {
      assert IdOf(rs[i]) == ids[i] && IdOf(rs[j]) == ids[j];
    }
  }

  lemma EmptyDiff(k: Kernel, cur: Desired, desired: Desired, remove: seq<Id>, insert: seq<Id>)
    requires IsView(k, cur)
    requires forall id :: id in remove <==> id in cur && id !in desired
    requires forall id :: id in insert <==> id in desired && id !in cur
    ensures remove == [] && insert == [] <==> Converged(k, desired)
  {
    assert remove == [] || remove[0] in remove;
    assert insert == [] || insert[0] in insert;
    if !Converged(k, desired) {
      var id :| HasId(k, id) != (id in desired);
      assert id in remove || id in insert;
    }
  }

  lemma DiffIs(k: Kernel, cur: Desired, desired: Desired, remove: seq<Id>, insert: seq<Id>, rem: seq<Resource>, add: seq<Resource>)
    requires Owned(k) && IsView(k, cur) && Filed(desired)
    requires forall id :: id in remove <==> id in cur && id !in desired
    requires forall id :: id in insert <==> id in desired && id !in cur
    requires forall r :: r in rem <==> exists id :: id in remove && cur[id] == r
    requires forall r :: r in add <==> exists id :: id in insert && desired[id] == r
    ensures IsDiff(k, desired, rem, add)
  {
    forall r
      ensures r in rem <==> IsObject(k, r) && IdOf(r) !in desired
    {
      if IsObject(k, r) && IdOf(r) !in desired {
        ObjectsHaveIds(k, r);
        OneObjectPerId(k, r, cur[IdOf(r)]);
        assert IdOf(r) in remove;
      }
    }
    forall r
      ensures r in add <==> IdOf(r) in desired && desired[IdOf(r)] == r && !HasId(k, IdOf(r))
    {
      if IdOf(r) in desired && desired[IdOf(r)] == r && !HasId(k, IdOf(r)) {
        assert IdOf(r) in insert;
      }
    }
  }

  // ---------- Apply ----------

  /** What holds of a stretch of calls, however many of them fail. */
  twostate predicate Attempted(dp: Dataplane, add: seq<Resource>)
    reads dp
  {
    && Owned(dp.k) && dp.failures >= old(dp.failures) && dp.refusals >= old(dp.refusals)
    && dp.k.foreign == old(dp.k).foreign && VrfsFrom(old(dp.k), add, dp.k)
  }

  twostate predicate NothingFailed(dp: Dataplane)
    reads dp
  {
    dp.failures == old(dp.failures)
  }

  twostate predicate NothingRefused(dp: Dataplane)
    reads dp
  {
    dp.refusals == old(dp.refusals)
  }

  method RemoveOne(dp: Dataplane, r: Resource)
    requires Owned(dp.k)
    modifies dp
    ensures Attempted(dp, []) && dp.k.rules <= old(dp.k.rules)
    ensures NothingFailed(dp) && NothingRefused(dp) ==> dp.k == RemoveEffect(old(dp.k), r)
    ensures NothingFailed(dp) && Removable(old(dp.k), r) ==> NothingRefused(dp)
  {
    ghost var refused;
    var ok;
    ok, refused := dp.Remove(r);
    RemovedVrfsFrom(old(dp.k), [], r, dp.k);
  }

  /** One of the seven removal loops; failures are logged and skipped. */
  method RemoveKind(dp: Dataplane, kind: Kind, rs: seq<Resource>)
    requires Owned(dp.k)
    modifies dp
    ensures Attempted(dp, []) && dp.k.rules <= old(dp.k.rules)
    ensures NothingFailed(dp) && NothingRefused(dp) ==> dp.k == RemoveStage(old(dp.k), kind, rs)
    ensures NothingFailed(dp) && RemovesAccepted(old(dp.k), kind, rs) ==> NothingRefused(dp)
  {
    var i := 0;
    while i < |rs|
      invariant 0 <= i <= |rs|
      invariant Attempted(dp, []) && dp.k.rules <= old(dp.k.rules)
      invariant NothingFailed(dp) && NothingRefused(dp) ==> dp.k == RemoveStage(old(dp.k), kind, rs[..i])
      invariant NothingFailed(dp) && RemovesAccepted(old(dp.k), kind, rs[..i]) ==> NothingRefused(dp)
    {
      assert rs[..i + 1][..i] == rs[..i];
      if KindOf(rs[i]) == kind {
        ghost var before := dp.k;
        RemoveOne(dp, rs[i]);
        VrfsFromOn(old(dp.k), before, [], dp.k);
      }
      i := i + 1;
    }
    assert rs[..i] == rs;
  }

  method AddOne(dp: Dataplane, rs: seq<Resource>, r: Resource)
    requires Owned(dp.k) && Insertable(dp.k, rs) && r in rs
    modifies dp
    ensures Attempted(dp, rs) && Insertable(dp.k, rs)
    ensures NothingFailed(dp) && NothingRefused(dp) ==> dp.k == AddEffect(old(dp.k), r) && Addable(old(dp.k), r)
    ensures NothingFailed(dp) && Addable(old(dp.k), r) ==> NothingRefused(dp)
  {
    ghost var refused;
    var ok;
    ok, refused := dp.Add(r);
    StillInsertable(old(dp.k), rs, r, dp.k);
    AddedVrfsFrom(old(dp.k), rs, r, dp.k);
  }

  /** One of the seven insertion loops. */
  method AddKind(dp: Dataplane, kind: Kind, rs: seq<Resource>)
    requires Owned(dp.k) && Insertable(dp.k, rs)
    modifies dp
    ensures Attempted(dp, rs) && Insertable(dp.k, rs)
    ensures NothingFailed(dp) && NothingRefused(dp) ==> dp.k == AddStage(old(dp.k), kind, rs) && AddsAccepted(old(dp.k), kind, rs)
    ensures NothingFailed(dp) && AddsAccepted(old(dp.k), kind, rs) ==> NothingRefused(dp)
  {
    var i := 0;
    while i < |rs|
      invariant 0 <= i <= |rs|
      invariant Attempted(dp, rs) && Insertable(dp.k, rs)
      invariant NothingFailed(dp) && NothingRefused(dp) ==> dp.k == AddStage(old(dp.k), kind, rs[..i]) && AddsAccepted(old(dp.k), kind, rs[..i])
      invariant NothingFailed(dp) && AddsAccepted(old(dp.k), kind, rs[..i]) ==> NothingRefused(dp)
    {
      assert rs[..i + 1][..i] == rs[..i];
      if KindOf(rs[i]) == kind {
        ghost var before := dp.k;
        AddOne(dp, rs, rs[i]);
        VrfsFromOn(old(dp.k), before, rs, dp.k);
      }
      i := i + 1;
    }
    assert rs[..i] == rs;
  }

  method RemoveAll(dp: Dataplane, rem: seq<Resource>)
    requires Owned(dp.k)
    modifies dp
    ensures Attempted(dp, []) && dp.k.rules <= old(dp.k.rules)
    ensures NothingFailed(dp) && NothingRefused(dp) ==> dp.k == Removed(old(dp.k), rem)
    ensures NothingFailed(dp) && AllRemovable(old(dp.k), rem) ==> NothingRefused(dp)
  {
    RemoveKind(dp, KMark, rem);
    RemoveKind(dp, KRule, rem);
    RemoveKind(dp, KSrRoute, rem);
    RemoveKind(dp, KSid, rem);
    RemoveKind(dp, KRoute, rem);
    RemoveKind(dp, KXfrm, rem);
    RemoveKind(dp, KVrf, rem);
  }

  method AddAll(dp: Dataplane, add: seq<Resource>)
    requires Owned(dp.k) && Insertable(dp.k, add)
    modifies dp
    ensures Attempted(dp, add)
    ensures NothingFailed(dp) && NothingRefused(dp) ==> AllAccepted(old(dp.k), add) && dp.k == Added(old(dp.k), add).marks
    ensures NothingFailed(dp) && AllAccepted(old(dp.k), add) ==> NothingRefused(dp)
  {
    AddKind(dp, KVrf, add);
    AddKind(dp, KXfrm, add);
    AddKind(dp, KRoute, add);
    AddKind(dp, KSid, add);
    AddKind(dp, KSrRoute, add);
    AddKind(dp, KRule, add);
    AddKind(dp, KMark, add);
  }

  /** `Apply` fails only before it starts; afterwards it presses on past every failed call. If no call
      failed or was refused it has applied the whole diff, and none is refused that the kernel's state
      allows. */
  method Apply(dp: Dataplane, ghost m: Desired, rem: seq<Resource>, add: seq<Resource>) returns (ok: bool)
    requires Owned(dp.k) && Rendered(m) && IsDiff(dp.k, m, rem, add)
    modifies dp
    ensures Attempted(dp, add)
    ensures !ok ==> dp.k == old(dp.k) && dp.failures > old(dp.failures)
    ensures NothingFailed(dp) && NothingRefused(dp) ==> Applied(old(dp.k), rem, add, dp.k)
    ensures NothingFailed(dp) && AllRemovable(old(dp.k), rem) && AllAccepted(Removed(old(dp.k), rem), add) ==> NothingRefused(dp)
  {
    ok := dp.Call();
    if !ok {
      return;
    }
    DiffIsInsertable(dp.k, m, rem, add);
    RemoveAll(dp, rem);
    ghost var between := dp.k;
    AddAll(dp, add);
    VrfsFromOn(old(dp.k), between, add, dp.k);
  }

  // ---------- Passes ----------

  /** Where clean passes over a realizable intent, begun at `k0`, have got to. */
  ghost predicate Reached(k0: Kernel, m: Desired, pass: int, k: Kernel) {
    match pass
    case 0 => k == k0
    case 1 => Placed(k, m) && (AlmostConverged(k, m) <==> !Trades(k0, m))
    case 2 => AlmostConverged(k, m) && (Converged(k, m) <==> !Trades(k0, m))
    case 3 => Converged(k, m) && Trades(k0, m)
    case _ => false
  }

  ghost predicate Progress(h: Hash, body: Body, k0: Kernel, pass: int, k: Kernel) {
    forall m :: RendersTo(h, body, m) ==> Reached(k0, m, pass, k)
  }

  lemma ReachedNext(k0: Kernel, m: Desired, pass: int, k: Kernel, k': Kernel)
    requires Owned(k) && Rendered(m) && DistinctKernelKeys(m) && 0 <= pass < 3 && Reached(k0, m, pass, k) && !Converged(k, m)
    requires Round(k, m, k')
    ensures Reached(k0, m, pass + 1, k')
  {
    if pass == 0 {
      var rem, add :| IsDiff(k, m, rem, add) && Applied(k, rem, add, k');
      FirstRound(k, m, rem, add, k');
    } else {
      LaterRound(k, m, k');
    }
  }

  lemma ReachedByKeys(h: Hash, body: Body, k0: Kernel, pass: int, k: Kernel, m: Desired, m': Desired)
    requires RendersTo(h, body, m) && RendersTo(h, body, m') && Realizable(h, body) && Reached(k0, m, pass, k)
    ensures Reached(k0, m', pass, k)
  {
    SameKeys(h, body, m, m');
    ByKeys(k, m, m');
    TradesAgree(h, body, k0, m, m');
  }

  /** A clean pass that had work to do makes progress. */
  lemma PassProgress(h: Hash, body: Body, k0: Kernel, pass: int, k: Kernel, m: Desired, rem: seq<Resource>, add: seq<Resource>, k': Kernel)
    requires 0 <= pass < 3 && Owned(k) && Realizable(h, body) && RendersTo(h, body, m)
    requires Progress(h, body, k0, pass, k) && !Converged(k, m)
    requires IsDiff(k, m, rem, add) && Applied(k, rem, add, k')
    ensures Progress(h, body, k0, pass + 1, k')
  {
    RenderingsAreRendered(h, body, m);
    RealizableIsDistinct(h, body, m);
    ReachedNext(k0, m, pass, k, k');
    forall m' | RendersTo(h, body, m')
      ensures Reached(k0, m', pass + 1, k')
    {
      ReachedByKeys(h, body, k0, pass + 1, k', m, m');
    }
  }

  /** A pass that finds nothing to do: then no default route was traded on the way. */
  lemma NothingTraded(k0: Kernel, m: Desired, pass: int, k: Kernel)
    requires Owned(k) && Rendered(m) && 0 <= pass < 3 && Reached(k0, m, pass, k) && Converged(k, m)
    ensures !Trades(k0, m)
  {
    assert Placed(k, m) by {
      forall t, d | RouteKey(t, d, Normal) in k.routes
        ensures HasId(k, RouteId(t, d, k.routes[RouteKey(t, d, Normal)]))
      {
      }
    }
    forall t
      ensures !BothDefaults(k, t)
    {
      if BothDefaults(k, t) {
        ConvergedHasNoCatchAll(k, m, RouteKey(t, DEFAULT_PREFIX, CatchAll));
      }
    }
    PlacedTradesNothing(k, m);
  }

  /** On a suited node no call of a pass over a realizable intent is refused. */
  lemma PassIsAccepted(h: Hash, body: Body, k: Kernel, m: Desired, rem: seq<Resource>, add: seq<Resource>)
    requires Owned(k) && Realizable(h, body) && RendersTo(h, body, m) && Suited(h, body, k)
    requires IsDiff(k, m, rem, add) && NoRepeats(rem) && NoRepeats(add)
    ensures AllRemovable(k, rem) && AllAccepted(Removed(k, rem), add)
  {
    RenderingsAreRendered(h, body, m);
    RealizableIsDistinct(h, body, m);
    RenderingsFit(h, body, k, m);
    RenderingsAreReady(h, body, k.foreign, m);
    AllRemovalsAccepted(k, m, rem);
    AllInsertsAccepted(k, m, rem, add);
  }

  lemma PassKeepsSuited(h: Hash, body: Body, k: Kernel, m: Desired, rem: seq<Resource>, add: seq<Resource>, k': Kernel)
    requires Owned(k) && RendersTo(h, body, m) && Suited(h, body, k)
    requires IsDiff(k, m, rem, add) && Applied(k, rem, add, k') && k'.foreign == k.foreign
    ensures Suited(h, body, k')
  {
    RenderingsAreRendered(h, body, m);
    RenderingsFit(h, body, k, m);
    RoundKeepsLawful(h, k, m, rem, add, k');
  }

  /** Where a delivery of an intent, begun at `k0`, stands after some passes. */
  ghost predicate Standing(h: Hash, body: Body, k0: Kernel, pass: int, k: Kernel, failed: bool, refused: bool) {
    && (LawfulTables(h, k0) ==> LawfulTables(h, k))
    && (!failed && !refused && Realizable(h, body) ==> Progress(h, body, k0, pass, k))
    && (!failed && Realizable(h, body) && Suited(h, body, k0) ==> !refused && Suited(h, body, k))
  }

  lemma OnePass(h: Hash, body: Body, k0: Kernel, pass: int, k: Kernel, failed: bool, refused: bool,
                m: Desired, rem: seq<Resource>, add: seq<Resource>, k': Kernel, failed': bool, refused': bool)
    requires 0 <= pass < 3 && Owned(k) && RendersTo(h, body, m) && !Converged(k, m)
    requires IsDiff(k, m, rem, add) && NoRepeats(rem) && NoRepeats(add)
    requires Standing(h, body, k0, pass, k, failed, refused)
    requires VrfsFrom(k, add, k') && k'.foreign == k.foreign && (failed ==> failed') && (refused ==> refused')
    requires !failed' && !refused' ==> Applied(k, rem, add, k')
    requires !failed' && !refused && AllRemovable(k, rem) && AllAccepted(Removed(k, rem), add) ==> !refused'
    ensures Standing(h, body, k0, pass + 1, k', failed', refused')
  {
    RenderingsAreRendered(h, body, m);
    if LawfulTables(h, k) {
      AttemptKeepsTables(h, k, m, rem, add, k');
    }
    if !failed' && Realizable(h, body) && Suited(h, body, k0) {
      PassIsAccepted(h, body, k, m, rem, add);
      PassKeepsSuited(h, body, k, m, rem, add, k');
    }
    if !failed' && !refused' && Realizable(h, body) {
      PassProgress(h, body, k0, pass, k, m, rem, add, k');
    }
  }

  /** The kernel holds exactly what the intent renders to. */
  ghost predicate Holds(h: Hash, body: Body, k: Kernel) {
    exists m :: RendersTo(h, body, m) && Converged(k, m)
  }

  /** The kernel holds the intent, and the delivery begun at `k0` reports so unless it traded a
      default route on the way. */
  ghost predicate Settled(h: Hash, body: Body, k0: Kernel, k: Kernel, done: bool) {
    exists m :: RendersTo(h, body, m) && Converged(k, m) && (done <==> !Trades(k0, m))
  }

  /** An intent the kernel already holds is settled at once: its next delivery has nothing to trade. */
  lemma HeldTradesNothing(h: Hash, body: Body, k: Kernel, m: Desired)
    requires Owned(k) && Realizable(h, body) && Holds(h, body, k) && RendersTo(h, body, m)
    ensures Converged(k, m) && !Trades(k, m)
  {
    var m' :| RendersTo(h, body, m') && Converged(k, m');
    SameKeys(h, body, m, m');
    ByKeys(k, m, m');
    RenderingsAreRendered(h, body, m);
    NothingTraded(k, m, 0, k);
  }

  lemma DoneSettles(h: Hash, body: Body, k0: Kernel, pass: int, k: Kernel, m: Desired)
    requires 0 <= pass < 3 && Owned(k) && RendersTo(h, body, m) && Converged(k, m) && Progress(h, body, k0, pass, k)
    ensures Settled(h, body, k0, k, true)
  {
    RenderingsAreRendered(h, body, m);
    NothingTraded(k0, m, pass, k);
  }

  lemma EndSettles(h: Hash, body: Body, k0: Kernel, k: Kernel, m: Desired)
    requires RendersTo(h, body, m) && Progress(h, body, k0, 3, k)
    ensures Settled(h, body, k0, k, false)
  {
    assert Reached(k0, m, 3, k);
  }

  datatype Refusal = WrongType | StaleIntent | ReadFailed | RenderFailed

  datatype Plan = Planned(cur: Desired, desired: Desired) | Refused(why: Refusal)

  datatype Outcome = Done | NotPlanned(why: Refusal) | NotApplied | OutOfPasses

  const MAX_PASSES := 3

  class Reconciler {
    const dp: Dataplane
    const nodeType: NodeType
    const h: Hash
    var current: Option<NodeIntent>

    constructor (dp: Dataplane, nodeType: NodeType, h: Hash)
      ensures this.dp == dp && this.nodeType == nodeType && this.h == h && current == None
    {
      this.dp, this.nodeType, this.h, current := dp, nodeType, h, None;
    }

    /** `Plan`: the checks come before anything is read, and nothing is written. */
    method MakePlan(ni: NodeIntent) returns (r: Plan)
      requires Owned(dp.k)
      modifies dp`failures
      ensures dp.failures == old(dp.failures) + if r == Refused(ReadFailed) then 1 else 0
      ensures ni.nodeType != nodeType <==> r == Refused(WrongType)
      ensures r == Refused(StaleIntent) <==>
        ni.nodeType == nodeType && current.Some? && Fencing.Less(StampOf(ni), StampOf(current.value))
      ensures current.Some? && ni.version > current.value.version ==> r != Refused(StaleIntent)
      ensures r == Refused(RenderFailed) ==> !Realizable(h, ni.body)
      ensures r.Planned? ==> IsView(dp.k, r.cur) && RendersTo(h, ni.body, r.desired)
    {
      if ni.nodeType != nodeType {
        return Refused(WrongType);
      }
      if Stale(current, ni) {
        return Refused(StaleIntent);
      }
      var read := dp.Call();
      if !read {
        return Refused(ReadFailed);
      }
      var cur := RenderFib(dp.k);
      var desired: Option<Desired>;
      match ni.body {
        case PeBody(pe) =>
          var owners;
          desired, owners := RenderPe(h, pe);
        case CpeBody(cpe) =>
          desired := RenderCpe(cpe);
      }
      if desired.None? {
        return Refused(RenderFailed);
      }
      r := Planned(cur, desired.value);
    }

    /** The intent is of this node's type and not stale. */
    predicate Admits(ni: NodeIntent)
      reads this
    {
      ni.nodeType == nodeType && !Stale(current, ni)
    }

    /** A plan is done when it asks for nothing, and is applied otherwise. */
    method Carry(ni: NodeIntent, cur: Desired, m: Desired, ghost k0: Kernel, ghost pass: int, ghost failed: bool, ghost refused: bool)
      returns (r: Option<Outcome>)
      requires Owned(dp.k) && 0 <= pass < 3 && Standing(h, ni.body, k0, pass, dp.k, failed, refused)
      requires IsView(dp.k, cur) && RendersTo(h, ni.body, m)
      modifies this, dp
      ensures Owned(dp.k) && dp.failures >= old(dp.failures) && dp.refusals >= old(dp.refusals)
      ensures r.None? || r == Some(Done) || (r == Some(NotApplied) && !NothingFailed(dp) && dp.k == old(dp.k))
      ensures r.None? ==> Standing(h, ni.body, k0, pass + 1, dp.k, failed || !NothingFailed(dp), refused || !NothingRefused(dp))
      ensures r == Some(Done) ==> current == Some(ni) && Holds(h, ni.body, dp.k) && dp.k == old(dp.k) && NothingFailed(dp) && NothingRefused(dp)
      ensures r == Some(Done) && !failed && !refused && Realizable(h, ni.body) ==> Settled(h, ni.body, k0, dp.k, true)
      ensures r != Some(Done) ==> current == old(current)
    {
      ghost var k := dp.k;
      RenderingsAreRendered(h, ni.body, m);
      var rem, add := Diff(k, cur, m);
      if rem == [] && add == [] {
        if !failed && !refused && Realizable(h, ni.body) {
          DoneSettles(h, ni.body, k0, pass, k, m);
        }
        current := Some(ni);
        return Some(Done);
      }
      var ok := Apply(dp, m, rem, add);
      if !ok {
        return Some(NotApplied);
      }
      OnePass(h, ni.body, k0, pass, k, failed, refused, m, rem, add, dp.k, failed || !NothingFailed(dp), refused || !NothingRefused(dp));
      r := None;
    }

    /** One pass of the loop: the outcome, if it is known by then. */
    method Pass(ni: NodeIntent, ghost k0: Kernel, ghost pass: int, ghost failed: bool, ghost refused: bool)
      returns (r: Option<Outcome>, ghost m: Desired)
      requires Owned(dp.k) && 0 <= pass < 3 && Standing(h, ni.body, k0, pass, dp.k, failed, refused)
      modifies this, dp
      ensures Owned(dp.k) && dp.failures >= old(dp.failures) && dp.refusals >= old(dp.refusals)
      ensures Standing(h, ni.body, k0, if r.None? then pass + 1 else pass, dp.k, failed || !NothingFailed(dp), refused || !NothingRefused(dp))
              || (r == Some(NotApplied) && !NothingFailed(dp) && dp.k == old(dp.k))
      ensures r == Some(Done) ==> current == Some(ni) && old(Admits(ni)) && Holds(h, ni.body, dp.k)
      ensures r == Some(Done) && !failed && !refused && Realizable(h, ni.body) ==> Settled(h, ni.body, k0, dp.k, true)
      ensures r != Some(Done) ==> current == old(current)
      ensures r.None? ==> old(Admits(ni)) && RendersTo(h, ni.body, m)
      ensures !old(Admits(ni)) ==> r.Some? && r.value.NotPlanned? && dp.k == old(dp.k)
      ensures r.Some? && !r.value.Done? && old(Admits(ni)) && Realizable(h, ni.body) ==> !NothingFailed(dp)
      ensures r != Some(OutOfPasses)
    {
      ghost var k := dp.k;
      m := map[];
      var plan := MakePlan(ni);
      if plan.Refused? {
        assert plan.why.WrongType? || plan.why.StaleIntent? || plan.why.ReadFailed? || plan.why.RenderFailed?;
        return Some(NotPlanned(plan.why)), m;
      }
      m := plan.desired;
      r := Carry(ni, plan.cur, plan.desired, k0, pass, failed, refused);
    }

    /** `Reconcile`: the intent becomes current only when the kernel holds exactly what it renders
        to. Refused intents leave the kernel alone. If no call fails or is refused, a realizable
        intent is in the kernel after at most three passes; it is reported done unless a default
        route was traded on the way, when the third pass has just repaired that. On a suited node no
        call is refused. */
    method Reconcile(ni: NodeIntent) returns (r: Outcome)
      requires Owned(dp.k)
      modifies this, dp
      ensures Owned(dp.k)
      ensures r.Done? ==> current == Some(ni) && old(Admits(ni)) && Holds(h, ni.body, dp.k)
      ensures !r.Done? ==> current == old(current)
      ensures !old(Admits(ni)) ==> r.NotPlanned? && dp.k == old(dp.k)
      ensures r.Done? && old(current).Some? ==> !Fencing.Less(StampOf(current.value), StampOf(old(current).value))
      ensures old(current).Some? && ni.version > old(current).value.version && ni.nodeType == nodeType ==> old(Admits(ni))
      ensures LawfulTables(h, old(dp.k)) ==> LawfulTables(h, dp.k)
      ensures NothingFailed(dp) && NothingRefused(dp) && old(Admits(ni)) && Realizable(h, ni.body) ==>
        Settled(h, ni.body, old(dp.k), dp.k, r.Done?)
      ensures NothingFailed(dp) && old(Admits(ni)) && Realizable(h, ni.body) && Suited(h, ni.body, old(dp.k)) ==>
        NothingRefused(dp) && Suited(h, ni.body, dp.k)
    {
      ghost var k0, m := dp.k, map[];
      var pass := 0;
      while pass < MAX_PASSES
        invariant 0 <= pass <= MAX_PASSES
        invariant Owned(dp.k) && current == old(current) && dp.failures >= old(dp.failures) && dp.refusals >= old(dp.refusals)
        invariant pass == 0 ==> dp.k == k0
        invariant pass > 0 ==> old(Admits(ni)) && RendersTo(h, ni.body, m)
        invariant Standing(h, ni.body, k0, pass, dp.k, !NothingFailed(dp), !NothingRefused(dp))
      {
        var known;
        known, m := Pass(ni, k0, pass, !NothingFailed(dp), !NothingRefused(dp));
        if known.Some? {
          return known.value;
        }
        pass := pass + 1;
      }
      if NothingFailed(dp) && NothingRefused(dp) && Realizable(h, ni.body) {
        EndSettles(h, ni.body, k0, dp.k, m);
      }
      r := OutOfPasses;
    }
  }

  /** Where an intent asks two things of one kernel key, or for a path without segments, no kernel
      that maeto builds ever holds it: being realizable is necessary, not only sufficient. */
  lemma HeldOnlyIfRealizable(h: Hash, body: Body, k: Kernel)
    requires Owned(k) && LawfulTables(h, k) && Holds(h, body, k)
    ensures Realizable(h, body)
  {
    var m :| RendersTo(h, body, m) && Converged(k, m);
    if body.PeBody? {
      RenderingsAreRendered(h, body, m);
      LawfulTablesAsDesired(h, body.pe, k, m);
      ClashNeverConverges(k, m);
      DistinctIffAgree(h, body.pe, m);
      SegmentsIff(h, body.pe, m);
    }
  }
}
