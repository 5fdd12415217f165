/** No call of a round is refused when the node provides what the desired resources rest on and the
    links already there are as desired. */
module Acceptance {
  import opened Kernel
  import opened Stages
  import opened Convergence
  import opened RenderFacts
  import opened Referents

  ghost predicate NoRepeats(rs: seq<Resource>) {
    forall i, j :: 0 <= i < j < |rs| ==> rs[i] != rs[j]
  }

  /** What the reconciler does not make itself: names left free by others, the interface under a
      tunnel, the device that segment routes leave by. */
  predicate Provided(foreign: set<string>, r: Resource) {
    match r
    case VrfR(name, _, _) => name !in foreign
    case XfrmR(name, _, parent, _, _) => name !in foreign && parent in foreign
    case SrRouteR(_, _, segments) => segments != [] && SEGMENT_DEVICE in foreign
    case _ => true
  }

  ghost predicate Ready(foreign: set<string>, m: Desired) {
    forall id :: id in m ==> Provided(foreign, m[id])
  }

  ghost predicate Prepared(k: Kernel, m: Desired, rem: seq<Resource>, add: seq<Resource>) {
    && Owned(k) && Rendered(m) && DistinctKernelKeys(m) && IsDiff(k, m, rem, add) && NoRepeats(rem) && NoRepeats(add)
    && Faithful(k, m) && Closed(m) && Ready(k.foreign, m)
  }

  lemma {:induction false} AcceptedUpTo(k: Kernel, kind: Kind, rs: seq<Resource>, n: nat)
    requires n <= |rs|
    requires forall j :: 0 <= j < n && KindOf(rs[j]) == kind ==> Addable(AddStage(k, kind, rs[..j]), rs[j])
    ensures AddsAccepted(k, kind, rs[..n])
  {
    if n > 0 {
      AcceptedUpTo(k, kind, rs, n - 1);
      assert rs[..n][..n - 1] == rs[..n - 1];
    }
  }

  lemma AcceptedIf(k: Kernel, kind: Kind, rs: seq<Resource>)
    requires forall j :: 0 <= j < |rs| && KindOf(rs[j]) == kind ==> Addable(AddStage(k, kind, rs[..j]), rs[j])
    ensures AddsAccepted(k, kind, rs)
  {
    AcceptedUpTo(k, kind, rs, |rs|);
    assert rs[..|rs|] == rs;
  }

  // ---------- Insertions ----------

  lemma EarlierApart(k: Kernel, m: Desired, rem: seq<Resource>, add: seq<Resource>, j: nat, r: Resource)
    requires Prepared(k, m, rem, add) && j < |add| && r in add[..j]
    ensures r in add && r != add[j] && Apart(r, add[j])
  {
    var i :| 0 <= i < j && add[i] == r;
    AddsApart(k, m, rem, add);
  }

  /** Removal leaves no link under the name of a link to be inserted. */
  lemma NameCleared(k: Kernel, m: Desired, rem: seq<Resource>, add: seq<Resource>, r: Resource)
    requires Prepared(k, m, rem, add) && r in add && IsLink(r)
    ensures r.name !in Removed(k, rem).links && r.name !in Removed(k, rem).foreign
  {
    KeysGiveNames(m);
    AllRemoved(k, rem);
    CutIffUnwanted(k, m, rem, r.name);
    assert m[IdOf(r)] == r;
    if r.VrfR? {
      NewVrfName(k, m, rem, add, r);
    } else {
      NewTunnelName(k, m, rem, add, r);
    }
  }

  /** Nor one that owns the table of a vrf to be inserted. */
  lemma TableCleared(k: Kernel, m: Desired, rem: seq<Resource>, add: seq<Resource>, r: Resource, n: string)
    requires Prepared(k, m, rem, add) && r in add && r.VrfR?
    ensures !OwnsTable(Removed(k, rem), n, r.table)
  {
    AllRemoved(k, rem);
    CutIffUnwanted(k, m, rem, n);
    assert m[IdOf(r)] == r;
    assert VrfId(n) in m && IdOf(r) != VrfId(n) ==> Apart(m[VrfId(n)], r);
  }

  lemma VrfAccepted(k: Kernel, m: Desired, rem: seq<Resource>, add: seq<Resource>, j: nat)
    requires Prepared(k, m, rem, add) && j < |add| && add[j].VrfR?
    ensures Addable(AddStage(Removed(k, rem), KVrf, add[..j]), add[j])
  {
    var kR, r := Removed(k, rem), add[j];
    var k1 := AddStage(kR, KVrf, add[..j]);
    VrfStage(kR, add[..j]);
    NameCleared(k, m, rem, add, r);
    forall x | x in add[..j] && x.VrfR?
      ensures x.name != r.name && OwnsTable(k1, x.name, x.table) && x.table != r.table
    {
      EarlierApart(k, m, rem, add, j, x);
      NameCleared(k, m, rem, add, x);
      KeysGiveNames(m);
      AddsNamesApart(k, m, rem, add);
      assert forall y :: y in add[..j] ==> y in add;
      VrfTables(kR, add[..j]);
    }
    forall n
      ensures !OwnsTable(k1, n, r.table)
    {
      TableCleared(k, m, rem, add, r, n);
    }
  }

  /** When its turn comes, a tunnel's name is free and the interface under it is there. */
  lemma TunnelNameFree(k: Kernel, m: Desired, rem: seq<Resource>, add: seq<Resource>, j: nat)
    requires Prepared(k, m, rem, add) && j < |add| && add[j].XfrmR?
    ensures !LinkExists(LinkState(k, rem, add, j), add[j].name) && LinkExists(LinkState(k, rem, add, j), add[j].parent)
  {
    var kR, r := Removed(k, rem), add[j];
    AllRemoved(k, rem);
    NameCleared(k, m, rem, add, r);
    assert r in add && m[IdOf(r)] == r && Provided(k.foreign, r);
    KeysGiveNames(m);
    AddsNamesApart(k, m, rem, add);
    VrfStage(kR, add);
    assert forall y :: y in add[..j] ==> y in add;
    XfrmStage(AddStage(kR, KVrf, add), add[..j]);
    forall x | x in add[..j] && x.XfrmR?
      ensures x.name != r.name
    {
      EarlierApart(k, m, rem, add, j, x);
    }
  }

  lemma XfrmAccepted(k: Kernel, m: Desired, rem: seq<Resource>, add: seq<Resource>, j: nat)
    requires Prepared(k, m, rem, add) && j < |add| && add[j].XfrmR?
    ensures Addable(LinkState(k, rem, add, j), add[j])
  {
    var r := add[j];
    TunnelNameFree(k, m, rem, add, j);
    if r.master.Some? {
      KeysGiveNames(m);
      assert r in add && IdOf(r) in m && RefersWithin(m, m[IdOf(r)]);
      VrfsStay(k, m, rem, add, j, r.master.value);
    }
  }

  lemma LinksAccepted(k: Kernel, m: Desired, rem: seq<Resource>, add: seq<Resource>)
    requires Prepared(k, m, rem, add)
    ensures AddsAccepted(Removed(k, rem), KVrf, add) && AddsAccepted(AddStage(Removed(k, rem), KVrf, add), KXfrm, add)
  {
    forall j | 0 <= j < |add| && KindOf(add[j]) == KVrf
      ensures Addable(AddStage(Removed(k, rem), KVrf, add[..j]), add[j])
    {
      VrfAccepted(k, m, rem, add, j);
    }
    AcceptedIf(Removed(k, rem), KVrf, add);
    forall j | 0 <= j < |add| && KindOf(add[j]) == KXfrm
      ensures Addable(AddStage(AddStage(Removed(k, rem), KVrf, add), KXfrm, add[..j]), add[j])
    {
      XfrmAccepted(k, m, rem, add, j);
    }
    AcceptedIf(AddStage(Removed(k, rem), KVrf, add), KXfrm, add);
  }

  lemma RoutesAccepted(k: Kernel, m: Desired, rem: seq<Resource>, add: seq<Resource>)
    requires Prepared(k, m, rem, add)
    ensures var a := Added(Removed(k, rem), add); AddsAccepted(a.xfrms, KRoute, add) && AddsAccepted(a.routes, KSid, add)
  {
    var a := Added(Removed(k, rem), add);
    KeysGiveNames(m);
    LinksAccepted(k, m, rem, add);
    forall j | 0 <= j < |add| && KindOf(add[j]) == KRoute
      ensures Addable(AddStage(a.xfrms, KRoute, add[..j]), add[j])
    {
      InsertsFindReferents(k, m, rem, add, j);
    }
    AcceptedIf(a.xfrms, KRoute, add);
    forall j | 0 <= j < |add| && KindOf(add[j]) == KSid
      ensures Addable(AddStage(a.routes, KSid, add[..j]), add[j])
    {
      InsertsFindReferents(k, m, rem, add, j);
    }
    AcceptedIf(a.routes, KSid, add);
  }

  lemma ForeignStays(k: Kernel, m: Desired, rem: seq<Resource>, add: seq<Resource>)
    requires Prepared(k, m, rem, add)
    ensures var a := Added(Removed(k, rem), add);
            a.xfrms.foreign == k.foreign && a.sids.foreign == k.foreign && a.marks.foreign == k.foreign
  {
    var a := Added(Removed(k, rem), add);
    AllRemoved(k, rem);
    VrfStage(Removed(k, rem), add);
    KeysGiveNames(m);
    AddsNamesApart(k, m, rem, add);
    XfrmStage(a.vrfs, add);
    LinksUntouched(a.xfrms, KRoute, add);
    LinksUntouched(a.routes, KSid, add);
    LinksUntouched(a.sids, KSrRoute, add);
    LinksUntouched(a.srRoutes, KRule, add);
    LinksUntouched(a.rules, KMark, add);
  }

  lemma SrAccepted(k: Kernel, m: Desired, rem: seq<Resource>, add: seq<Resource>)
    requires Prepared(k, m, rem, add)
    ensures AddsAccepted(Added(Removed(k, rem), add).sids, KSrRoute, add)
  {
    var k4 := Added(Removed(k, rem), add).sids;
    ForeignStays(k, m, rem, add);
    forall j | 0 <= j < |add| && KindOf(add[j]) == KSrRoute
      ensures Addable(AddStage(k4, KSrRoute, add[..j]), add[j])
    {
      assert add[j] in add && m[IdOf(add[j])] == add[j];
      LinksUntouched(k4, KSrRoute, add[..j]);
    }
    AcceptedIf(k4, KSrRoute, add);
  }

  lemma {:induction false} MarksUntouched(k: Kernel, kind: Kind, rs: seq<Resource>)
    requires kind != KMark
    ensures AddStage(k, kind, rs).marks == k.marks
    decreases |rs|
  {
    if rs != [] {
      MarksUntouched(k, kind, rs[..|rs| - 1]);
    }
  }

  /** Removal leaves no classification of a codepoint to be classified. */
  lemma MarkCleared(k: Kernel, m: Desired, rem: seq<Resource>, add: seq<Resource>, r: Resource)
    requires Prepared(k, m, rem, add) && r in add && r.MarkR?
    ensures r.dscp !in Removed(k, rem).marks
  {
    AllRemoved(k, rem);
    if r.dscp in k.marks {
      var o := MarkR(r.dscp, k.marks[r.dscp]);
      assert IsObject(k, o) && m[IdOf(r)] == r && IdOf(o) != IdOf(r);
      assert IdOf(o) in m ==> IdOf(m[IdOf(o)]) == IdOf(o) && Apart(m[IdOf(o)], r);
      assert o in rem;
    }
  }

  lemma MarksAccepted(k: Kernel, m: Desired, rem: seq<Resource>, add: seq<Resource>)
    requires Prepared(k, m, rem, add)
    ensures AddsAccepted(Added(Removed(k, rem), add).rules, KMark, add)
  {
    var kR, a := Removed(k, rem), Added(Removed(k, rem), add);
    MarksUntouched(kR, KVrf, add);
    MarksUntouched(a.vrfs, KXfrm, add);
    MarksUntouched(a.xfrms, KRoute, add);
    MarksUntouched(a.routes, KSid, add);
    MarksUntouched(a.sids, KSrRoute, add);
    MarksUntouched(a.srRoutes, KRule, add);
    forall j | 0 <= j < |add| && KindOf(add[j]) == KMark
      ensures Addable(AddStage(a.rules, KMark, add[..j]), add[j])
    {
      MarkAccepted(k, m, rem, add, j, a.rules);
    }
    AcceptedIf(a.rules, KMark, add);
  }

  lemma MarkAccepted(k: Kernel, m: Desired, rem: seq<Resource>, add: seq<Resource>, j: nat, k6: Kernel)
    requires Prepared(k, m, rem, add) && j < |add| && add[j].MarkR? && k6.marks == Removed(k, rem).marks
    ensures Addable(AddStage(k6, KMark, add[..j]), add[j])
  {
    MarkCleared(k, m, rem, add, add[j]);
    forall x, y | x in add[..j] && y in add[..j] && x != y
      ensures Apart(x, y)
    {
      AddsApart(k, m, rem, add);
      assert x in add && y in add;
    }
    MarkStage(k6, add[..j]);
    forall x | x in add[..j] && x.MarkR?
      ensures x.dscp != add[j].dscp
    {
      EarlierApart(k, m, rem, add, j, x);
    }
  }

  lemma RulesAccepted(k: Kernel, rs: seq<Resource>)
    ensures AddsAccepted(k, KRule, rs)
  {
    AcceptedIf(k, KRule, rs);
  }

  /** No insertion of a prepared round is refused. */
  lemma AllInsertsAccepted(k: Kernel, m: Desired, rem: seq<Resource>, add: seq<Resource>)
    requires Prepared(k, m, rem, add)
    ensures AllAccepted(Removed(k, rem), add)
  {
    LinksAccepted(k, m, rem, add);
    RoutesAccepted(k, m, rem, add);
    SrAccepted(k, m, rem, add);
    RulesAccepted(Added(Removed(k, rem), add).srRoutes, add);
    MarksAccepted(k, m, rem, add);
  }

  // ---------- Removals ----------

  ghost predicate AllRemovable(k: Kernel, rs: seq<Resource>) {
    var k1 := RemoveStage(k, KMark, rs);
    var k2 := RemoveStage(k1, KRule, rs);
    var k3 := RemoveStage(k2, KSrRoute, rs);
    var k4 := RemoveStage(k3, KSid, rs);
    var k5 := RemoveStage(k4, KRoute, rs);
    && RemovesAccepted(k, KMark, rs) && RemovesAccepted(k1, KRule, rs) && RemovesAccepted(k2, KSrRoute, rs)
    && RemovesAccepted(k3, KSid, rs) && RemovesAccepted(k4, KRoute, rs)
    && RemovesAccepted(k5, KXfrm, rs) && RemovesAccepted(RemoveStage(k5, KXfrm, rs), KVrf, rs)
  }

  lemma {:induction false} NeverRefused(k: Kernel, kind: Kind, rs: seq<Resource>)
    requires kind != KSid && kind != KXfrm && kind != KVrf
    ensures RemovesAccepted(k, kind, rs)
    decreases |rs|
  {
    if rs != [] {
      NeverRefused(k, kind, rs[..|rs| - 1]);
    }
  }

  lemma {:induction false} SidsRemovable(k: Kernel, rs: seq<Resource>)
    requires NoRepeats(rs) && (forall r :: r in rs && r.SidR? ==> r.sid in k.sids)
    requires forall r, s :: r in rs && s in rs && r.SidR? && s.SidR? && r.sid == s.sid ==> r == s
    ensures RemovesAccepted(k, KSid, rs)
    decreases |rs|
  {
    if rs != [] {
      var front, last := rs[..|rs| - 1], rs[|rs| - 1];
      Snoc(rs);
      SidsRemovable(k, front);
      SidsRemoved(k, front);
      assert last !in front;
    }
  }

  /** Unique indexes: whatever is still found under a listed index is of the listed type. */
  lemma {:induction false} LinksRemovable(k: Kernel, kind: Kind, rs: seq<Resource>)
    requires Owned(k) && (kind == KVrf || kind == KXfrm)
    requires forall r, n :: r in rs && KindOf(r) == kind && n in k.links && k.links[n].index == r.index ==> (k.links[n].Vrf? <==> kind == KVrf)
    ensures RemovesAccepted(k, kind, rs)
    decreases |rs|
  {
    if rs != [] {
      Snoc(rs);
      LinksRemovable(k, kind, rs[..|rs| - 1]);
      LinkStage(k, kind, rs[..|rs| - 1]);
    }
  }

  lemma LinkKinds(k: Kernel, m: Desired, rem: seq<Resource>, r: Resource, n: string)
    requires Owned(k) && (forall x :: x in rem <==> IsObject(k, x) && IdOf(x) !in m)
    requires r in rem && IsLink(r) && n in k.links && k.links[n].index == r.index
    ensures k.links[n].Vrf? <==> r.VrfR?
  {
    LinkObjects(k, r);
  }

  /** No removal of a round is refused. */
  lemma AllRemovalsAccepted(k: Kernel, m: Desired, rem: seq<Resource>)
    requires Owned(k) && NoRepeats(rem) && (forall x :: x in rem <==> IsObject(k, x) && IdOf(x) !in m)
    ensures AllRemovable(k, rem)
  {
    var k1 := RemoveStage(k, KMark, rem);
    var k2 := RemoveStage(k1, KRule, rem);
    var k3 := RemoveStage(k2, KSrRoute, rem);
    var k4 := RemoveStage(k3, KSid, rem);
    var k5 := RemoveStage(k4, KRoute, rem);
    MarksRemoved(k, rem);
    RulesRemoved(k1, rem);
    SrRemoved(k2, rem);
    NeverRefused(k, KMark, rem);
    NeverRefused(k1, KRule, rem);
    NeverRefused(k2, KSrRoute, rem);
    NeverRefused(k4, KRoute, rem);
    SidsRemovable(k3, rem);
    NonLinks(k, rem);
    assert k5 == NonLinksRemoved(k, rem);
    LinkRemovalsAccepted(k, m, rem, k5);
  }

  lemma LinkRemovalsAccepted(k: Kernel, m: Desired, rem: seq<Resource>, k5: Kernel)
    requires Owned(k) && Owned(k5) && k5.links == k.links && (forall x :: x in rem <==> IsObject(k, x) && IdOf(x) !in m)
    ensures RemovesAccepted(k5, KXfrm, rem) && RemovesAccepted(RemoveStage(k5, KXfrm, rem), KVrf, rem)
  {
    var k6 := RemoveStage(k5, KXfrm, rem);
    forall r, n | r in rem && IsLink(r) && n in k.links && k.links[n].index == r.index
      ensures k.links[n].Vrf? <==> r.VrfR?
    {
      LinkKinds(k, m, rem, r, n);
    }
    LinksRemovable(k5, KXfrm, rem);
    RemoveStageOwned(k5, KXfrm, rem);
    LinkTypesStay(k5, rem);
    LinksRemovable(k6, KVrf, rem);
  }

  lemma LinkTypesStay(k: Kernel, rem: seq<Resource>)
    requires Owned(k)
    ensures var k' := RemoveStage(k, KXfrm, rem);
            forall n :: n in k'.links ==> n in k.links && k'.links[n].index == k.links[n].index && (k'.links[n].Vrf? <==> k.links[n].Vrf?)
  {
    LinkStage(k, KXfrm, rem);
  }
}
