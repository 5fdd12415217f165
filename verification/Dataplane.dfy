/** The dataplane calls, each of which may also fail for reasons of its own. */
module Dataplane {
  import opened Topology
  import opened Kernel

  /** A route on the loopback would be taken for a catch-all; maeto never asks for one. */
  predicate Sane(r: Resource) {
    r.RouteR? ==> r.dev != LOOPBACK
  }

  lemma WithoutLinkOwned(k: Kernel, n: string)
    requires Owned(k)
    ensures Owned(WithoutLink(k, n))
  {
    var k' := WithoutLink(k, n);
    assert forall a, t :: OwnsTable(k', a, t) ==> OwnsTable(k, a, t);
  }

  lemma FewerRoutesOwned(k: Kernel, gone: set<RouteKey>)
    requires Owned(k)
    ensures Owned(k.(routes := k.routes - gone))
  {
    var k' := k.(routes := k.routes - gone);
    assert forall a, t :: OwnsTable(k', a, t) ==> OwnsTable(k, a, t);
  }

  lemma RemoveKeepsOwned(k: Kernel, r: Resource)
    requires Owned(k)
    ensures Owned(RemoveEffect(k, r))
  {
    var k' := RemoveEffect(k, r);
    match r
    case VrfR(_, _, index) =>
      if LinkAt(k, index).Some? && k.links[LinkAt(k, index).value].Vrf? {
        var n := LinkAt(k, index).value;
        FewerRoutesOwned(k, {RouteKey(k.links[n].table, DEFAULT_PREFIX, CatchAll)});
        WithoutLinkOwned(k.(routes := k.routes - {RouteKey(k.links[n].table, DEFAULT_PREFIX, CatchAll)}), n);
      }
    case XfrmR(_, _, _, _, index) =>
      if LinkAt(k, index).Some? {
        WithoutLinkOwned(k, LinkAt(k, index).value);
      }
    case RouteR(table, dst, _) =>
      FewerRoutesOwned(k, {RouteKey(table, dst, Normal)});
      FewerRoutesOwned(k, {RouteKey(table, dst, CatchAll)});
    case _ =>
      assert forall a, t :: OwnsTable(k', a, t) <==> OwnsTable(k, a, t);
  }

  lemma BareVrfKeepsOwned(k: Kernel, name: string, table: int)
    requires Owned(k) && Addable(k, VrfR(name, table, 0))
    ensures Owned(WithVrf(k, name, table).(routes := k.routes))
  {
    var k' := WithVrf(k, name, table).(routes := k.routes);
    assert forall a, t :: OwnsTable(k', a, t) ==> OwnsTable(k, a, t) || (a == name && t == table);
  }

  lemma CatchAllKeepsOwned(k: Kernel, table: int)
    requires Owned(k)
    ensures Owned(k.(routes := k.routes[RouteKey(table, DEFAULT_PREFIX, CatchAll) := LOOPBACK]))
  {
    var k' := k.(routes := k.routes[RouteKey(table, DEFAULT_PREFIX, CatchAll) := LOOPBACK]);
    assert forall a, t :: OwnsTable(k', a, t) ==> OwnsTable(k, a, t);
  }

  lemma VrfKeepsOwned(k: Kernel, name: string, table: int)
    requires Owned(k) && Addable(k, VrfR(name, table, 0))
    ensures Owned(WithVrf(k, name, table))
  {
    var bare := WithVrf(k, name, table).(routes := k.routes);
    BareVrfKeepsOwned(k, name, table);
    CatchAllKeepsOwned(bare, table);
    assert WithVrf(k, name, table) == bare.(routes := bare.routes[RouteKey(table, DEFAULT_PREFIX, CatchAll) := LOOPBACK]);
  }

  lemma XfrmKeepsOwned(k: Kernel, name: string, ifId: int, master: Option<string>)
    requires Owned(k) && !LinkExists(k, name)
    ensures Owned(WithXfrm(k, name, ifId, master))
  {
    var k' := WithXfrm(k, name, ifId, master);
    assert forall a, t :: OwnsTable(k', a, t) ==> OwnsTable(k, a, t);
  }

  lemma RouteKeepsOwned(k: Kernel, table: int, dst: Prefix, dev: string)
    requires Owned(k) && dev != LOOPBACK
    ensures Owned(WithRoute(k, table, dst, dev))
  {
    var k' := WithRoute(k, table, dst, dev);
    assert forall a, t :: OwnsTable(k', a, t) ==> OwnsTable(k, a, t);
  }

  lemma RestKeepsOwned(k: Kernel, k': Kernel)
    requires Owned(k) && k'.links == k.links && k'.routes == k.routes && k'.foreign == k.foreign && k'.nextIndex == k.nextIndex
    requires forall a, b :: a in k'.rules && b in k'.rules && RuleIdOf(a) == RuleIdOf(b) ==> a == b
    requires forall s :: s in k'.srRoutes ==> k'.srRoutes[s] != []
    ensures Owned(k')
  {
    assert forall a, t :: OwnsTable(k', a, t) ==> OwnsTable(k, a, t);
  }

  lemma AddKeepsOwned(k: Kernel, r: Resource)
    requires Owned(k) && Addable(k, r) && Sane(r)
    requires r.RuleR? ==> forall x :: x in k.rules && RuleIdOf(x) == RuleIdOf(r.rule) ==> x == r.rule
    ensures Owned(AddEffect(k, r))
  {
    match r
    case VrfR(name, table, _) => VrfKeepsOwned(k, name, table);
    case XfrmR(name, ifId, _, master, _) => XfrmKeepsOwned(k, name, ifId, master);
    case RouteR(table, dst, dev) => RouteKeepsOwned(k, table, dst, dev);
    case SidR(_, _, _) => RestKeepsOwned(k, AddEffect(k, r));
    case SrRouteR(_, _, _) => RestKeepsOwned(k, AddEffect(k, r));
    case RuleR(_) => RestKeepsOwned(k, AddEffect(k, r));
    case MarkR(_, _) => RestKeepsOwned(k, AddEffect(k, r));
  }

  // ---------- What a failed call may leave behind ----------

  /** A vrf removal may have deleted the catch-all before it fails; nothing else is left half done. */
  ghost predicate RemoveLeaves(k: Kernel, r: Resource, k': Kernel) {
    || k' == k
    || (r.VrfR? && LinkAt(k, r.index).Some? && k.links[LinkAt(k, r.index).value].Vrf? &&
        k' == k.(routes := k.routes - {RouteKey(k.links[LinkAt(k, r.index).value].table, DEFAULT_PREFIX, CatchAll)}))
  }

  /** A vrf may be there without its catch-all or with it, and a tunnel without its master or under
      it; nothing else is left half done. */
  ghost predicate AddLeaves(k: Kernel, r: Resource, k': Kernel) {
    || k' == k
    || (r.VrfR? && Addable(k, r) && (k' == AddEffect(k, r) || k' == AddEffect(k, r).(routes := k.routes)))
    || (r.XfrmR? && !LinkExists(k, r.name) && LinkExists(k, r.parent) &&
        (k' == WithXfrm(k, r.name, r.ifId, None) || (Addable(k, r) && k' == AddEffect(k, r))))
  }

  class Dataplane {
    var k: Kernel

    /** Calls that failed although the kernel's state allowed them, and calls it did not allow. */
    ghost var failures: nat
    ghost var refusals: nat

    constructor (k: Kernel)
      ensures this.k == k && failures == 0 && refusals == 0
    {
      this.k, failures, refusals := k, 0, 0;
    }

    method RemoveLink(index: nat, vrf: bool) returns (ok: bool, ghost refused: bool)
      requires Owned(k)
      modifies this`k
      ensures Owned(k) && k.rules == old(k.rules)
      ensures var r := if vrf then VrfR("", 0, index) else XfrmR("", 0, "", None, index);
              && (if ok then k == RemoveEffect(old(k), r) && Removable(old(k), r) else RemoveLeaves(old(k), r, k))
              && (refused ==> !ok && !Removable(old(k), r))
    {
      ok, refused := false, false;
      var hits := set n | n in k.links && k.links[n].index == index;
      if hits == {} {
        assert forall n :: n in k.links && k.links[n].index == index ==> n in hits;
        return true, false;
      }
      var n :| n in hits;
      UniqueLinkAt(k, n);
      if k.links[n].Vrf? != vrf {
        return false, true;
      }
      if vrf {
        if * { return; }
        FewerRoutesOwned(k, {RouteKey(k.links[n].table, DEFAULT_PREFIX, CatchAll)});
        k := k.(routes := k.routes - {RouteKey(k.links[n].table, DEFAULT_PREFIX, CatchAll)});
      }
      if * { return; }
      WithoutLinkOwned(k, n);
      k := WithoutLink(k, n);
      ok := true;
    }

    method TryRemove(r: Resource) returns (ok: bool, ghost refused: bool)
      requires Owned(k)
      modifies this`k
      ensures Owned(k) && k.rules <= old(k.rules)
      ensures if ok then k == RemoveEffect(old(k), r) && Removable(old(k), r) else RemoveLeaves(old(k), r, k)
      ensures refused ==> !ok && !Removable(old(k), r)
    {
      ok, refused := false, false;
      match r
      case VrfR(_, _, index) => ok, refused := RemoveLink(index, true);
      case XfrmR(_, _, _, _, index) => ok, refused := RemoveLink(index, false);
      case RouteR(table, dst, _) =>
        if * { return; }
        RemoveKeepsOwned(k, r);
        k := WithoutRoute(k, table, dst);
        ok := true;
      case SidR(_, sid, _) =>
        if sid !in k.sids { return false, true; }
        if * { return; }
        RemoveKeepsOwned(k, r);
        k := k.(sids := k.sids - {sid});
        ok := true;
      case SrRouteR(table, prefix, _) =>
        if * { return; }
        RemoveKeepsOwned(k, r);
        k := k.(srRoutes := k.srRoutes - {SrKey(table, prefix)});
        ok := true;
      case RuleR(rule) =>
        if * { return; }
        RemoveKeepsOwned(k, r);
        k := k.(rules := k.rules - {rule});
        ok := true;
      case MarkR(dscp, _) =>
        if * { return; }
        RemoveKeepsOwned(k, r);
        k := k.(marks := k.marks - {dscp});
        ok := true;
    }

    method UpsertVrf(name: string, table: int) returns (ok: bool, ghost refused: bool)
      requires Owned(k)
      modifies this`k
      ensures Owned(k) && k.rules == old(k.rules)
      ensures var r := VrfR(name, table, 0);
              && (if ok then k == AddEffect(old(k), r) && Addable(old(k), r) else AddLeaves(old(k), r, k))
              && (refused ==> !ok && !Addable(old(k), r))
    {
      ok, refused := false, false;
      if * { return; }
      var others := set n | n in k.links && OwnsTable(k, n, table) && n != name;
      assert forall n :: OwnsTable(k, n, table) && n != name <==> n in others;
      if name in k.foreign || (name in k.links && !OwnsTable(k, name, table)) || others != {} {
        assert others != {} ==> exists n :: n in others;
        return false, true;
      }
      VrfKeepsOwned(k, name, table);
      if * {
        // the device exists by now, without its catch-all
        BareVrfKeepsOwned(k, name, table);
        k := WithVrf(k, name, table).(routes := k.routes);
        return;
      }
      k := WithVrf(k, name, table);
      // restoring strict mode may still fail
      ok := *;
    }

    method InsertXfrm(name: string, ifId: int, parent: string, master: Option<string>) returns (ok: bool, ghost refused: bool)
      requires Owned(k)
      modifies this`k
      ensures Owned(k) && k.rules == old(k.rules)
      ensures var r := XfrmR(name, ifId, parent, master, 0);
              && (if ok then k == AddEffect(old(k), r) && Addable(old(k), r) else AddLeaves(old(k), r, k))
              && (refused ==> !ok && !Addable(old(k), r))
    {
      ok, refused := false, false;
      if * { return; }
      if !LinkExists(k, parent) || LinkExists(k, name) {
        return false, true;
      }
      XfrmKeepsOwned(k, name, ifId, None);
      XfrmKeepsOwned(k, name, ifId, master);
      if master.Some? {
        var found := master.value in k.links && k.links[master.value].Vrf?;
        var enslaved: bool := *;
        if !found || !enslaved {
          // the device has been created by now and stays behind without a master
          k := WithXfrm(k, name, ifId, None);
          return false, !found;
        }
      }
      k := WithXfrm(k, name, ifId, master);
      // bringing the device up may still fail
      ok := *;
    }

    method InsertRoute(table: int, dst: Prefix, dev: string) returns (ok: bool, ghost refused: bool)
      requires Owned(k) && dev != LOOPBACK
      modifies this`k
      ensures Owned(k) && k.rules == old(k.rules)
      ensures var r := RouteR(table, dst, dev);
              && (if ok then k == AddEffect(old(k), r) && Addable(old(k), r) else AddLeaves(old(k), r, k))
              && (refused ==> !ok && !Addable(old(k), r))
    {
      ok, refused := false, false;
      if * { return; }
      if !LinkExists(k, dev) {
        return false, true;
      }
      var owners := set n | n in k.links && OwnsTable(k, n, table);
      if table != MAIN_TABLE && table != 0 && owners != {} {
        var v :| v in owners;
        UniqueOwner(k, v, table);
        if !(dev in k.links && k.links[dev].Xfrm? && k.links[dev].master == Some(v)) {
          return false, true;
        }
      }
      assert OwnerOf(k, table).Some? ==> OwnerOf(k, table).value in owners;
      AddKeepsOwned(k, RouteR(table, dst, dev));
      k := WithRoute(k, table, dst, dev);
      ok := true;
    }

    method UpsertSid(kind: string, sid: Addr, table: int) returns (ok: bool, ghost refused: bool)
      requires Owned(k)
      modifies this`k
      ensures Owned(k) && k.rules == old(k.rules)
      ensures var r := SidR(kind, sid, table);
              && (if ok then k == AddEffect(old(k), r) && Addable(old(k), r) else AddLeaves(old(k), r, k))
              && (refused ==> !ok && !Addable(old(k), r))
    {
      ok, refused := false, false;
      if * { return; }
      var owners := set n | n in k.links && OwnsTable(k, n, table);
      assert OwnerOf(k, table).Some? ==> OwnerOf(k, table).value in owners;
      if owners == {} {
        return false, true;
      }
      var v :| v in owners;
      UniqueOwner(k, v, table);
      AddKeepsOwned(k, SidR(kind, sid, table));
      k := k.(sids := k.sids[sid := Sid("dt46", table, v)]);
      ok := true;
    }

    method TryAdd(r: Resource) returns (ok: bool, ghost refused: bool)
      requires Owned(k) && Sane(r)
      requires r.RuleR? ==> forall x :: x in k.rules && RuleIdOf(x) == RuleIdOf(r.rule) ==> x == r.rule
      modifies this`k
      ensures Owned(k) && k.rules <= old(k.rules) + if r.RuleR? then {r.rule} else {}
      ensures if ok then k == AddEffect(old(k), r) && Addable(old(k), r) else AddLeaves(old(k), r, k)
      ensures refused ==> !ok && !Addable(old(k), r)
    {
      ok, refused := false, false;
      match r
      case VrfR(name, table, _) => ok, refused := UpsertVrf(name, table);
      case XfrmR(name, ifId, parent, master, _) => ok, refused := InsertXfrm(name, ifId, parent, master);
      case RouteR(table, dst, dev) => ok, refused := InsertRoute(table, dst, dev);
      case SidR(kind, sid, table) => ok, refused := UpsertSid(kind, sid, table);
      case SrRouteR(table, prefix, segments) =>
        if * { return; }
        if segments == [] || !LinkExists(k, SEGMENT_DEVICE) { return false, true; }
        AddKeepsOwned(k, r);
        k := k.(srRoutes := k.srRoutes[SrKey(table, prefix) := segments]);
        ok := true;
      case RuleR(rule) =>
        if * { return; }
        AddKeepsOwned(k, r);
        k := k.(rules := k.rules + {rule});
        ok := true;
      case MarkR(dscp, mark) =>
        if * { return; }
        if dscp in k.marks && k.marks[dscp] != mark { return false, true; }
        AddKeepsOwned(k, r);
        k := k.(marks := k.marks[dscp := mark]);
        ok := true;
    }

    /** A call succeeds, is refused by the kernel's state, or fails for a reason outside it. */
    twostate predicate Counted(ok: bool, refused: bool)
      reads this
    {
      && failures == old(failures) + (if ok || refused then 0 else 1)
      && refusals == old(refusals) + (if refused then 1 else 0)
    }

    /** The removal call that `Apply` issues for a resource. */
    method Remove(r: Resource) returns (ok: bool, ghost refused: bool)
      requires Owned(k)
      modifies this
      ensures Owned(k) && Counted(ok, refused) && k.rules <= old(k.rules)
      ensures if ok then k == RemoveEffect(old(k), r) && Removable(old(k), r) else RemoveLeaves(old(k), r, k)
      ensures refused ==> !ok && !Removable(old(k), r)
    {
      ok, refused := TryRemove(r);
      failures, refusals := failures + (if ok || refused then 0 else 1), refusals + if refused then 1 else 0;
    }

    /** The insertion call that `Apply` issues for a resource. */
    method Add(r: Resource) returns (ok: bool, ghost refused: bool)
      requires Owned(k) && Sane(r)
      requires r.RuleR? ==> forall x :: x in k.rules && RuleIdOf(x) == RuleIdOf(r.rule) ==> x == r.rule
      modifies this
      ensures Owned(k) && Counted(ok, refused) && k.rules <= old(k.rules) + if r.RuleR? then {r.rule} else {}
      ensures if ok then k == AddEffect(old(k), r) && Addable(old(k), r) else AddLeaves(old(k), r, k)
      ensures refused ==> !ok && !Addable(old(k), r)
    {
      ok, refused := TryAdd(r);
      failures, refusals := failures + (if ok || refused then 0 else 1), refusals + if refused then 1 else 0;
    }

    /** Calls that do not touch what the reconciler owns: the getters and `EnsureClassificationBase`. */
    method Call() returns (ok: bool)
      modifies this`failures
      ensures Counted(ok, false)
    {
      ok := *;
      failures := failures + if ok then 0 else 1;
    }
  }
}
