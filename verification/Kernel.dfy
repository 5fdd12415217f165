/** The part of the node's kernel that the reconciler owns, and what each dataplane call does to it. */
module Kernel {
  import opened Topology

  /** IPv6 prefixes and addresses by their canonical text, which is never empty. */
  type Prefix = string
  type Addr = s: string | s != "" witness "::"

  const DEFAULT_PREFIX: Prefix := "::/0"
  const LOOPBACK := "lo"
  const SEGMENT_DEVICE := "sr0"
  const MAIN_TABLE := 254

  /** Links are addressed by name or by kernel index. An xfrm interface may have a vrf as master. */
  datatype Link =
    | Vrf(index: nat, table: int)
    | Xfrm(index: nat, ifId: int, master: Option<string>)

  /** The unreachable catch-all of a vrf table carries a metric of its own. */
  datatype Metric = Normal | CatchAll

  datatype RouteKey = RouteKey(table: int, dst: Prefix, metric: Metric)

  datatype Rule = Rule(priority: int, src: Option<Prefix>, table: int, mark: int, iif: string)

  /** A local segment: its behaviour, the table it decapsulates into and the vrf device it hangs on. */
  datatype Sid = Sid(kind: string, table: int, dev: string)

  datatype SrKey = SrKey(table: int, prefix: Prefix)

  /** Maps per kind of owned object; `foreign` are the names of links maeto does not own. */
  datatype Kernel = Kernel(
    links: map<string, Link>,
    foreign: set<string>,
    routes: map<RouteKey, string>,
    sids: map<Addr, Sid>,
    srRoutes: map<SrKey, seq<Addr>>,
    rules: set<Rule>,
    marks: map<int, int>,
    nextIndex: nat)

  // ---------- Resources ----------

  datatype Kind = KVrf | KXfrm | KRoute | KSid | KSrRoute | KRule | KMark

  datatype Resource =
    | VrfR(name: string, table: int, index: nat)
    | XfrmR(name: string, ifId: int, parent: string, master: Option<string>, index: nat)
    | RouteR(table: int, dst: Prefix, dev: string)
    | SidR(kind: string, sid: Addr, table: int)
    | SrRouteR(table: int, prefix: Prefix, segments: seq<Addr>)
    | RuleR(rule: Rule)
    | MarkR(dscp: int, mark: int)

  /** Resource identifiers. The fields are those the source joins into a string key: a route's
      includes the device, a rule's omits the interface, a segment list enters as joined text. */
  datatype Id =
    | VrfId(name: string)
    | XfrmId(name: string, ifId: int)
    | RouteId(table: int, dst: Prefix, dev: string)
    | SidId(kind: string, sid: Addr)
    | SrId(table: int, prefix: Prefix, text: string)
    | RuleId(priority: int, src: Option<Prefix>, table: int, mark: int)
    | MarkId(dscp: int, mark: int)

  function Joined(segments: seq<Addr>): string {
    if segments == [] then "" else segments[0] + Joined(segments[1..])
  }

  lemma JoinedEmpty(segments: seq<Addr>)
    ensures Joined(segments) == "" <==> segments == []
  {
  }

  function RuleIdOf(r: Rule): Id {
    RuleId(r.priority, r.src, r.table, r.mark)
  }

  function IdOf(r: Resource): Id {
    match r
    case VrfR(name, _, _) => VrfId(name)
    case XfrmR(name, ifId, _, _, _) => XfrmId(name, ifId)
    case RouteR(table, dst, dev) => RouteId(table, dst, dev)
    case SidR(kind, sid, _) => SidId(kind, sid)
    case SrRouteR(table, prefix, segments) => SrId(table, prefix, Joined(segments))
    case RuleR(rule) => RuleIdOf(rule)
    case MarkR(dscp, mark) => MarkId(dscp, mark)
  }

  function KindOf(r: Resource): Kind {
    match r
    case VrfR(_, _, _) => KVrf
    case XfrmR(_, _, _, _, _) => KXfrm
    case RouteR(_, _, _) => KRoute
    case SidR(_, _, _) => KSid
    case SrRouteR(_, _, _) => KSrRoute
    case RuleR(_) => KRule
    case MarkR(_, _) => KMark
  }

  // ---------- What the kernel holds ----------

  /** Everything owned, as the dataplane getters list it. The parent of an xfrm link is not kept. */
  function Objects(k: Kernel): set<Resource> {
    (set n | n in k.links && k.links[n].Vrf? :: VrfR(n, k.links[n].table, k.links[n].index)) +
    (set n | n in k.links && k.links[n].Xfrm? :: XfrmR(n, k.links[n].ifId, LOOPBACK, k.links[n].master, k.links[n].index)) +
    (set r | r in k.routes :: RouteR(r.table, r.dst, k.routes[r])) +
    (set a | a in k.sids :: SidR(k.sids[a].kind, a, k.sids[a].table)) +
    (set s | s in k.srRoutes :: SrRouteR(s.table, s.prefix, k.srRoutes[s])) +
    (set r | r in k.rules :: RuleR(r)) +
    (set d | d in k.marks :: MarkR(d, k.marks[d]))
  }

  ghost predicate HasId(k: Kernel, id: Id) {
    match id
    case VrfId(n) => n in k.links && k.links[n].Vrf?
    case XfrmId(n, i) => n in k.links && k.links[n].Xfrm? && k.links[n].ifId == i
    case RouteId(t, d, dev) =>
      || (RouteKey(t, d, Normal) in k.routes && k.routes[RouteKey(t, d, Normal)] == dev)
      || (RouteKey(t, d, CatchAll) in k.routes && k.routes[RouteKey(t, d, CatchAll)] == dev)
    case SidId(kind, a) => a in k.sids && k.sids[a].kind == kind
    case SrId(t, p, text) => SrKey(t, p) in k.srRoutes && Joined(k.srRoutes[SrKey(t, p)]) == text
    case RuleId(_, _, _, _) => exists r :: r in k.rules && RuleIdOf(r) == id
    case MarkId(d, m) => d in k.marks && k.marks[d] == m
  }

  /** Membership in `Objects`, kind by kind. */
  ghost predicate IsObject(k: Kernel, r: Resource) {
    match r
    case VrfR(n, t, i) => n in k.links && k.links[n] == Vrf(i, t)
    case XfrmR(n, ifId, parent, master, i) => n in k.links && k.links[n] == Xfrm(i, ifId, master) && parent == LOOPBACK
    case RouteR(t, d, dev) => HasId(k, RouteId(t, d, dev))
    case SidR(kind, a, t) => a in k.sids && k.sids[a].kind == kind && k.sids[a].table == t
    case SrRouteR(t, p, segments) => SrKey(t, p) in k.srRoutes && k.srRoutes[SrKey(t, p)] == segments
    case RuleR(rule) => rule in k.rules
    case MarkR(d, mark) => d in k.marks && k.marks[d] == mark
  }

  lemma ObjectsAre(k: Kernel, r: Resource)
    ensures r in Objects(k) <==> IsObject(k, r)
  {
    match r
    case VrfR(n, t, i) =>
    case XfrmR(n, ifId, parent, master, i) =>
    case RouteR(t, d, dev) =>
      if IsObject(k, r) {
        if RouteKey(t, d, Normal) in k.routes && k.routes[RouteKey(t, d, Normal)] == dev {
          assert RouteR(t, d, k.routes[RouteKey(t, d, Normal)]) in Objects(k);
        } else {
          assert RouteR(t, d, k.routes[RouteKey(t, d, CatchAll)]) in Objects(k);
        }
      }
      if r in Objects(k) {
        var key :| key in k.routes && r == RouteR(key.table, key.dst, k.routes[key]);
        match key.metric
        case Normal => assert key == RouteKey(t, d, Normal);
        case CatchAll => assert key == RouteKey(t, d, CatchAll);
      }
    case SidR(kind, a, t) =>
    case SrRouteR(t, p, segments) =>
      if IsObject(k, r) {
        assert SrRouteR(t, p, k.srRoutes[SrKey(t, p)]) in Objects(k);
      }
    case RuleR(rule) =>
    case MarkR(d, mark) =>
  }

  lemma ObjectsHaveIds(k: Kernel, r: Resource)
    requires IsObject(k, r)
    ensures HasId(k, IdOf(r))
  {
  }

  lemma IdsHaveObjects(k: Kernel, id: Id) returns (r: Resource)
    requires HasId(k, id)
    ensures IsObject(k, r) && IdOf(r) == id
  {
    match id
    case VrfId(n) => r := VrfR(n, k.links[n].table, k.links[n].index);
    case XfrmId(n, i) => r := XfrmR(n, i, LOOPBACK, k.links[n].master, k.links[n].index);
    case RouteId(t, d, dev) => r := RouteR(t, d, dev);
    case SidId(kind, a) => r := SidR(kind, a, k.sids[a].table);
    case SrId(t, p, text) => r := SrRouteR(t, p, k.srRoutes[SrKey(t, p)]);
    case RuleId(_, _, _, _) =>
      var x :| x in k.rules && RuleIdOf(x) == id;
      r := RuleR(x);
    case MarkId(d, m) => r := MarkR(d, m);
  }

  predicate OwnsTable(k: Kernel, name: string, table: int) {
    name in k.links && k.links[name].Vrf? && k.links[name].table == table
  }

  /** What maeto's own calls keep true: catch-alls sit on the loopback and only there, indexes are
      unique, a table belongs to one vrf (strict mode), no two rules share an identifier, and every
      segment route has segments. */
  ghost predicate Owned(k: Kernel) {
    && (forall r :: r in k.routes ==> (r.metric.CatchAll? <==> k.routes[r] == LOOPBACK))
    && (forall r :: r in k.routes && r.metric.CatchAll? ==> r.dst == DEFAULT_PREFIX)
    && (forall a, b :: a in k.links && b in k.links && k.links[a].index == k.links[b].index ==> a == b)
    && (forall a :: a in k.links ==> k.links[a].index < k.nextIndex)
    && (forall a, b, t :: OwnsTable(k, a, t) && OwnsTable(k, b, t) ==> a == b)
    && (forall a, b :: a in k.rules && b in k.rules && RuleIdOf(a) == RuleIdOf(b) ==> a == b)
    && (forall s :: s in k.srRoutes ==> k.srRoutes[s] != [])
    && k.links.Keys !! k.foreign && LOOPBACK in k.foreign
  }

  // ---------- Effects of successful calls ----------

  /** Deleting a link drops what runs over it and frees what it was master of. */
  function WithoutLink(k: Kernel, name: string): Kernel {
    k.(links := map n | n in k.links && n != name ::
                  (if k.links[n].Xfrm? && k.links[n].master == Some(name) then k.links[n].(master := None) else k.links[n]),
       routes := map r | r in k.routes && k.routes[r] != name :: k.routes[r],
       sids := map a | a in k.sids && k.sids[a].dev != name :: k.sids[a])
  }

  /** Without a metric in the request the kernel deletes the matching route of lowest metric. */
  function WithoutRoute(k: Kernel, table: int, dst: Prefix): Kernel {
    if RouteKey(table, dst, Normal) in k.routes then k.(routes := k.routes - {RouteKey(table, dst, Normal)})
    else k.(routes := k.routes - {RouteKey(table, dst, CatchAll)})
  }

  /** `UpsertVRF` always installs the catch-all, and creates the device if it is missing. */
  function WithVrf(k: Kernel, name: string, table: int): Kernel {
    var k1 := if name in k.links then k
              else k.(links := k.links[name := Vrf(k.nextIndex, table)], nextIndex := k.nextIndex + 1);
    k1.(routes := k1.routes[RouteKey(table, DEFAULT_PREFIX, CatchAll) := LOOPBACK])
  }

  function WithXfrm(k: Kernel, name: string, ifId: int, master: Option<string>): Kernel {
    k.(links := k.links[name := Xfrm(k.nextIndex, ifId, master)], nextIndex := k.nextIndex + 1)
  }

  function WithRoute(k: Kernel, table: int, dst: Prefix, dev: string): Kernel {
    k.(routes := k.routes[RouteKey(table, dst, Normal) := dev])
  }

  ghost function LinkAt(k: Kernel, index: nat): Option<string> {
    if exists n :: n in k.links && k.links[n].index == index
    then Some(var n :| n in k.links && k.links[n].index == index; n)
    else None
  }

  ghost function OwnerOf(k: Kernel, table: int): Option<string> {
    if exists n :: OwnsTable(k, n, table) then Some(var n :| OwnsTable(k, n, table); n) else None
  }

  /** What the removal call for a resource does when it succeeds. */
  ghost function RemoveEffect(k: Kernel, r: Resource): Kernel {
    match r
    case VrfR(_, _, index) =>
      (match LinkAt(k, index)
       case None => k
       case Some(n) =>
         if k.links[n].Xfrm? then k
         else WithoutLink(k.(routes := k.routes - {RouteKey(k.links[n].table, DEFAULT_PREFIX, CatchAll)}), n))
    case XfrmR(_, _, _, _, index) =>
      (match LinkAt(k, index) case None => k case Some(n) => if k.links[n].Vrf? then k else WithoutLink(k, n))
    case RouteR(table, dst, _) => WithoutRoute(k, table, dst)
    case SidR(_, sid, _) => k.(sids := k.sids - {sid})
    case SrRouteR(table, prefix, _) => k.(srRoutes := k.srRoutes - {SrKey(table, prefix)})
    case RuleR(rule) => k.(rules := k.rules - {rule})
    case MarkR(dscp, _) => k.(marks := k.marks - {dscp})
  }

  /** When the removal call for a resource is refused. A segment already gone is an error; anything
      else already gone is not. */
  ghost predicate Removable(k: Kernel, r: Resource) {
    match r
    case VrfR(_, _, index) => LinkAt(k, index).Some? ==> k.links[LinkAt(k, index).value].Vrf?
    case XfrmR(_, _, _, _, index) => LinkAt(k, index).Some? ==> k.links[LinkAt(k, index).value].Xfrm?
    case SidR(_, sid, _) => sid in k.sids
    case _ => true
  }

  /** What the insertion call for a resource does when it succeeds. */
  ghost function AddEffect(k: Kernel, r: Resource): Kernel {
    match r
    case VrfR(name, table, _) => WithVrf(k, name, table)
    case XfrmR(name, ifId, _, master, _) => WithXfrm(k, name, ifId, master)
    case RouteR(table, dst, dev) => WithRoute(k, table, dst, dev)
    case SidR(_, sid, table) =>
      (match OwnerOf(k, table) case None => k case Some(v) => k.(sids := k.sids[sid := Sid("dt46", table, v)]))
    case SrRouteR(table, prefix, segments) => k.(srRoutes := k.srRoutes[SrKey(table, prefix) := segments])
    case RuleR(rule) => k.(rules := k.rules + {rule})
    case MarkR(dscp, mark) => k.(marks := k.marks[dscp := mark])
  }

  predicate LinkExists(k: Kernel, name: string) {
    name in k.links || name in k.foreign
  }

  /** When the insertion call for a resource is accepted: names are free or taken by the same kind,
      and whatever the resource refers to is there. */
  ghost predicate Addable(k: Kernel, r: Resource) {
    match r
    case VrfR(name, table, _) =>
      && name !in k.foreign
      && (name in k.links ==> OwnsTable(k, name, table))
      && (forall n :: OwnsTable(k, n, table) ==> n == name)
    case XfrmR(name, _, parent, master, _) =>
      && !LinkExists(k, name) && LinkExists(k, parent)
      && (master.Some? ==> master.value in k.links && k.links[master.value].Vrf?)
    case RouteR(table, _, dev) =>
      && LinkExists(k, dev)
      && (table != MAIN_TABLE && table != 0 && OwnerOf(k, table).Some? ==>
            dev in k.links && k.links[dev].Xfrm? && k.links[dev].master == OwnerOf(k, table))
    case SidR(_, _, table) => OwnerOf(k, table).Some?
    case SrRouteR(_, _, segments) => segments != [] && LinkExists(k, SEGMENT_DEVICE)
    case RuleR(_) => true
    case MarkR(dscp, mark) => dscp in k.marks ==> k.marks[dscp] == mark
  }

  lemma UniqueLinkAt(k: Kernel, n: string)
    requires Owned(k) && n in k.links
    ensures LinkAt(k, k.links[n].index) == Some(n)
  {
  }

  lemma UniqueOwner(k: Kernel, n: string, table: int)
    requires Owned(k) && OwnsTable(k, n, table)
    ensures OwnerOf(k, table) == Some(n)
  {
  }
}
