/** Tenants, traffic classes and the ordered list of demands a tick serves. */
module Demands {
  import opened FiniteSums
  import opened Topology
  import opened Cspf
  import opened Pricing

  datatype TrafficClass = TrafficClass(color: Color, index: int, objective: Objective)

  datatype Site = Site(attach: NodeId, classMbps: map<Color, real>)

  datatype Tenant = Tenant(id: TenantId, tierIndex: int, sites: seq<Site>)

  /** `Demand`, with the tenant and class it is ranked by. */
  datatype Wish = Wish(tenant: Tenant, class_: TrafficClass, from: NodeId, to: NodeId, fromMbps: real, toMbps: real)

  const DEFAULT_COLOR: Color := 0

  // ---------- Which demands there are ----------

  function Share(m: map<Color, real>, l: Color): real {
    if l in m then m[l] else 0.0
  }

  /** What the sites of a tenant at one PoP reserve together for a class. */
  function Mbps(sites: seq<Site>, pop: NodeId, l: Color): real {
    if sites == [] then 0.0
    else
      var last := sites[|sites| - 1];
      Mbps(sites[..|sites| - 1], pop, l) + (if last.attach == pop then Share(last.classMbps, l) else 0.0)
  }

  /** The sites of a list attached to one PoP, by place. */
  ghost function SitesAt(sites: seq<Site>, pop: NodeId): set<int> {
    set i | 0 <= i < |sites| && sites[i].attach == pop
  }

  ghost function Shares(sites: seq<Site>, l: Color): int -> real {
    i => if 0 <= i < |sites| then Share(sites[i].classMbps, l) else 0.0
  }

  /** It is the sum of the shares of all sites attached there. */
  lemma {:induction false} MbpsIsSum(sites: seq<Site>, pop: NodeId, l: Color)
    ensures Mbps(sites, pop, l) == Sum(SitesAt(sites, pop), Shares(sites, l))
    decreases |sites|
  {
    if sites == [] {
      assert SitesAt(sites, pop) == {};
    } else {
      var n := |sites| - 1;
      MbpsIsSum(sites[..n], pop, l);
      SumSame(SitesAt(sites[..n], pop), Shares(sites[..n], l), Shares(sites, l));
      if sites[n].attach == pop {
        assert SitesAt(sites, pop) == SitesAt(sites[..n], pop) + {n};
        SumAdd(SitesAt(sites[..n], pop), n, Shares(sites, l));
      } else {
        assert SitesAt(sites, pop) == SitesAt(sites[..n], pop);
      }
    }
  }

  type PopTable = map<NodeId, map<Color, real>>

  function Entry(table: PopTable, pop: NodeId, l: Color): real {
    if pop in table then Share(table[pop], l) else 0.0
  }

  /** The demand for an ordered pair of PoPs and a class, when both ends reserve something. */
  ghost predicate Wanted(tenants: seq<Tenant>, classes: map<Color, TrafficClass>, d: Wish) {
    && d.tenant in tenants
    && WantedOf(classes, d)
  }

  ghost predicate WantedOf(classes: map<Color, TrafficClass>, d: Wish) {
    && d.from != d.to
    && d.class_.color in classes && classes[d.class_.color] == d.class_
    && d.fromMbps == Mbps(d.tenant.sites, d.from, d.class_.color) > 0.0
    && d.toMbps == Mbps(d.tenant.sites, d.to, d.class_.color) > 0.0
  }

  /** The aggregation loop of `BuildDemands`. */
  method Aggregate(sites: seq<Site>) returns (table: PopTable)
    ensures forall pop, l: Color :: Entry(table, pop, l) == Mbps(sites, pop, l)
  {
    table := map[];
    var i := 0;
    while i < |sites|
      invariant 0 <= i <= |sites|
      invariant forall pop, l: Color :: Entry(table, pop, l) == Mbps(sites[..i], pop, l)
    {
      var site := sites[i];
      var shares := if site.attach in table then table[site.attach] else map[];
      var sum := map l | l in shares.Keys + site.classMbps.Keys :: Share(shares, l) + Share(site.classMbps, l);
      ghost var before := table;
      table := table[site.attach := sum];
      assert sites[..i + 1][..i] == sites[..i];
      forall pop, l: Color
        ensures Entry(table, pop, l) == Mbps(sites[..i + 1], pop, l)
      {
        assert Entry(before, pop, l) == Mbps(sites[..i], pop, l);
      }
      i := i + 1;
    }
    assert sites[..i] == sites;
  }

  ghost predicate ClassesFiled(classes: map<Color, TrafficClass>) {
    forall l :: l in classes ==> classes[l].color == l
  }

  /** The innermost loop: the classes of one ordered pair of PoPs, in any order. */
  method PairDemands(tenant: Tenant, classes: map<Color, TrafficClass>, table: PopTable, from: NodeId, to: NodeId)
    returns (out: seq<Wish>)
    requires ClassesFiled(classes) && from in table && from != to
    requires forall pop, l: Color :: Entry(table, pop, l) == Mbps(tenant.sites, pop, l)
    ensures forall d :: d in out <==> WantedOf(classes, d) && d.tenant == tenant && d.from == from && d.to == to
    ensures NoRepeats(out)
  {
    out := [];
    var todo := table[from].Keys;
    while todo != {}
      invariant todo <= table[from].Keys
      invariant forall d :: d in out <==>
        WantedOf(classes, d) && d.tenant == tenant && d.from == from && d.to == to &&
        d.class_.color in table[from] && d.class_.color !in todo
      invariant NoRepeats(out)
    {
      var l :| l in todo;
      todo := todo - {l};
      var fromMbps, toMbps := table[from][l], Entry(table, to, l);
      assert fromMbps == Entry(table, from, l);
      if fromMbps > 0.0 && toMbps > 0.0 && l in classes {
        var d := Wish(tenant, classes[l], from, to, fromMbps, toMbps);
        assert d !in out;
        out := out + [d];
      }
    }
    forall d | WantedOf(classes, d) && d.tenant == tenant && d.from == from && d.to == to
      ensures d in out
    {
      assert Entry(table, from, d.class_.color) > 0.0;
    }
  }

  /** The two loops over PoPs: every ordered pair of distinct PoPs of one tenant. */
  method TenantDemands(tenant: Tenant, classes: map<Color, TrafficClass>) returns (out: seq<Wish>)
    requires ClassesFiled(classes)
    ensures forall d :: d in out <==> WantedOf(classes, d) && d.tenant == tenant
    ensures NoRepeats(out)
  {
    var table := Aggregate(tenant.sites);
    out := [];
    var froms := table.Keys;
    while froms != {}
      invariant froms <= table.Keys
      invariant forall d :: d in out <==>
        WantedOf(classes, d) && d.tenant == tenant && d.from in table && d.from !in froms && d.to in table
      invariant NoRepeats(out)
    {
      var from :| from in froms;
      ghost var before := out;
      var tos := table.Keys;
      while tos != {}
        invariant tos <= table.Keys
        invariant forall d :: d in out <==>
          d in before || (WantedOf(classes, d) && d.tenant == tenant && d.from == from && d.to in table && d.to !in tos)
        invariant NoRepeats(out)
      {
        var to :| to in tos;
        tos := tos - {to};
        if from != to {
          var pair := PairDemands(tenant, classes, table, from, to);
          AppendNoRepeats(out, pair);
          out := out + pair;
        }
      }
      froms := froms - {from};
    }
    forall d | WantedOf(classes, d) && d.tenant == tenant
      ensures d in out
    {
      assert Entry(table, d.from, d.class_.color) > 0.0 && Entry(table, d.to, d.class_.color) > 0.0;
    }
  }

  lemma AppendNoRepeats(a: seq<Wish>, b: seq<Wish>)
    requires NoRepeats(a) && NoRepeats(b)
    requires forall d :: d in a ==> d !in b
    ensures NoRepeats(a + b)
  {
    forall i, j | 0 <= i < j < |a + b|
      ensures (a + b)[i] != (a + b)[j]
    {
      if i < |a| <= j {
        assert (a + b)[i] in a && (a + b)[j] in b;
      }
    }
  }

  // ---------- The order they are served in ----------

  /** Byte-wise string order. */
  predicate StringLess(a: string, b: string) {
    b != "" && (a == "" || a[0] < b[0] || (a[0] == b[0] && StringLess(a[1..], b[1..])))
  }

  function Bulk(d: Wish): int {
    if d.class_.color == DEFAULT_COLOR then 1 else 0
  }

  /** The comparator: named classes before bulk, better tier first, more important class first,
      then tenant, from and to. */
  predicate Before(a: Wish, b: Wish) {
    if Bulk(a) != Bulk(b) then Bulk(a) < Bulk(b)
    else if a.tenant.tierIndex != b.tenant.tierIndex then a.tenant.tierIndex > b.tenant.tierIndex
    else if a.class_.index != b.class_.index then a.class_.index > b.class_.index
    else if a.tenant.id != b.tenant.id then a.tenant.id < b.tenant.id
    else if a.from != b.from then StringLess(a.from, b.from)
    else StringLess(a.to, b.to)
  }

  /** Alike up to some place, and there `a` ends first or has the smaller character. */
  ghost predicate DiffersAt(a: string, b: string, n: nat) {
    n <= |a| && n < |b| && a[..n] == b[..n] && (n == |a| || a[n] < b[n])
  }

  lemma DiffersFirst(a: string, b: string, n: nat)
    requires DiffersAt(a, b, n)
    ensures n == 0 || (a != "" && b != "" && a[0] == b[0])
  {
    if n > 0 {
      assert a[..n][0] == a[0] && b[..n][0] == b[0];
    }
  }

  lemma {:induction false} StringLessIff(a: string, b: string)
    ensures StringLess(a, b) <==> exists n: nat :: DiffersAt(a, b, n)
    decreases |a|
  {
    if a == "" || b == "" || a[0] != b[0] {
      if StringLess(a, b) {
        assert DiffersAt(a, b, 0);
      }
      forall n: nat | DiffersAt(a, b, n)
        ensures StringLess(a, b)
      {
        DiffersFirst(a, b, n);
      }
    } else {
      StringLessIff(a[1..], b[1..]);
      forall n: nat | DiffersAt(a[1..], b[1..], n)
        ensures DiffersAt(a, b, n + 1)
      {
        assert a[..n + 1] == [a[0]] + a[1..][..n] && b[..n + 1] == [b[0]] + b[1..][..n];
      }
      forall n: nat | DiffersAt(a, b, n)
        ensures n > 0 && DiffersAt(a[1..], b[1..], n - 1)
      {
        assert n > 0;
        assert a[1..][..n - 1] == a[..n][1..] && b[1..][..n - 1] == b[..n][1..];
      }
    }
  }

  /** Who may be served first: a demand of a named class goes ahead of a bulk one; of the same kind, one
      of a tenant with the higher tier; then one of a more important class; then by tenant, from, to. */
  ghost predicate MayPrecede(a: Wish, b: Wish) {
    && (a.class_.color == 0 ==> b.class_.color == 0)
    && ((a.class_.color == 0 <==> b.class_.color == 0) ==> a.tenant.tierIndex >= b.tenant.tierIndex)
    && (Alike(a, b) ==> a.class_.index >= b.class_.index)
    && (Alike(a, b) && a.class_.index == b.class_.index ==> InPlaceOrder(a, b))
  }

  ghost predicate Alike(a: Wish, b: Wish) {
    (a.class_.color == 0 <==> b.class_.color == 0) && a.tenant.tierIndex == b.tenant.tierIndex
  }

  /** By tenant, then by where the demand starts, then by where it ends. */
  ghost predicate InPlaceOrder(a: Wish, b: Wish) {
    && a.tenant.id <= b.tenant.id
    && (a.tenant.id == b.tenant.id ==> NotAfter(a.from, b.from))
    && (a.tenant.id == b.tenant.id && a.from == b.from ==> NotAfter(a.to, b.to))
  }

  ghost predicate NotAfter(a: string, b: string) {
    a == b || exists n: nat :: DiffersAt(a, b, n)
  }

  lemma NotBeforeMayPrecede(a: Wish, b: Wish)
    requires !Before(b, a)
    ensures MayPrecede(a, b)
  {
    StringTotal(a.from, b.from);
    StringTotal(a.to, b.to);
    StringLessIff(a.from, b.from);
    StringLessIff(a.to, b.to);
  }

  lemma {:induction false} StringTotal(a: string, b: string)
    ensures a != b ==> StringLess(a, b) != StringLess(b, a)
    ensures !StringLess(a, a)
    decreases |a|
  {
    if a != "" {
      StringTotal(a[1..], a[1..]);
      if b != "" {
        StringTotal(a[1..], b[1..]);
        assert a == [a[0]] + a[1..] && b == [b[0]] + b[1..];
      }
    }
  }

  lemma {:induction false} StringTransitive(a: string, b: string, c: string)
    requires StringLess(a, b) && StringLess(b, c)
    ensures StringLess(a, c)
    decreases |a|
  {
    if a != "" && a[0] == b[0] && b[0] == c[0] {
      StringTransitive(a[1..], b[1..], c[1..]);
    }
  }

  lemma BeforeTransitive(a: Wish, b: Wish, c: Wish)
    requires Before(a, b) && Before(b, c)
    ensures Before(a, c)
  {
    if StringLess(a.from, b.from) && StringLess(b.from, c.from) {
      StringTransitive(a.from, b.from, c.from);
      StringTotal(a.from, c.from);
    }
    if StringLess(a.to, b.to) && StringLess(b.to, c.to) {
      StringTransitive(a.to, b.to, c.to);
    }
  }

  lemma BeforeIrreflexive(a: Wish)
    ensures !Before(a, a)
  {
    StringTotal(a.to, a.to);
  }

  ghost predicate Sorted(ds: seq<Wish>) {
    forall i, j :: 0 <= i < j < |ds| ==> !Before(ds[j], ds[i])
  }

  lemma NotBeforeTransitive(a: Wish, b: Wish, c: Wish)
    requires !Before(b, a) && !Before(c, b)
    ensures !Before(c, a)
  {
    StringTotal(a.from, b.from);
    StringTotal(b.from, c.from);
    StringTotal(a.from, c.from);
    StringTotal(a.to, b.to);
    StringTotal(b.to, c.to);
    StringTotal(a.to, c.to);
    if Before(c, a) {
      if Before(a, b) {
        BeforeTransitive(c, a, b);
      } else if Before(b, c) {
        BeforeTransitive(b, c, a);
      }
    }
  }

  lemma SpliceSorted(ds: seq<Wish>, n: nat, d: Wish)
    requires Sorted(ds) && n <= |ds|
    requires forall i :: 0 <= i < n ==> !Before(d, ds[i])
    requires forall i :: n <= i < |ds| ==> !Before(ds[i], d)
    ensures Sorted(ds[..n] + [d] + ds[n..])
  {
  }

  /** Where `d` belongs in a sorted list. */
  method Position(ds: seq<Wish>, d: Wish) returns (n: nat)
    requires Sorted(ds)
    ensures n <= |ds|
    ensures forall i :: 0 <= i < n ==> !Before(d, ds[i])
    ensures forall i :: n <= i < |ds| ==> !Before(ds[i], d)
  {
    n := |ds|;
    while n > 0 && Before(d, ds[n - 1])
      invariant n <= |ds|
      invariant forall i :: n <= i < |ds| ==> Before(d, ds[i])
    {
      n := n - 1;
    }
    forall i | n <= i < |ds|
      ensures !Before(ds[i], d)
    {
      BeforeIrreflexive(d);
      if Before(ds[i], d) {
        BeforeTransitive(d, ds[i], d);
      }
    }
    forall i | 0 <= i < n
      ensures !Before(d, ds[i])
    {
      if i < n - 1 {
        NotBeforeTransitive(ds[i], ds[n - 1], d);
      }
    }
  }

  /** Stands for `slices.SortFunc`: some sorted arrangement of the same elements. */
  method SortDemands(ds: seq<Wish>) returns (out: seq<Wish>)
    ensures Sorted(out) && multiset(out) == multiset(ds)
  {
    out := [];
    var i := 0;
    while i < |ds|
      invariant 0 <= i <= |ds|
      invariant Sorted(out) && multiset(out) == multiset(ds[..i])
    {
      var n := Position(out, ds[i]);
      SpliceSorted(out, n, ds[i]);
      assert out == out[..n] + out[n..];
      assert ds[..i + 1] == ds[..i] + [ds[i]];
      out := out[..n] + [ds[i]] + out[n..];
      i := i + 1;
    }
    assert ds[..i] == ds;
  }

  lemma SameMultiset(a: seq<Wish>, b: seq<Wish>)
    requires multiset(a) == multiset(b)
    ensures forall d :: d in a <==> d in b
    ensures NoRepeats(a) ==> NoRepeats(b)
  {
    forall d
      ensures d in a <==> d in b
    {
      assert d in multiset(a) <==> d in multiset(b);
    }
    if NoRepeats(a) && !NoRepeats(b) {
      var i, j :| 0 <= i < j < |b| && b[i] == b[j];
      TwiceCounts(b, i, j);
      OnceCounts(a, b[i]);
    }
  }

  lemma TwiceCounts(s: seq<Wish>, i: nat, j: nat)
    requires i < j < |s| && s[i] == s[j]
    ensures multiset(s)[s[i]] >= 2
  {
    assert s == s[..i + 1] + s[i + 1..];
    assert s[i] in multiset(s[..i + 1]) && s[j] in multiset(s[i + 1..]);
  }

  lemma {:induction false} OnceCounts(s: seq<Wish>, d: Wish)
    requires NoRepeats(s)
    ensures multiset(s)[d] <= 1
    decreases |s|
  {
    if s != [] {
      var n := |s| - 1;
      assert s == s[..n] + [s[n]];
      OnceCounts(s[..n], d);
      if s[n] == d {
        assert d !in s[..n];
        assert d !in multiset(s[..n]);
      }
    }
  }

  ghost predicate DistinctTenants(tenants: seq<Tenant>) {
    forall i, j :: 0 <= i < j < |tenants| ==> tenants[i].id != tenants[j].id
  }

  lemma SortedServesInOrder(out: seq<Wish>)
    requires Sorted(out)
    ensures forall i, j :: 0 <= i < j < |out| ==> MayPrecede(out[i], out[j])
  {
    forall i, j | 0 <= i < j < |out|
      ensures MayPrecede(out[i], out[j])
    {
      NotBeforeMayPrecede(out[i], out[j]);
    }
  }

  /** `BuildDemands`: exactly the wanted demands, each once, in the order they may be served. */
  method BuildDemands(tenants: seq<Tenant>, classes: map<Color, TrafficClass>) returns (out: seq<Wish>)
    requires ClassesFiled(classes) && DistinctTenants(tenants)
    ensures forall d :: d in out <==> Wanted(tenants, classes, d)
    ensures NoRepeats(out) && Sorted(out)
    ensures forall i, j :: 0 <= i < j < |out| ==> MayPrecede(out[i], out[j])
  {
    var all: seq<Wish> := [];
    var i := 0;
    while i < |tenants|
      invariant 0 <= i <= |tenants|
      invariant forall d :: d in all <==> Wanted(tenants[..i], classes, d)
      invariant NoRepeats(all)
    {
      var more := TenantDemands(tenants[i], classes);
      assert tenants[i] !in tenants[..i];
      AppendNoRepeats(all, more);
      assert tenants[..i + 1] == tenants[..i] + [tenants[i]];
      all := all + more;
      i := i + 1;
    }
    assert tenants[..i] == tenants;
    out := SortDemands(all);
    SameMultiset(all, out);
    SortedServesInOrder(out);
  }

  // ---------- The order is determined ----------

  /** What `parseTrafficClasses` guarantees: the default class has index 0, named classes have
      indexes of their own from 1 up. */
  ghost predicate RankedClasses(classes: map<Color, TrafficClass>) {
    && ClassesFiled(classes)
    && (forall l :: l in classes ==> (classes[l].index >= 1 <==> l != DEFAULT_COLOR))
    && (forall a, b :: a in classes && b in classes && classes[a].index == classes[b].index ==> a == b)
  }

  /** The comparator never ties two different demands. */
  lemma NoTies(tenants: seq<Tenant>, classes: map<Color, TrafficClass>, a: Wish, b: Wish)
    requires RankedClasses(classes) && DistinctTenants(tenants)
    requires Wanted(tenants, classes, a) && Wanted(tenants, classes, b) && a != b
    ensures Before(a, b) != Before(b, a)
  {
    StringTotal(a.from, b.from);
    StringTotal(a.to, b.to);
    if a.tenant.id == b.tenant.id {
      var i :| 0 <= i < |tenants| && tenants[i] == a.tenant;
      var j :| 0 <= j < |tenants| && tenants[j] == b.tenant;
      assert i == j;
    }
  }

  lemma HeadIsFirst(tenants: seq<Tenant>, classes: map<Color, TrafficClass>, a: seq<Wish>, d: Wish)
    requires RankedClasses(classes) && DistinctTenants(tenants)
    requires forall x :: x in a ==> Wanted(tenants, classes, x)
    requires Sorted(a) && d in a && d != a[0]
    ensures Before(a[0], d)
  {
    var i :| 0 <= i < |a| && a[i] == d;
    NoTies(tenants, classes, a[0], d);
  }

  lemma TailMembers(a: seq<Wish>)
    requires a != [] && NoRepeats(a)
    ensures forall d :: d in a[1..] <==> d in a && d != a[0]
  {
    assert a == [a[0]] + a[1..];
  }

  lemma HasMember(a: seq<Wish>)
    ensures a == [] || exists d :: d in a
  {
    if a != [] {
      assert a[0] in a;
    }
  }

  /** Whatever order the maps are iterated in and however ties would be broken, the list of
      demands is the same. */
  lemma {:induction false} OrderIsDetermined(tenants: seq<Tenant>, classes: map<Color, TrafficClass>, a: seq<Wish>, b: seq<Wish>)
    requires RankedClasses(classes) && DistinctTenants(tenants)
    requires forall d :: d in a ==> Wanted(tenants, classes, d)
    requires forall d :: d in a <==> d in b
    requires NoRepeats(a) && Sorted(a) && NoRepeats(b) && Sorted(b)
    ensures a == b
    decreases |a|
  {
    HasMember(b);
    if a != [] {
      assert a[0] in b;
      assert a[0] == b[0] by {
        if a[0] != b[0] {
          assert b[0] in a;
          HeadIsFirst(tenants, classes, a, b[0]);
          HeadIsFirst(tenants, classes, b, a[0]);
          NoTies(tenants, classes, a[0], b[0]);
        }
      }
      TailMembers(a);
      TailMembers(b);
      OrderIsDetermined(tenants, classes, a[1..], b[1..]);
      assert a == [a[0]] + a[1..] && b == [b[0]] + b[1..];
    }
  }
}
