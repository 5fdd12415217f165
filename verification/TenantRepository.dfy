/** Parsing traffic classes and a site's class shares, and the contract they amount to. */
module TenantRepository {
  import opened FiniteSums
  import opened Topology
  import opened Hose
  import opened Cspf
  import opened Pricing
  import opened Pce
  import opened Demands

  datatype RawClass = RawClass(name: string, color: Color, index: int, dscp: seq<int>, objective: Objective)

  datatype ClassError = NoName | NameTaken | LabelTaken | BadIndex | IndexTaken | NoObjective | BadObjective | BadMatch

  datatype Parsed<+T> = Accepted(value: T) | Rejected(error: ClassError)

  const DEFAULT_NAME := "default"
  const DSCP_MAX := 63

  /** Only measured dimensions may be weighed, and only positively. */
  predicate GoodObjective(o: Objective) {
    forall d :: d in o ==> d in {Latency, Jitter, Loss} && o[d] > 0.0
  }

  ghost predicate GoodMatch(dscp: seq<int>) {
    dscp != [] && NoRepeats(dscp) && forall v :: v in dscp ==> 1 <= v <= DSCP_MAX
  }

  ghost predicate GoodClass(c: RawClass) {
    && c.name != "" && c.name != DEFAULT_NAME && c.color != DEFAULT_COLOR && c.index >= 1
    && c.objective != map[] && GoodObjective(c.objective) && GoodMatch(c.dscp)
  }

  ghost predicate Apart(a: RawClass, b: RawClass) {
    a.name != b.name && a.color != b.color && a.index != b.index && forall v :: v in a.dscp ==> v !in b.dscp
  }

  ghost predicate Acceptable(raw: seq<RawClass>) {
    && (forall i :: 0 <= i < |raw| ==> GoodClass(raw[i]))
    && (forall i, j :: 0 <= i < j < |raw| ==> Apart(raw[i], raw[j]))
  }

  function ClassOf(c: RawClass): TrafficClass {
    TrafficClass(c.color, c.index, c.objective)
  }

  /** `parseClassMatch`: codepoints in range, not the unmarked one, and not matched before. */
  method ParseClassMatch(dscp: seq<int>, taken: set<int>) returns (ok: bool, taken': set<int>)
    ensures ok <==> GoodMatch(dscp) && forall v :: v in dscp ==> v !in taken
    ensures ok ==> taken' == taken + set v | v in dscp
  {
    taken' := taken;
    if dscp == [] {
      return false, taken';
    }
    var i := 0;
    while i < |dscp|
      invariant 0 <= i <= |dscp|
      invariant NoRepeats(dscp[..i]) && forall v :: v in dscp[..i] ==> 1 <= v <= DSCP_MAX && v !in taken
      invariant taken' == taken + set v | v in dscp[..i]
    {
      var value := dscp[i];
      if value < 0 || value > DSCP_MAX || value == 0 || value in taken' {
        assert value in dscp;
        return false, taken';
      }
      assert dscp[..i + 1] == dscp[..i] + [value];
      taken' := taken' + {value};
      i := i + 1;
    }
    assert dscp[..i] == dscp;
    ok := true;
  }

  /** What has been read so far. */
  datatype Reading = Reading(byLabel: map<Color, TrafficClass>, byName: map<string, Color>, indexes: set<int>, dscps: set<int>)

  ghost function RawColors(raw: seq<RawClass>): set<Color> {
    set c | c in raw :: c.color
  }

  ghost function RawNames(raw: seq<RawClass>): set<string> {
    set c | c in raw :: c.name
  }

  ghost function RawIndexes(raw: seq<RawClass>): set<int> {
    set c | c in raw :: c.index
  }

  ghost function RawDscps(raw: seq<RawClass>): set<int> {
    set c, v | c in raw && v in c.dscp :: v
  }

  /** The classes a tenant may use, by label and by name. */
  datatype Classes = Classes(byLabel: map<Color, TrafficClass>, byName: map<string, Color>)

  ghost predicate ClassesOf(raw: seq<RawClass>, r: Classes) {
    && r.byLabel.Keys == RawColors(raw) + {DEFAULT_COLOR}
    && r.byName.Keys == RawNames(raw) + {DEFAULT_NAME}
    && (forall c :: c in raw ==> r.byLabel[c.color] == ClassOf(c) && r.byName[c.name] == c.color)
    && r.byLabel[DEFAULT_COLOR] == TrafficClass(DEFAULT_COLOR, 0, map[]) && r.byName[DEFAULT_NAME] == DEFAULT_COLOR
  }

  ghost predicate ReadSoFar(raw: seq<RawClass>, s: Reading) {
    && Acceptable(raw) && ClassesOf(raw, Classes(s.byLabel, s.byName))
    && s.indexes == RawIndexes(raw) && s.dscps == RawDscps(raw)
  }

  lemma OneMore(raw: seq<RawClass>, c: RawClass)
    ensures RawColors(raw + [c]) == RawColors(raw) + {c.color}
    ensures RawNames(raw + [c]) == RawNames(raw) + {c.name}
    ensures RawIndexes(raw + [c]) == RawIndexes(raw) + {c.index}
    ensures RawDscps(raw + [c]) == RawDscps(raw) + set v | v in c.dscp
  {
    assert forall x :: x in raw + [c] <==> x in raw || x == c;
    forall v
      ensures v in RawDscps(raw + [c]) <==> v in RawDscps(raw) || v in c.dscp
    {
      if v in RawDscps(raw) {
        var x :| x in raw && v in x.dscp;
        assert x in raw + [c];
      }
      if v in c.dscp {
        assert c in raw + [c];
      }
    }
  }

  function Read(s: Reading, c: RawClass, dscps: set<int>): Reading {
    Reading(s.byLabel[c.color := ClassOf(c)], s.byName[c.name := c.color], s.indexes + {c.index}, dscps)
  }

  /** The checks on one class, in order. */
  method CheckClass(s: Reading, c: RawClass, ghost raw: seq<RawClass>) returns (r: Parsed<Reading>)
    requires ReadSoFar(raw, s)
    ensures r.Accepted? <==> Acceptable(raw + [c])
    ensures r.Accepted? ==> ReadSoFar(raw + [c], r.value)
  {
    OneMore(raw, c);
    Extends(raw, c);
    if c.name == "" {
      return Rejected(NoName);
    }
    if c.name in s.byName {
      return Rejected(NameTaken);
    }
    if c.color in s.byLabel {
      return Rejected(LabelTaken);
    }
    if c.index < 1 {
      return Rejected(BadIndex);
    }
    if c.index in s.indexes {
      return Rejected(IndexTaken);
    }
    if c.objective == map[] {
      return Rejected(NoObjective);
    }
    if !GoodObjective(c.objective) {
      return Rejected(BadObjective);
    }
    var ok, dscps := ParseClassMatch(c.dscp, s.dscps);
    if !ok {
      return Rejected(BadMatch);
    }
    ReadOne(raw, s, c, dscps);
    r := Accepted(Read(s, c, dscps));
  }

  /** A class can be appended when it is good by itself and none of its keys is taken. */
  lemma Extends(raw: seq<RawClass>, c: RawClass)
    requires Acceptable(raw)
    ensures Acceptable(raw + [c]) <==>
            && GoodClass(c)
            && c.name !in RawNames(raw) && c.color !in RawColors(raw) && c.index !in RawIndexes(raw)
            && forall v :: v in c.dscp ==> v !in RawDscps(raw)
  {
    var raw' := raw + [c];
    assert raw'[|raw|] == c && forall i :: 0 <= i < |raw| ==> raw'[i] == raw[i];
    if Acceptable(raw') {
      assert GoodClass(raw'[|raw|]);
      forall x | x in raw
        ensures Apart(x, c)
      {
        var i :| 0 <= i < |raw| && raw[i] == x;
        assert Apart(raw'[i], raw'[|raw|]);
      }
    }
    if c.name !in RawNames(raw) && c.color !in RawColors(raw) && c.index !in RawIndexes(raw) && forall v :: v in c.dscp ==> v !in RawDscps(raw) {
      forall i | 0 <= i < |raw|
        ensures Apart(raw'[i], c)
      {
        assert raw[i] in raw;
      }
    }
  }

  lemma ReadOne(raw: seq<RawClass>, s: Reading, c: RawClass, dscps: set<int>)
    requires ReadSoFar(raw, s) && Acceptable(raw + [c])
    requires c.color !in s.byLabel && c.name !in s.byName
    requires dscps == s.dscps + set v | v in c.dscp
    ensures ReadSoFar(raw + [c], Read(s, c, dscps))
  {
    OneMore(raw, c);
    NamedOne(raw, s, c, dscps);
  }

  lemma NamedOne(raw: seq<RawClass>, s: Reading, c: RawClass, dscps: set<int>)
    requires ClassesOf(raw, Classes(s.byLabel, s.byName)) && c.color !in s.byLabel && c.name !in s.byName
    requires RawColors(raw + [c]) == RawColors(raw) + {c.color} && RawNames(raw + [c]) == RawNames(raw) + {c.name}
    ensures ClassesOf(raw + [c], Classes(Read(s, c, dscps).byLabel, Read(s, c, dscps).byName))
  {
    var s' := Read(s, c, dscps);
    assert s'.byLabel.Keys == s.byLabel.Keys + {c.color} && s'.byName.Keys == s.byName.Keys + {c.name};
    forall x | x in raw + [c]
      ensures x.color in s'.byLabel && s'.byLabel[x.color] == ClassOf(x)
      ensures x.name in s'.byName && s'.byName[x.name] == x.color
    {
      if x in raw {
        assert x.color in RawColors(raw) && x.name in RawNames(raw);
      }
    }
  }

  /** Classes are ranked by index, names stand for different labels, and weights are positive. */
  ghost predicate Orderly(r: Classes) {
    && RankedClasses(r.byLabel) && DistinctColors(r.byName)
    && forall l :: l in r.byLabel && l != DEFAULT_COLOR ==> PositiveWeights(r.byLabel[l].objective)
  }

  /** The loop of `parseTrafficClasses`. */
  method ReadClasses(raw: seq<RawClass>) returns (r: Parsed<Reading>)
    ensures r.Accepted? <==> Acceptable(raw)
    ensures r.Accepted? ==> ReadSoFar(raw, r.value)
  {
    var s := Reading(map[DEFAULT_COLOR := TrafficClass(DEFAULT_COLOR, 0, map[])], map[DEFAULT_NAME := DEFAULT_COLOR], {}, {});
    var i := 0;
    while i < |raw|
      invariant 0 <= i <= |raw|
      invariant ReadSoFar(raw[..i], s)
    {
      var step := CheckClass(s, raw[i], raw[..i]);
      OneFurther(raw, i);
      if step.Rejected? {
        PrefixAcceptable(raw, i + 1);
        return Rejected(step.error);
      }
      s := step.value;
      i := i + 1;
    }
    OneFurther(raw, i);
    r := Accepted(s);
  }

  lemma OneFurther(raw: seq<RawClass>, i: nat)
    requires i <= |raw|
    ensures if i < |raw| then raw[..i] + [raw[i]] == raw[..i + 1] else raw[..i] == raw
  {
  }

  /** `parseTrafficClasses`: accepts exactly the lists whose classes are well formed and share no
      name, label, index or codepoint, and then returns the default class and the listed ones, by
      label and by name; different names have different labels. */
  method ParseTrafficClasses(raw: seq<RawClass>) returns (r: Parsed<Classes>)
    ensures r.Accepted? <==> Acceptable(raw)
    ensures r.Accepted? ==> ClassesOf(raw, r.value) && Orderly(r.value)
  {
    var read := ReadClasses(raw);
    if read.Rejected? {
      return Rejected(read.error);
    }
    ReadIsOrderly(raw, read.value);
    r := Accepted(Classes(read.value.byLabel, read.value.byName));
  }

  lemma PrefixAcceptable(raw: seq<RawClass>, n: nat)
    requires n <= |raw|
    ensures Acceptable(raw) ==> Acceptable(raw[..n])
  {
  }

  lemma ReadIsOrderly(raw: seq<RawClass>, s: Reading)
    requires ReadSoFar(raw, s)
    ensures Orderly(Classes(s.byLabel, s.byName))
  {
    ReadIsRanked(raw, s);
    NamesApart(raw, s);
  }

  lemma NamesApart(raw: seq<RawClass>, s: Reading)
    requires ReadSoFar(raw, s)
    ensures DistinctColors(s.byName)
  {
    forall a, b | a in s.byName && b in s.byName && s.byName[a] == s.byName[b]
      ensures a == b
    {
      if a != DEFAULT_NAME && b != DEFAULT_NAME {
        var c :| c in raw && c.name == a;
        var d :| d in raw && d.name == b;
        SameColorSameClass(raw, c, d);
      } else if a != DEFAULT_NAME {
        NotDefault(raw, s, a);
      } else if b != DEFAULT_NAME {
        NotDefault(raw, s, b);
      }
    }
  }

  lemma NotDefault(raw: seq<RawClass>, s: Reading, a: string)
    requires ReadSoFar(raw, s) && a in s.byName && a != DEFAULT_NAME
    ensures s.byName[a] != DEFAULT_COLOR
  {
    var c :| c in raw && c.name == a;
    var i :| 0 <= i < |raw| && raw[i] == c;
    assert GoodClass(raw[i]);
  }

  lemma SameColorSameClass(raw: seq<RawClass>, c: RawClass, d: RawClass)
    requires Acceptable(raw) && c in raw && d in raw && c.color == d.color
    ensures c == d
  {
    var i :| 0 <= i < |raw| && raw[i] == c;
    var j :| 0 <= j < |raw| && raw[j] == d;
    assert i == j;
  }

  lemma ClassAt(raw: seq<RawClass>, s: Reading, l: Color) returns (c: RawClass)
    requires ReadSoFar(raw, s) && l in s.byLabel && l != DEFAULT_COLOR
    ensures c in raw && c.color == l && GoodClass(c) && s.byLabel[l] == ClassOf(c)
  {
    c :| c in raw && c.color == l;
    var i :| 0 <= i < |raw| && raw[i] == c;
    assert GoodClass(raw[i]);
  }

  lemma ReadIsRanked(raw: seq<RawClass>, s: Reading)
    requires ReadSoFar(raw, s)
    ensures RankedClasses(s.byLabel)
    ensures forall l :: l in s.byLabel && l != DEFAULT_COLOR ==> PositiveWeights(s.byLabel[l].objective)
  {
    forall l | l in s.byLabel && l != DEFAULT_COLOR
      ensures s.byLabel[l].color == l && s.byLabel[l].index >= 1 && PositiveWeights(s.byLabel[l].objective)
    {
      var c := ClassAt(raw, s, l);
    }
    forall a, b | a in s.byLabel && b in s.byLabel && s.byLabel[a].index == s.byLabel[b].index && a != DEFAULT_COLOR && b != DEFAULT_COLOR
      ensures a == b
    {
      var c := ClassAt(raw, s, a);
      var d := ClassAt(raw, s, b);
      SameIndexSameClass(raw, c, d);
    }
  }

  lemma SameIndexSameClass(raw: seq<RawClass>, c: RawClass, d: RawClass)
    requires Acceptable(raw) && c in raw && d in raw && c.index == d.index
    ensures c == d
  {
    var i :| 0 <= i < |raw| && raw[i] == c;
    var j :| 0 <= j < |raw| && raw[j] == d;
    assert i == j;
  }

  // ---------- Class shares of a site ----------

  const CLASS_MBPS_TOLERANCE := 0.000001

  ghost function Shares(raw: map<string, real>): string -> real {
    (n: string) => if n in raw then raw[n] else 0.0
  }

  ghost function Portions(out: map<Color, real>): Color -> real {
    (l: Color) => Share(out, l)
  }

  predicate GoodShare(byName: map<string, Color>, name: string, mbps: real) {
    name in byName && byName[name] != DEFAULT_COLOR && mbps > 0.0
  }

  ghost predicate DistinctColors(byName: map<string, Color>) {
    forall a, b :: a in byName && b in byName && byName[a] == byName[b] ==> a == b
  }

  ghost function ColorsOf(byName: map<string, Color>, names: set<string>): set<Color> {
    set n | n in names && n in byName :: byName[n]
  }

  ghost predicate SharesRead(raw: map<string, real>, byName: map<string, Color>, done: set<string>, out: map<Color, real>) {
    && done <= raw.Keys && out.Keys == ColorsOf(byName, done)
    && (forall n :: n in done ==> GoodShare(byName, n, raw[n]) && out[byName[n]] == raw[n])
  }

  /** The shares read so far, and what they add up to. */
  ghost predicate Carving(raw: map<string, real>, byName: map<string, Color>, done: set<string>, out: map<Color, real>, carved: real) {
    SharesRead(raw, byName, done, out) && carved == Sum(done, Shares(raw)) == Sum(out.Keys, Portions(out))
  }

  lemma ReadShare(raw: map<string, real>, byName: map<string, Color>, done: set<string>, out: map<Color, real>, n: string)
    requires DistinctColors(byName) && SharesRead(raw, byName, done, out)
    requires n in raw && n !in done && GoodShare(byName, n, raw[n])
    ensures byName[n] !in out
    ensures SharesRead(raw, byName, done + {n}, out[byName[n] := raw[n]])
  {
    assert ColorsOf(byName, done + {n}) == ColorsOf(byName, done) + {byName[n]};
  }

  lemma PortionAdd(out: map<Color, real>, l: Color, mbps: real)
    requires l !in out
    ensures Sum(out[l := mbps].Keys, Portions(out[l := mbps])) == Sum(out.Keys, Portions(out)) + mbps
  {
    var out' := out[l := mbps];
    SumSame(out.Keys, Portions(out), Portions(out'));
    assert out'.Keys == out.Keys + {l};
    SumAdd(out.Keys, l, Portions(out'));
  }

  lemma CarveOne(raw: map<string, real>, byName: map<string, Color>, done: set<string>, out: map<Color, real>, carved: real, n: string)
    requires DistinctColors(byName) && Carving(raw, byName, done, out, carved)
    requires n in raw && n !in done && GoodShare(byName, n, raw[n])
    ensures Carving(raw, byName, done + {n}, out[byName[n] := raw[n]], carved + raw[n])
  {
    ReadShare(raw, byName, done, out, n);
    SumAdd(done, n, Shares(raw));
    PortionAdd(out, byName[n], raw[n]);
  }

  /** What the named shares leave of the reservation. */
  ghost function Remainder(raw: map<string, real>, reservation: real): real {
    reservation - Sum(raw.Keys, Shares(raw))
  }

  /** Named classes get their share, the default class the remainder if there is one, no other class
      anything. */
  ghost predicate Resolved(raw: map<string, real>, reservation: real, byName: map<string, Color>, out: map<Color, real>) {
    && out.Keys == ColorsOf(byName, raw.Keys) + (if Remainder(raw, reservation) > CLASS_MBPS_TOLERANCE then {DEFAULT_COLOR} else {})
    && (forall n :: n in raw ==> n in byName && byName[n] in out && out[byName[n]] == raw[n])
    && (DEFAULT_COLOR in out ==> out[DEFAULT_COLOR] == Remainder(raw, reservation))
  }

  ghost predicate AddsUp(reservation: real, out: map<Color, real>) {
    && (forall l :: l in out ==> out[l] > 0.0)
    && -CLASS_MBPS_TOLERANCE <= reservation - Sum(out.Keys, Portions(out)) <= CLASS_MBPS_TOLERANCE
  }

  lemma NamedOnly(raw: map<string, real>, byName: map<string, Color>, out: map<Color, real>, carved: real)
    requires Carving(raw, byName, raw.Keys, out, carved)
    ensures DEFAULT_COLOR !in out && forall l :: l in out ==> out[l] > 0.0
  {
    forall l | l in out
      ensures l != DEFAULT_COLOR && out[l] > 0.0
    {
      var n :| n in raw.Keys && n in byName && byName[n] == l;
    }
  }

  function WithDefault(out: map<Color, real>, remainder: real): map<Color, real> {
    if remainder > CLASS_MBPS_TOLERANCE then out[DEFAULT_COLOR := remainder] else out
  }

  lemma SharesResolved(raw: map<string, real>, reservation: real, byName: map<string, Color>, out: map<Color, real>, carved: real)
    requires Carving(raw, byName, raw.Keys, out, carved)
    ensures Resolved(raw, reservation, byName, WithDefault(out, reservation - carved))
  {
    NamedOnly(raw, byName, out, carved);
  }

  lemma SharesAddUp(raw: map<string, real>, reservation: real, byName: map<string, Color>, out: map<Color, real>, carved: real)
    requires Carving(raw, byName, raw.Keys, out, carved) && reservation - carved >= -CLASS_MBPS_TOLERANCE
    ensures AddsUp(reservation, WithDefault(out, reservation - carved))
  {
    var remainder := reservation - carved;
    NamedOnly(raw, byName, out, carved);
    if remainder > CLASS_MBPS_TOLERANCE {
      PortionAdd(out, DEFAULT_COLOR, remainder);
    }
  }

  /** The loop of `resolveSiteClasses`. */
  method CarveShares(raw: map<string, real>, byName: map<string, Color>) returns (ok: bool, out: map<Color, real>, carved: real)
    requires DistinctColors(byName)
    ensures ok <==> forall n :: n in raw ==> GoodShare(byName, n, raw[n])
    ensures ok ==> Carving(raw, byName, raw.Keys, out, carved)
  {
    out, carved := map[], 0.0;
    var todo := raw.Keys;
    ghost var done: set<string> := {};
    while todo != {}
      invariant done !! todo && done + todo == raw.Keys
      invariant Carving(raw, byName, done, out, carved)
    {
      var name :| name in todo;
      if !GoodShare(byName, name, raw[name]) {
        return false, out, carved;
      }
      CarveOne(raw, byName, done, out, carved, name);
      out := out[byName[name] := raw[name]];
      carved := carved + raw[name];
      todo, done := todo - {name}, done + {name};
    }
    assert done == raw.Keys;
    ok := true;
  }

  /** `resolveSiteClasses`: named shares are taken as given and the default class gets the rest.
      Whatever the order, the shares of an accepted site are positive and add up to its
      reservation within the tolerance; it is refused exactly when a share is bad or the named
      shares exceed the reservation. */
  method ResolveSiteClasses(raw: map<string, real>, reservation: real, byName: map<string, Color>)
    returns (r: Option<map<Color, real>>)
    requires DistinctColors(byName)
    ensures r.Some? <==> (forall n :: n in raw ==> GoodShare(byName, n, raw[n])) && Remainder(raw, reservation) >= -CLASS_MBPS_TOLERANCE
    ensures r.Some? ==> Resolved(raw, reservation, byName, r.value) && AddsUp(reservation, r.value)
  {
    var ok, out, carved := CarveShares(raw, byName);
    if !ok {
      return None;
    }
    var remainder := reservation - carved;
    if remainder < -CLASS_MBPS_TOLERANCE {
      return None;
    }
    SharesResolved(raw, reservation, byName, out, carved);
    SharesAddUp(raw, reservation, byName, out, carved);
    r := Some(WithDefault(out, remainder));
  }

  // ---------- The contract the tenants have ----------

  ghost predicate HasTenant(tenants: seq<Tenant>, t: TenantId) {
    exists x :: x in tenants && x.id == t
  }

  ghost function Contracted(tenants: seq<Tenant>, t: TenantId, p: NodeId, l: Color): real {
    if HasTenant(tenants, t) then var x :| x in tenants && x.id == t; Mbps(x.sites, p, l) else 0.0
  }

  /** A tenant may send from, and receive at, a PoP what its sites there reserve for the class. */
  ghost function ContractOf(tenants: seq<Tenant>): Hose {
    var c := (t: TenantId, p: NodeId, l: Color) => Contracted(tenants, t, p, l);
    Hose(c, c)
  }

  /** `ClassObjective` and the demand's key and reservation. */
  function ToDemand(d: Wish): Demand {
    Demand(d.tenant.id, d.class_.color,
           if d.class_.color == DEFAULT_COLOR then map[StaticUtilization := 1.0] else d.class_.objective,
           d.from, d.to, d.fromMbps, d.toMbps)
  }

  function ToDemands(ds: seq<Wish>): seq<Demand> {
    seq(|ds|, i requires 0 <= i < |ds| => ToDemand(ds[i]))
  }

  /** A demand of a named class is priced by that class's objective, bulk by reserved bandwidth alone. */
  ghost predicate WeighsOwnClass(classes: map<Color, TrafficClass>, d: Demand) {
    d.color in classes && d.objective == if d.color == 0 then map[StaticUtilization := 1.0] else classes[d.color].objective
  }

  lemma SameTenant(tenants: seq<Tenant>, a: Tenant, b: Tenant)
    requires DistinctTenants(tenants) && a in tenants && b in tenants && a.id == b.id
    ensures a == b
  {
    var i :| 0 <= i < |tenants| && tenants[i] == a;
    var j :| 0 <= j < |tenants| && tenants[j] == b;
    assert i == j;
  }

  lemma {:induction false} MbpsNonNegative(sites: seq<Site>, p: NodeId, l: Color)
    requires forall x :: x in sites ==> forall c :: c in x.classMbps ==> x.classMbps[c] >= 0.0
    ensures Mbps(sites, p, l) >= 0.0
  {
    if sites != [] {
      assert sites[|sites| - 1] in sites;
      MbpsNonNegative(sites[..|sites| - 1], p, l);
    }
  }

  lemma ContractNonNegative(tenants: seq<Tenant>)
    requires forall t, x :: t in tenants && x in t.sites ==> forall c :: c in x.classMbps ==> x.classMbps[c] >= 0.0
    ensures NonNegative(ContractOf(tenants))
  {
    forall t: TenantId, p: NodeId, l: Color
      ensures Contracted(tenants, t, p, l) >= 0.0
    {
      if HasTenant(tenants, t) {
        var x :| x in tenants && x.id == t && Contracted(tenants, t, p, l) == Mbps(x.sites, p, l);
        MbpsNonNegative(x.sites, p, l);
      }
    }
  }

  /** The demands built for a tick are what the path computation element relies on: one per key, and
      every reservation states the contract's bandwidth. */
  lemma BuiltDemandsAreValid(tenants: seq<Tenant>, classes: map<Color, TrafficClass>, ds: seq<Wish>)
    requires ClassesFiled(classes) && DistinctTenants(tenants)
    requires forall l :: l in classes && l != DEFAULT_COLOR ==> PositiveWeights(classes[l].objective)
    requires forall d :: d in ds ==> Wanted(tenants, classes, d)
    requires NoRepeats(ds)
    ensures DistinctKeys(ToDemands(ds))
    ensures forall i :: 0 <= i < |ds| ==> ValidDemand(ContractOf(tenants), ToDemands(ds)[i])
    ensures forall i :: 0 <= i < |ds| ==> WeighsOwnClass(classes, ToDemands(ds)[i])
  {
    forall i, j | 0 <= i < j < |ds|
      ensures KeyOf(ToDemands(ds)[i]) != KeyOf(ToDemands(ds)[j])
    {
      var a, b := ds[i], ds[j];
      assert a in ds && b in ds;
      if a.tenant.id == b.tenant.id {
        SameTenant(tenants, a.tenant, b.tenant);
      }
    }
    forall i | 0 <= i < |ds|
      ensures ValidDemand(ContractOf(tenants), ToDemands(ds)[i]) && WeighsOwnClass(classes, ToDemands(ds)[i])
    {
      var d := ds[i];
      assert d in ds;
      var x :| x in tenants && x.id == d.tenant.id && forall p, l ::  Contracted(tenants, d.tenant.id, p, l) == Mbps(x.sites, p, l);
      SameTenant(tenants, x, d.tenant);
    }
  }
}
