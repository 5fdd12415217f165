/** What a visitor may break: limits on manual faults, and a graph search that keeps the fabric whole. */
module Faults {
  type Pop = string
  type LinkId = string

  datatype Link = Link(a: Pop, b: Pop)

  datatype Lab = Lab(pops: seq<Pop>, links: map<LinkId, Link>)

  /** At least one PoP, none listed twice, and links between listed ones. */
  ghost predicate WellFormed(lab: Lab) {
    && lab.pops != []
    && (forall i, j :: 0 <= i < j < |lab.pops| ==> lab.pops[i] != lab.pops[j])
    && (forall l :: l in lab.links ==> lab.links[l].a in lab.pops && lab.links[l].b in lab.pops)
  }

  // ---------- Connectivity ----------

  ghost predicate Adjacent(lab: Lab, down: set<LinkId>, p: Pop, q: Pop) {
    exists l :: l in lab.links && l !in down && Joins(lab.links[l], p, q)
  }

  predicate Joins(l: Link, p: Pop, q: Pop) {
    (l.a == p && l.b == q) || (l.a == q && l.b == p)
  }

  ghost predicate IsPath(lab: Lab, down: set<LinkId>, ps: seq<Pop>) {
    ps != [] && forall i :: 0 <= i < |ps| - 1 ==> Adjacent(lab, down, ps[i], ps[i + 1])
  }

  ghost predicate PathBetween(lab: Lab, down: set<LinkId>, ps: seq<Pop>, p: Pop, q: Pop) {
    IsPath(lab, down, ps) && ps[0] == p && ps[|ps| - 1] == q
  }

  ghost predicate Reaches(lab: Lab, down: set<LinkId>, p: Pop, q: Pop) {
    exists ps :: PathBetween(lab, down, ps, p, q)
  }

  /** Every PoP reaches every other over links that are not down. */
  ghost predicate AllConnected(lab: Lab, down: set<LinkId>) {
    forall p, q :: p in lab.pops && q in lab.pops ==> Reaches(lab, down, p, q)
  }

  lemma ReachesSelf(lab: Lab, down: set<LinkId>, p: Pop)
    ensures Reaches(lab, down, p, p)
  {
    assert PathBetween(lab, down, [p], p, p);
  }

  lemma ReachesOn(lab: Lab, down: set<LinkId>, p: Pop, q: Pop, r: Pop)
    requires Reaches(lab, down, p, q) && Adjacent(lab, down, q, r)
    ensures Reaches(lab, down, p, r)
  {
    var ps :| PathBetween(lab, down, ps, p, q);
    assert PathBetween(lab, down, ps + [r], p, r);
  }

  lemma {:induction false} ReachesAlong(lab: Lab, down: set<LinkId>, p: Pop, ps: seq<Pop>)
    requires IsPath(lab, down, ps) && Reaches(lab, down, p, ps[0])
    ensures Reaches(lab, down, p, ps[|ps| - 1])
    decreases |ps|
  {
    if |ps| > 1 {
      var front := ps[..|ps| - 1];
      assert IsPath(lab, down, front);
      ReachesAlong(lab, down, p, front);
      assert Adjacent(lab, down, ps[|ps| - 2], ps[|ps| - 2 + 1]);
      ReachesOn(lab, down, p, ps[|ps| - 2], ps[|ps| - 1]);
    }
  }

  lemma {:induction false} ReachesBack(lab: Lab, down: set<LinkId>, ps: seq<Pop>)
    requires IsPath(lab, down, ps)
    ensures Reaches(lab, down, ps[|ps| - 1], ps[0])
    decreases |ps|
  {
    if |ps| == 1 {
      ReachesSelf(lab, down, ps[0]);
    } else {
      var rest := ps[1..];
      forall i | 0 <= i < |rest| - 1
        ensures Adjacent(lab, down, rest[i], rest[i + 1])
      {
        assert Adjacent(lab, down, ps[i + 1], ps[(i + 1) + 1]);
      }
      ReachesBack(lab, down, rest);
      assert Adjacent(lab, down, ps[0], ps[0 + 1]);
      assert Adjacent(lab, down, ps[1], ps[0]);
      ReachesOn(lab, down, ps[|ps| - 1], ps[1], ps[0]);
    }
  }

  /** It is enough that one PoP reaches all. */
  lemma ReachedFromOne(lab: Lab, down: set<LinkId>, s: Pop)
    requires forall q :: q in lab.pops ==> Reaches(lab, down, s, q)
    ensures AllConnected(lab, down)
  {
    forall p, q | p in lab.pops && q in lab.pops
      ensures Reaches(lab, down, p, q)
    {
      var there :| PathBetween(lab, down, there, s, p);
      ReachesBack(lab, down, there);
      var on :| PathBetween(lab, down, on, s, q);
      ReachesAlong(lab, down, p, on);
    }
  }

  /** Bringing links up never cuts anyone off. */
  lemma FewerDown(lab: Lab, down: set<LinkId>, down': set<LinkId>)
    requires AllConnected(lab, down) && down' <= down
    ensures AllConnected(lab, down')
  {
    forall p, q | p in lab.pops && q in lab.pops
      ensures Reaches(lab, down', p, q)
    {
      var ps :| PathBetween(lab, down, ps, p, q);
      assert forall i :: 0 <= i < |ps| - 1 && Adjacent(lab, down, ps[i], ps[i + 1]) ==> Adjacent(lab, down', ps[i], ps[i + 1]);
      assert PathBetween(lab, down', ps, p, q);
    }
  }

  function SetOf(ps: seq<Pop>): set<Pop> {
    set p | p in ps
  }

  /** The neighbour sets of the search. */
  ghost predicate AreNeighbours(lab: Lab, down: set<LinkId>, ns: map<Pop, set<Pop>>) {
    && (forall p :: p in ns <==> p in lab.pops)
    && (forall p, q :: p in ns ==> (q in ns[p] <==> Adjacent(lab, down, p, q)))
  }

  ghost predicate LinkedBy(lab: Lab, done: set<LinkId>, down: set<LinkId>, p: Pop, q: Pop) {
    exists l :: l in lab.links && l in done && l !in down && Joins(lab.links[l], p, q)
  }

  ghost predicate NeighboursBy(lab: Lab, done: set<LinkId>, down: set<LinkId>, ns: map<Pop, set<Pop>>) {
    && (forall p :: p in ns <==> p in lab.pops)
    && (forall p, q :: p in ns ==> (q in ns[p] <==> LinkedBy(lab, done, down, p, q)))
  }

  function WithLink(ns: map<Pop, set<Pop>>, a: Pop, b: Pop): map<Pop, set<Pop>>
    requires a in ns && b in ns
  {
    var ns1 := ns[a := ns[a] + {b}];
    ns1[b := ns1[b] + {a}]
  }

  lemma LinkedByMore(lab: Lab, done: set<LinkId>, down: set<LinkId>, l: LinkId, p: Pop, q: Pop)
    requires l in lab.links
    ensures LinkedBy(lab, done + {l}, down, p, q) <==> LinkedBy(lab, done, down, p, q) || (l !in down && Joins(lab.links[l], p, q))
  {
  }

  lemma WithLinkAt(ns: map<Pop, set<Pop>>, l: Link, p: Pop, q: Pop)
    requires l.a in ns && l.b in ns && p in ns
    ensures p in WithLink(ns, l.a, l.b)
    ensures q in WithLink(ns, l.a, l.b)[p] <==> q in ns[p] || Joins(l, p, q)
  {
  }

  lemma NeighboursMore(lab: Lab, done: set<LinkId>, down: set<LinkId>, ns: map<Pop, set<Pop>>, l: LinkId)
    requires WellFormed(lab) && NeighboursBy(lab, done, down, ns) && l in lab.links
    ensures NeighboursBy(lab, done + {l}, down, if l in down then ns else WithLink(ns, lab.links[l].a, lab.links[l].b))
  {
    var ns' := if l in down then ns else WithLink(ns, lab.links[l].a, lab.links[l].b);
    forall p, q | p in ns'
      ensures q in ns'[p] <==> LinkedBy(lab, done + {l}, down, p, q)
    {
      LinkedByMore(lab, done, down, l, p, q);
      if l !in down {
        WithLinkAt(ns, lab.links[l], p, q);
      }
    }
  }

  /** The links still to do are left out. */
  ghost predicate NeighboursBut(lab: Lab, todo: set<LinkId>, down: set<LinkId>, ns: map<Pop, set<Pop>>) {
    todo <= lab.links.Keys && NeighboursBy(lab, lab.links.Keys - todo, down, ns)
  }

  lemma NeighboursTurn(lab: Lab, todo: set<LinkId>, down: set<LinkId>, ns: map<Pop, set<Pop>>, l: LinkId)
    requires WellFormed(lab) && NeighboursBut(lab, todo, down, ns) && l in todo
    ensures l in lab.links && lab.links[l].a in ns && lab.links[l].b in ns
    ensures NeighboursBut(lab, todo - {l}, down, if l in down then ns else WithLink(ns, lab.links[l].a, lab.links[l].b))
  {
    NeighboursMore(lab, lab.links.Keys - todo, down, ns, l);
    assert lab.links.Keys - (todo - {l}) == lab.links.Keys - todo + {l};
  }

  lemma NeighboursNone(lab: Lab, down: set<LinkId>, ns: map<Pop, set<Pop>>)
    requires ns == map p | p in lab.pops :: {}
    ensures NeighboursBut(lab, lab.links.Keys, down, ns)
  {
    assert lab.links.Keys - lab.links.Keys == {};
  }

  lemma NeighboursAll(lab: Lab, down: set<LinkId>, ns: map<Pop, set<Pop>>)
    requires NeighboursBut(lab, {}, down, ns)
    ensures AreNeighbours(lab, down, ns)
  {
    assert lab.links.Keys - {} == lab.links.Keys;
    assert forall p, q :: LinkedBy(lab, lab.links.Keys, down, p, q) <==> Adjacent(lab, down, p, q);
  }

  method Neighbours(lab: Lab, down: set<LinkId>) returns (ns: map<Pop, set<Pop>>)
    requires WellFormed(lab)
    ensures AreNeighbours(lab, down, ns)
  {
    ns := map p | p in lab.pops :: {};
    var todo := lab.links.Keys;
    NeighboursNone(lab, down, ns);
    while todo != {}
      invariant NeighboursBut(lab, todo, down, ns)
    {
      var l :| l in todo;
      NeighboursTurn(lab, todo, down, ns, l);
      todo := todo - {l};
      if l !in down {
        ns := WithLink(ns, lab.links[l].a, lab.links[l].b);
      }
    }
    NeighboursAll(lab, down, ns);
  }

  /** Reached PoPs lead only to reached ones, except those still waiting. */
  ghost predicate Frontier(ns: map<Pop, set<Pop>>, reached: set<Pop>, waiting: set<Pop>) {
    reached <= ns.Keys && forall p, q :: p in reached && p !in waiting && q in ns[p] ==> q in reached
  }

  lemma {:induction false} ClosedUnderPaths(lab: Lab, down: set<LinkId>, ns: map<Pop, set<Pop>>, reached: set<Pop>, ps: seq<Pop>)
    requires AreNeighbours(lab, down, ns) && Frontier(ns, reached, {}) && IsPath(lab, down, ps) && ps[0] in reached
    ensures ps[|ps| - 1] in reached
    decreases |ps|
  {
    if |ps| > 1 {
      var front := ps[..|ps| - 1];
      assert IsPath(lab, down, front);
      ClosedUnderPaths(lab, down, ns, reached, front);
      assert Adjacent(lab, down, ps[|ps| - 2], ps[|ps| - 2 + 1]);
    }
  }

  /** `connected`: true exactly when every PoP reaches every other. */
  method Connected(lab: Lab, down: set<LinkId>) returns (r: bool)
    requires WellFormed(lab)
    ensures r <==> AllConnected(lab, down)
  {
    var ns := Neighbours(lab, down);
    var start := lab.pops[0];
    var reached := {start};
    var queue := [start];
    ReachesSelf(lab, down, start);
    ghost var pops := SetOf(lab.pops);
    while queue != []
      invariant start in reached && Searching(lab, down, start, reached, queue) && Frontier(ns, reached, SetOf(queue))
      decreases |pops - reached|, |queue|
    {
      var p := queue[|queue| - 1];
      ghost var before := reached;
      assert SetOf(queue) == SetOf(queue[..|queue| - 1]) + {p};
      queue := queue[..|queue| - 1];
      reached, queue := Visit(lab, down, ns, start, p, reached, queue);
      if reached != before {
        Shrinks(pops, before, reached);
      }
    }
    Complete(lab, down, ns, start, reached);
    SameCount(lab, reached);
    r := |reached| == |lab.pops|;
  }

  lemma Shrinks(all: set<Pop>, a: set<Pop>, b: set<Pop>)
    requires a <= b <= all && a != b
    ensures |all - b| < |all - a|
  {
    var x :| x in b && x !in a;
    SubsetSize(all - b, all - a - {x});
  }

  lemma {:induction false} SubsetSize(a: set<Pop>, b: set<Pop>)
    requires a <= b
    ensures |a| <= |b|
    decreases a
  {
    if a != {} {
      var x :| x in a;
      SubsetSize(a - {x}, b - {x});
    }
  }

  /** What the search keeps: queued PoPs are reached, and reached ones are reachable. */
  ghost predicate Searching(lab: Lab, down: set<LinkId>, start: Pop, reached: set<Pop>, queue: seq<Pop>) {
    && reached <= SetOf(lab.pops)
    && (forall x :: x in queue ==> x in reached)
    && (forall x :: x in reached ==> Reaches(lab, down, start, x))
  }

  lemma SearchingMore(lab: Lab, down: set<LinkId>, ns: map<Pop, set<Pop>>, start: Pop, reached: set<Pop>, queue: seq<Pop>, p: Pop, q: Pop)
    requires WellFormed(lab) && AreNeighbours(lab, down, ns) && Searching(lab, down, start, reached, queue)
    requires p in reached && q in ns[p] && Frontier(ns, reached, SetOf(queue) + {p})
    ensures Searching(lab, down, start, reached + {q}, queue + [q])
    ensures Frontier(ns, reached + {q}, SetOf(queue + [q]) + {p})
  {
    assert Adjacent(lab, down, p, q);
    ReachesOn(lab, down, start, p, q);
    assert SetOf(queue + [q]) == SetOf(queue) + {q};
    var l :| l in lab.links && l !in down && Joins(lab.links[l], p, q);
  }

  /** One turn of the search: the neighbours of `p` not seen before join the queue. */
  method Visit(lab: Lab, down: set<LinkId>, ns: map<Pop, set<Pop>>, start: Pop, p: Pop, reached0: set<Pop>, queue0: seq<Pop>)
    returns (reached: set<Pop>, queue: seq<Pop>)
    requires WellFormed(lab) && AreNeighbours(lab, down, ns) && p in reached0
    requires Searching(lab, down, start, reached0, queue0) && Frontier(ns, reached0, SetOf(queue0) + {p})
    ensures reached0 <= reached && (reached == reached0 ==> queue == queue0)
    ensures Searching(lab, down, start, reached, queue) && Frontier(ns, reached, SetOf(queue))
  {
    reached, queue := reached0, queue0;
    var todo := ns[p];
    while todo != {}
      invariant todo <= ns[p] && reached0 <= reached && (reached == reached0 ==> queue == queue0)
      invariant Searching(lab, down, start, reached, queue) && Frontier(ns, reached, SetOf(queue) + {p})
      invariant ns[p] - todo <= reached
    {
      var q :| q in todo;
      todo := todo - {q};
      if q !in reached {
        SearchingMore(lab, down, ns, start, reached, queue, p, q);
        reached, queue := reached + {q}, queue + [q];
      }
    }
  }

  lemma Complete(lab: Lab, down: set<LinkId>, ns: map<Pop, set<Pop>>, start: Pop, reached: set<Pop>)
    requires AreNeighbours(lab, down, ns) && Frontier(ns, reached, {}) && start in reached && start in lab.pops
    requires forall p :: p in reached ==> Reaches(lab, down, start, p)
    ensures reached == SetOf(lab.pops) <==> AllConnected(lab, down)
  {
    if AllConnected(lab, down) {
      forall q | q in lab.pops
        ensures q in reached
      {
        var ps :| PathBetween(lab, down, ps, start, q);
        ClosedUnderPaths(lab, down, ns, reached, ps);
      }
    }
    if reached == SetOf(lab.pops) {
      ReachedFromOne(lab, down, start);
    }
  }

  lemma {:induction false} DistinctCount(ps: seq<Pop>)
    requires forall i, j :: 0 <= i < j < |ps| ==> ps[i] != ps[j]
    ensures |SetOf(ps)| == |ps|
    decreases |ps|
  {
    if ps != [] {
      var front := ps[..|ps| - 1];
      DistinctCount(front);
      assert SetOf(ps) == SetOf(front) + {ps[|ps| - 1]};
    }
  }

  lemma SameCount(lab: Lab, reached: set<Pop>)
    requires WellFormed(lab) && reached <= SetOf(lab.pops)
    ensures |reached| == |lab.pops| <==> reached == SetOf(lab.pops)
  {
    DistinctCount(lab.pops);
    if reached != SetOf(lab.pops) {
      Shrinks(SetOf(lab.pops), reached, SetOf(lab.pops));
    }
  }
}
