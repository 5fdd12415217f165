/** `getBandwidthSums` counts the first reservation it meets for a (PoP, label) pair, at the source
    end and at the sink end, and it meets them in map order. This module says exactly when that
    order does not matter. */
module HoseOrder {
  import opened Topology
  import opened Hose
  import opened Ledger

  datatype End = Source | Sink

  function PopAt(k: FlowKey, end: End): NodeId {
    match end
    case Source => k.source
    case Sink => k.sink
  }

  function MbpsAt(r: Reservation, end: End): real {
    match end
    case Source => r.source
    case Sink => r.sink
  }

  /** One end of `getBandwidthSums` for one visiting order. */
  function TallyInOrder(entry: Entry, end: End, order: seq<FlowKey>): Tally
    requires forall k :: k in order ==> k in entry
  {
    if order == [] then Tally(map[], {})
    else
      var k := order[|order| - 1];
      Count(TallyInOrder(entry, end, order[..|order| - 1]), PopAt(k, end), k.color, MbpsAt(entry[k], end))
  }

  ghost predicate Enumerates(entry: Entry, order: seq<FlowKey>) {
    && (forall k :: k in order <==> k in entry)
    && (forall i, j :: 0 <= i < j < |order| ==> order[i] != order[j])
  }

  /** Reservations that share a PoP at this end and a label state the same bandwidth for it. */
  ghost predicate Agree(entry: Entry, end: End) {
    forall a, b :: a in entry && b in entry && PopAt(a, end) == PopAt(b, end) && a.color == b.color ==>
      MbpsAt(entry[a], end) == MbpsAt(entry[b], end)
  }

  ghost predicate OrderIrrelevantAt(entry: Entry, end: End) {
    forall o, o' :: Enumerates(entry, o) && Enumerates(entry, o') ==>
      TallyInOrder(entry, end, o).sums == TallyInOrder(entry, end, o').sums
  }

  /** Both maps that `getBandwidthSums` returns are the same for every visiting order. */
  ghost predicate OrderIrrelevant(entry: Entry) {
    OrderIrrelevantAt(entry, Source) && OrderIrrelevantAt(entry, Sink)
  }

  ghost predicate EndsAt(k: FlowKey, end: End, p: NodeId, l: Color) {
    PopAt(k, end) == p && k.color == l
  }

  /** The contract that an agreeing entry states. */
  ghost function Stated(entry: Entry, end: End, p: NodeId, l: Color): real {
    if exists k :: k in entry && EndsAt(k, end, p, l)
    then var k :| k in entry && EndsAt(k, end, p, l); MbpsAt(entry[k], end)
    else 0.0
  }

  ghost function StatedHose(entry: Entry): Hose {
    Hose((t: TenantId, p: NodeId, l: Color) => Stated(entry, Source, p, l),
         (t: TenantId, p: NodeId, l: Color) => Stated(entry, Sink, p, l))
  }

  ghost predicate Tallied(h: Hose, end: End, keys: set<FlowKey>, y: Tally) {
    match end
    case Source => SourcesTallied(h, 0, keys, y)
    case Sink => SinksTallied(h, 0, keys, y)
  }

  lemma CountAt(h: Hose, end: End, keys: set<FlowKey>, y: Tally, k: FlowKey)
    requires Tallied(h, end, keys, y)
    ensures Tallied(h, end, keys + {k}, Count(y, PopAt(k, end), k.color, HoseAt(h, end, PopAt(k, end), k.color)))
  {
    match end
    case Source => CountSource(h, 0, keys, y, k);
    case Sink => CountSink(h, 0, keys, y, k);
  }

  function HoseAt(h: Hose, end: End, p: NodeId, l: Color): real {
    match end
    case Source => h.send(0, p, l)
    case Sink => h.recv(0, p, l)
  }

  lemma StatedAt(entry: Entry, end: End, k: FlowKey)
    requires Agree(entry, end) && k in entry
    ensures HoseAt(StatedHose(entry), end, PopAt(k, end), k.color) == MbpsAt(entry[k], end)
  {
    assert EndsAt(k, end, PopAt(k, end), k.color);
  }

  function KeysOf(order: seq<FlowKey>): set<FlowKey> {
    set k | k in order
  }

  lemma OneMoreKey(order: seq<FlowKey>)
    requires order != []
    ensures KeysOf(order) == KeysOf(order[..|order| - 1]) + {order[|order| - 1]}
  {
    assert order == order[..|order| - 1] + [order[|order| - 1]];
  }

  lemma {:induction false} AgreeingTally(entry: Entry, end: End, order: seq<FlowKey>)
    requires Agree(entry, end)
    requires forall k :: k in order ==> k in entry
    ensures Tallied(StatedHose(entry), end, KeysOf(order), TallyInOrder(entry, end, order))
  {
    var h := StatedHose(entry);
    if order == [] {
      NothingTallied(h, 0);
      assert KeysOf(order) == {};
    } else {
      var k, front := order[|order| - 1], order[..|order| - 1];
      AgreeingTally(entry, end, front);
      StatedAt(entry, end, k);
      CountAt(h, end, KeysOf(front), TallyInOrder(entry, end, front), k);
      OneMoreKey(order);
    }
  }

  /** A tally of a set of keys is determined by the contract. */
  lemma TalliesAgree(h: Hose, end: End, keys: set<FlowKey>, x: Tally, y: Tally)
    requires Tallied(h, end, keys, x) && Tallied(h, end, keys, y)
    ensures x.sums == y.sums
  {
    assert x.sums.Keys == y.sums.Keys;
    forall l | l in x.sums
      ensures x.sums[l] == y.sums[l]
    {
      assert At(x.sums, l) == At(y.sums, l);
    }
  }

  lemma AgreeingOrders(entry: Entry, end: End, o: seq<FlowKey>, o': seq<FlowKey>)
    requires Agree(entry, end) && Enumerates(entry, o) && Enumerates(entry, o')
    ensures TallyInOrder(entry, end, o).sums == TallyInOrder(entry, end, o').sums
  {
    AgreeingTally(entry, end, o);
    AgreeingTally(entry, end, o');
    assert KeysOf(o) == KeysOf(o');
    TalliesAgree(StatedHose(entry), end, KeysOf(o), TallyInOrder(entry, end, o), TallyInOrder(entry, end, o'));
  }

  lemma SameSeenSameStep(x: Tally, y: Tally, pop: NodeId, c: Color, mbps: real, l: Color)
    requires x.seen == y.seen
    ensures Count(x, pop, c, mbps).seen == Count(y, pop, c, mbps).seen
    ensures At(Count(x, pop, c, mbps).sums, l) - At(x.sums, l) == At(Count(y, pop, c, mbps).sums, l) - At(y.sums, l)
  {
  }

  /** Two visits that have counted the same pairs grow by the same amounts from there on. */
  lemma {:induction false} SameSeenSameGrowth(entry: Entry, end: End, a: seq<FlowKey>, b: seq<FlowKey>, rest: seq<FlowKey>, l: Color)
    requires forall k :: k in a + rest || k in b + rest ==> k in entry
    requires TallyInOrder(entry, end, a).seen == TallyInOrder(entry, end, b).seen
    ensures TallyInOrder(entry, end, a + rest).seen == TallyInOrder(entry, end, b + rest).seen
    ensures At(TallyInOrder(entry, end, a + rest).sums, l) - At(TallyInOrder(entry, end, a).sums, l) ==
            At(TallyInOrder(entry, end, b + rest).sums, l) - At(TallyInOrder(entry, end, b).sums, l)
  {
    if rest == [] {
      assert a + rest == a && b + rest == b;
    } else {
      var front := rest[..|rest| - 1];
      assert (a + rest)[..|a + rest| - 1] == a + front;
      assert (b + rest)[..|b + rest| - 1] == b + front;
      SameSeenSameGrowth(entry, end, a, b, front, l);
      var k := rest[|rest| - 1];
      SameSeenSameStep(TallyInOrder(entry, end, a + front), TallyInOrder(entry, end, b + front),
                       PopAt(k, end), k.color, MbpsAt(entry[k], end), l);
    }
  }

  lemma {:induction false} SomeOrder(s: set<FlowKey>) returns (order: seq<FlowKey>)
    ensures forall k :: k in order <==> k in s
    ensures forall i, j :: 0 <= i < j < |order| ==> order[i] != order[j]
    decreases |s|
  {
    if s == {} {
      order := [];
    } else {
      var k :| k in s;
      var tail := SomeOrder(s - {k});
      order := [k] + tail;
    }
  }

  lemma PairTally(entry: Entry, end: End, a: FlowKey, b: FlowKey)
    requires a in entry && b in entry && PopAt(a, end) == PopAt(b, end) && a.color == b.color
    ensures TallyInOrder(entry, end, [a, b]) == Tally(map[a.color := MbpsAt(entry[a], end)], {(PopAt(a, end), a.color)})
  {
    assert [a, b][..1] == [a] && [a][..0] == [];
    assert TallyInOrder(entry, end, [a]) == Count(Tally(map[], {}), PopAt(a, end), a.color, MbpsAt(entry[a], end));
  }

  lemma PairThenRest(entry: Entry, a: FlowKey, b: FlowKey, rest: seq<FlowKey>)
    requires a in entry && b in entry && a != b
    requires forall k :: k in rest <==> k in entry && k != a && k != b
    requires forall i, j :: 0 <= i < j < |rest| ==> rest[i] != rest[j]
    ensures Enumerates(entry, [a, b] + rest)
  {
  }

  lemma ConflictShows(entry: Entry, end: End, a: FlowKey, b: FlowKey)
    requires a in entry && b in entry && PopAt(a, end) == PopAt(b, end) && a.color == b.color
    requires MbpsAt(entry[a], end) != MbpsAt(entry[b], end)
    ensures !OrderIrrelevantAt(entry, end)
  {
    var rest := SomeOrder(entry.Keys - {a, b});
    var o, o' := [a, b] + rest, [b, a] + rest;
    PairThenRest(entry, a, b, rest);
    PairThenRest(entry, b, a, rest);
    PairTally(entry, end, a, b);
    PairTally(entry, end, b, a);
    SameSeenSameGrowth(entry, end, [a, b], [b, a], rest, a.color);
    assert At(TallyInOrder(entry, end, o).sums, a.color) != At(TallyInOrder(entry, end, o').sums, a.color);
    assert TallyInOrder(entry, end, o).sums != TallyInOrder(entry, end, o').sums;
  }

  lemma OrderIrrelevantIffAgreeAt(entry: Entry, end: End)
    ensures OrderIrrelevantAt(entry, end) <==> Agree(entry, end)
  {
    if Agree(entry, end) {
      forall o, o' | Enumerates(entry, o) && Enumerates(entry, o')
        ensures TallyInOrder(entry, end, o).sums == TallyInOrder(entry, end, o').sums
      {
        AgreeingOrders(entry, end, o, o');
      }
    } else {
      var a, b :| a in entry && b in entry && PopAt(a, end) == PopAt(b, end) && a.color == b.color &&
                  MbpsAt(entry[a], end) != MbpsAt(entry[b], end);
      ConflictShows(entry, end, a, b);
    }
  }

  /** Both sums are the same for every map order exactly when no two reservations that share a label
      and a PoP at one end disagree about the bandwidth at that end. */
  lemma OrderIrrelevantIffEndsAgree(entry: Entry)
    ensures OrderIrrelevant(entry) <==> Agree(entry, Source) && Agree(entry, Sink)
  {
    OrderIrrelevantIffAgreeAt(entry, Source);
    OrderIrrelevantIffAgreeAt(entry, Sink);
  }
}
