/** Loss observations from probe sequence numbers, and the per-edge telemetry they feed. */
module LossAccounting {
  import opened Topology
  import Ewma

  const REORDER_TOLERANCE := 64
  const MAX_LOST_PER_SAMPLE := 200

  /** The newest sequence number and all loss observations so far. */
  datatype Loss = Loss(newest: Option<nat>, observed: seq<real>)

  const UNHEARD := Loss(None, [])

  function LostBetween(newest: nat, s: nat): nat
    requires s > newest
  {
    if s - newest - 1 <= MAX_LOST_PER_SAMPLE then s - newest - 1 else MAX_LOST_PER_SAMPLE
  }

  /** One probe heard: the first and every newer one count as delivered, numbers jumped over as lost
      up to a limit, a number far behind starts over, one slightly behind is ignored. */
  function Heard(l: Loss, s: nat): Loss {
    if l.newest.None? then Loss(Some(s), l.observed + [0.0])
    else if s > l.newest.value then Loss(Some(s), l.observed + Ewma.Ones(LostBetween(l.newest.value, s)) + [0.0])
    else if l.newest.value - s > REORDER_TOLERANCE then Loss(Some(s), l.observed + [0.0])
    else l
  }

  function HeardAll(ss: seq<nat>): Loss {
    if ss == [] then UNHEARD else Heard(HeardAll(ss[..|ss| - 1]), ss[|ss| - 1])
  }

  // ---------- What one sender epoch amounts to ----------

  function Newest(ss: seq<nat>): nat
    requires ss != []
  {
    if |ss| == 1 then ss[0]
    else
      var n := Newest(ss[..|ss| - 1]);
      if ss[|ss| - 1] > n then ss[|ss| - 1] else n
  }

  /** Nothing arrives more than the tolerance behind the newest number before it. */
  predicate Epoch(ss: seq<nat>) {
    |ss| <= 1 || (Epoch(ss[..|ss| - 1]) && ss[|ss| - 1] + REORDER_TOLERANCE >= Newest(ss[..|ss| - 1]))
  }

  /** Numbers that were the newest when they arrived. */
  function Records(ss: seq<nat>): set<nat>
    requires ss != []
  {
    if |ss| == 1 then {ss[0]}
    else
      var front, s := ss[..|ss| - 1], ss[|ss| - 1];
      if s > Newest(front) then Records(front) + {s} else Records(front)
  }

  function Between(lo: nat, hi: nat): (ns: set<nat>)
    ensures forall n: nat :: n in ns <==> lo < n < hi
    ensures lo < hi ==> |ns| == hi - lo - 1
    decreases hi
  {
    if hi <= lo + 1 then {} else Between(lo, hi - 1) + {hi - 1}
  }

  /** Numbers jumped over between the first and the newest. */
  function Skipped(ss: seq<nat>): set<nat>
    requires ss != []
  {
    Between(ss[0], Newest(ss)) - Records(ss)
  }

  /** Losses beyond the limit per jump. */
  function Excess(ss: seq<nat>): nat
    requires ss != []
  {
    if |ss| == 1 then 0
    else
      var front, s := ss[..|ss| - 1], ss[|ss| - 1];
      Excess(front) + if s > Newest(front) then s - Newest(front) - 1 - LostBetween(Newest(front), s) else 0
  }

  predicate NoWideGap(ss: seq<nat>)
    requires ss != []
  {
    |ss| == 1 || (NoWideGap(ss[..|ss| - 1]) && ss[|ss| - 1] <= Newest(ss[..|ss| - 1]) + MAX_LOST_PER_SAMPLE + 1)
  }

  function Count(ys: seq<real>, y: real): nat {
    if ys == [] then 0 else Count(ys[..|ys| - 1], y) + if ys[|ys| - 1] == y then 1 else 0
  }

  lemma {:induction false} CountConcat(a: seq<real>, b: seq<real>, y: real)
    ensures Count(a + b, y) == Count(a, y) + Count(b, y)
    decreases |b|
  {
    if b == [] {
      assert a + b == a;
    } else {
      assert (a + b)[..|a + b| - 1] == a + b[..|b| - 1];
      CountConcat(a, b[..|b| - 1], y);
    }
  }

  lemma {:induction false} CountOnes(n: nat)
    ensures Count(Ewma.Ones(n), 1.0) == n && Count(Ewma.Ones(n), 0.0) == 0
  {
    if n > 0 {
      assert Ewma.Ones(n)[..n - 1] == Ewma.Ones(n - 1);
      CountOnes(n - 1);
    }
  }

  lemma OneZero()
    ensures Count([0.0], 0.0) == 1 && Count([0.0], 1.0) == 0
  {
    assert [0.0][..0] == [];
  }

  lemma {:induction false} RecordsBounded(ss: seq<nat>)
    requires ss != []
    ensures ss[0] <= Newest(ss) && Newest(ss) in Records(ss)
    ensures forall n :: n in Records(ss) ==> ss[0] <= n <= Newest(ss)
    decreases |ss|
  {
    if |ss| > 1 {
      RecordsBounded(ss[..|ss| - 1]);
    }
  }

  lemma JumpSplits(all: set<nat>, passed: set<nat>, jump: set<nat>, first: nat, newest: nat, s: nat, records: set<nat>)
    requires first <= newest < s && newest in records && forall n :: n in records ==> first <= n <= newest
    requires forall n: nat :: n in all <==> first < n < s
    requires forall n: nat :: n in passed <==> first < n < newest
    requires forall n: nat :: n in jump <==> newest < n < s
    ensures |all - (records + {s})| == |passed - records| + |jump|
  {
    assert all - (records + {s}) == (passed - records) + jump;
    assert (passed - records) !! jump;
  }

  lemma JumpAdds(first: nat, newest: nat, s: nat, records: set<nat>)
    requires first <= newest < s && newest in records && forall n :: n in records ==> first <= n <= newest
    ensures |Between(first, s) - (records + {s})| == |Between(first, newest) - records| + s - newest - 1
  {
    JumpSplits(Between(first, s), Between(first, newest), Between(newest, s), first, newest, s, records);
  }

  lemma SkippedGrow(ss: seq<nat>)
    requires |ss| > 1 && ss[|ss| - 1] > Newest(ss[..|ss| - 1])
    ensures |Skipped(ss)| == |Skipped(ss[..|ss| - 1])| + ss[|ss| - 1] - Newest(ss[..|ss| - 1]) - 1
  {
    RecordsBounded(ss[..|ss| - 1]);
    JumpAdds(ss[0], Newest(ss[..|ss| - 1]), ss[|ss| - 1], Records(ss[..|ss| - 1]));
  }

  lemma SkippedStay(ss: seq<nat>)
    requires |ss| > 1 && ss[|ss| - 1] <= Newest(ss[..|ss| - 1])
    ensures Skipped(ss) == Skipped(ss[..|ss| - 1])
  {
  }

  /** The accounting holds after one more probe. */
  ghost predicate Accounted(ss: seq<nat>, l: Loss)
    requires ss != []
  {
    && l.newest == Some(Newest(ss))
    && |l.observed| + Excess(ss) == Newest(ss) - ss[0] + 1
    && Count(l.observed, 0.0) == |Records(ss)|
    && Count(l.observed, 1.0) + Excess(ss) == |Skipped(ss)|
  }

  lemma FirstAccounted(s: nat)
    ensures Accounted([s], HeardAll([s]))
  {
    assert [s][..0] == [];
    assert HeardAll([s]) == Heard(UNHEARD, s);
    assert Heard(UNHEARD, s).observed == [0.0];
    OneZero();
    assert Skipped([s]) == {};
  }

  lemma NewerAccounted(ss: seq<nat>, l: Loss)
    requires |ss| > 1 && ss[|ss| - 1] > Newest(ss[..|ss| - 1]) && Accounted(ss[..|ss| - 1], l)
    ensures Accounted(ss, Heard(l, ss[|ss| - 1]))
  {
    var front, s := ss[..|ss| - 1], ss[|ss| - 1];
    var lost := LostBetween(Newest(front), s);
    RecordsBounded(front);
    SkippedGrow(ss);
    forall y: real
      ensures Count(l.observed + Ewma.Ones(lost) + [0.0], y) == Count(l.observed, y) + Count(Ewma.Ones(lost), y) + Count([0.0], y)
    {
      CountConcat(l.observed + Ewma.Ones(lost), [0.0], y);
      CountConcat(l.observed, Ewma.Ones(lost), y);
    }
    CountOnes(lost);
    OneZero();
  }

  /** Within one epoch, whatever arrives late or twice: every number from the first to the newest is
      observed once, except those lost beyond the limit of a jump; the zeros are the numbers that were
      newest on arrival, and the ones are the numbers jumped over. */
  lemma {:induction false} LossIsConserved(ss: seq<nat>)
    requires ss != [] && Epoch(ss)
    ensures Accounted(ss, HeardAll(ss))
    decreases |ss|
  {
    if |ss| == 1 {
      FirstAccounted(ss[0]);
      assert ss == [ss[0]];
    } else {
      var front := ss[..|ss| - 1];
      LossIsConserved(front);
      if ss[|ss| - 1] > Newest(front) {
        NewerAccounted(ss, HeardAll(front));
      } else {
        SkippedStay(ss);
      }
    }
  }

  lemma {:induction false} ExcessIff(ss: seq<nat>)
    requires ss != []
    ensures Excess(ss) == 0 <==> NoWideGap(ss)
    decreases |ss|
  {
    if |ss| > 1 {
      ExcessIff(ss[..|ss| - 1]);
    }
  }

  /** Observations equal the numbers from first to newest exactly when no jump exceeds the limit. */
  lemma ObservedAllIff(ss: seq<nat>)
    requires ss != [] && Epoch(ss)
    ensures |HeardAll(ss).observed| == Newest(ss) - ss[0] + 1 <==> NoWideGap(ss)
  {
    LossIsConserved(ss);
    ExcessIff(ss);
  }

  function HeardFrom(l: Loss, ss: seq<nat>): Loss {
    if ss == [] then l else Heard(HeardFrom(l, ss[..|ss| - 1]), ss[|ss| - 1])
  }

  lemma HeardOnTop(earlier: seq<real>, m: Loss, s: nat)
    requires m.newest.Some?
    ensures Heard(Loss(m.newest, earlier + m.observed), s) == Loss(Heard(m, s).newest, earlier + Heard(m, s).observed)
  {
    if s > m.newest.value {
      var lost := Ewma.Ones(LostBetween(m.newest.value, s));
      assert earlier + m.observed + lost + [0.0] == earlier + (m.observed + lost + [0.0]);
    } else if m.newest.value - s > REORDER_TOLERANCE {
      assert earlier + m.observed + [0.0] == earlier + (m.observed + [0.0]);
    }
  }

  /** A later epoch, begun by a number far behind the newest, adds its own account to what was
      observed before. */
  lemma {:induction false} EpochsAddUp(l: Loss, ss: seq<nat>)
    requires ss != [] && Epoch(ss)
    requires l.newest.Some? ==> l.newest.value > ss[0] + REORDER_TOLERANCE
    ensures HeardFrom(l, ss) == Loss(HeardAll(ss).newest, l.observed + HeardAll(ss).observed)
    decreases |ss|
  {
    var front, s := ss[..|ss| - 1], ss[|ss| - 1];
    if |ss| == 1 {
      assert front == [] && HeardFrom(l, front) == l && HeardAll(front) == UNHEARD;
      assert Heard(UNHEARD, s).observed == [0.0];
    } else {
      EpochsAddUp(l, front);
      LossIsConserved(front);
      HeardOnTop(l.observed, HeardAll(front), s);
    }
  }

  predicate ZerosAndOnes(ys: seq<real>) {
    forall i :: 0 <= i < |ys| ==> ys[i] == 0.0 || ys[i] == 1.0
  }

  lemma {:induction false} ObservedZerosAndOnes(ss: seq<nat>)
    ensures ZerosAndOnes(HeardAll(ss).observed) && (ss != [] ==> HeardAll(ss).observed != [])
    decreases |ss|
  {
    if ss != [] {
      ObservedZerosAndOnes(ss[..|ss| - 1]);
      NewestKnown(ss[..|ss| - 1]);
    }
  }

  lemma {:induction false} NewestKnown(ss: seq<nat>)
    ensures HeardAll(ss).newest.None? ==> ss == []
    decreases |ss|
  {
    if ss != [] {
      NewestKnown(ss[..|ss| - 1]);
    }
  }

  /** Over any arrivals at all, restarts included, the loss average stays a probability. */
  lemma LossIsAProbability(ss: seq<nat>, alpha: real)
    requires ss != [] && Ewma.Usable(alpha)
    ensures 0.0 <= Ewma.Mean(alpha, HeardAll(ss).observed) <= 1.0
  {
    ObservedZerosAndOnes(ss);
    Ewma.MeanWithin(alpha, HeardAll(ss).observed, 0.0, 1.0);
  }

  // ---------- The handler ----------

  /** Timestamps in nanoseconds. */
  datatype StampResult = StampResult(isSender: bool, sequence: Option<nat>, sent: Option<int>, received: Option<int>)

  predicate Usable(p: StampResult) {
    p.sequence.Some? && p.sent.Some? && p.received.Some? && p.received.value >= p.sent.value
  }

  /** Whole microseconds, as milliseconds. */
  function DurationMs(p: StampResult): real
    requires Usable(p)
  {
    ((p.received.value - p.sent.value) / 1000) as real / 1000.0
  }

  /** A duration is in milliseconds and loses less than a microsecond of the nanoseconds measured. */
  lemma DurationIs(p: StampResult)
    requires Usable(p)
    ensures var ns := (p.received.value - p.sent.value) as real;
            0.0 <= ns - 1000000.0 * DurationMs(p) < 1000.0
  {
    var d := p.received.value - p.sent.value;
    assert d == 1000 * (d / 1000) + d % 1000;
  }

  const LATENCY_ALPHA := 0.3
  const LOSS_ALPHA := 0.05
  const EPSILON := 0.000001

  class EdgeTelemetry {
    const latency: Ewma.Ewma
    const loss: Ewma.Ewma
    var newest: Option<nat>

    ghost predicate Valid()
      reads this, latency, loss
    {
      latency != loss && latency.Valid() && loss.Valid() && loss.alpha == LOSS_ALPHA
    }

    ghost function Now(): Loss
      reads this, loss
    {
      Loss(newest, loss.samples)
    }

    constructor ()
      ensures Valid() && Now() == UNHEARD && latency.samples == [] && fresh(latency) && fresh(loss)
    {
      latency := new Ewma.Ewma(LATENCY_ALPHA, EPSILON);
      loss := new Ewma.Ewma(LOSS_ALPHA, EPSILON);
      newest := None;
    }

    method ObserveLost(n: nat)
      requires Valid()
      modifies loss
      ensures Valid() && loss.samples == old(loss.samples) + Ewma.Ones(n)
      ensures latency.samples == old(latency.samples)
    {
      var i := 0;
      while i < n
        invariant 0 <= i <= n && Valid()
        invariant loss.samples == old(loss.samples) + Ewma.Ones(i)
        invariant latency.samples == old(latency.samples)
      {
        loss.Observe(1.0);
        assert Ewma.Ones(i + 1) == Ewma.Ones(i) + [1.0];
        i := i + 1;
      }
    }

    /** The loss part of `handleSTAMP`. */
    method Account(s: nat)
      requires Valid()
      modifies this, loss
      ensures Valid() && Now() == Heard(old(Now()), s)
      ensures latency.samples == old(latency.samples)
    {
      if newest.None? {
        loss.Observe(0.0);
        newest := Some(s);
      } else if s > newest.value {
        ObserveLost(LostBetween(newest.value, s));
        loss.Observe(0.0);
        newest := Some(s);
      } else if newest.value - s > REORDER_TOLERANCE {
        loss.Observe(0.0);
        newest := Some(s);
      }
    }

    /** `handleSTAMP` for one edge: sender echoes are skipped, unusable results refused without
        effect. A usable result is observed before its sample is stored, so it counts even when the
        database fails and an error is returned. */
    method Handle(p: StampResult, stored: bool) returns (ok: bool)
      requires Valid()
      modifies this, latency, loss
      ensures Valid()
      ensures ok <==> p.isSender || (Usable(p) && stored)
      ensures p.isSender || !Usable(p) ==> Now() == old(Now()) && latency.samples == old(latency.samples)
      ensures !p.isSender && Usable(p) ==>
                Now() == Heard(old(Now()), p.sequence.value) && latency.samples == old(latency.samples) + [DurationMs(p)]
    {
      if p.isSender {
        return true;
      }
      if p.sequence.None? || p.sent.None? || p.received.None? {
        return false;
      }
      if p.received.value < p.sent.value {
        return false;
      }
      latency.Observe(DurationMs(p));
      Account(p.sequence.value);
      ok := stored;
    }
  }
}
