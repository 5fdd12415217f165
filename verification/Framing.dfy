/** Type-length-value regions: flags, type, 16-bit length, value, one after the other. */
module Framing {
  import opened Topology
  import opened Bytes

  datatype Tlv = Tlv(kind: byte, value: seq<byte>)

  const HEADER := 4
  const MAX_LENGTH := 0xFFFF

  function Frame(flags: byte, t: Tlv): (b: seq<byte>)
    requires |t.value| <= MAX_LENGTH
    ensures |b| == HEADER + |t.value|
  {
    [flags, t.kind] + Be16(|t.value|) + t.value
  }

  /** The first element of a region, if its header and value are all there. */
  function First(b: seq<byte>): (t: Option<Tlv>)
    ensures t.Some? ==> |t.value.value| <= MAX_LENGTH && HEADER + |t.value.value| <= |b|
  {
    if |b| < HEADER then None
    else
      var n := FromBe16(b[2..4]);
      if HEADER + n > |b| then None else Some(Tlv(b[1], b[HEADER..HEADER + n]))
  }

  lemma FirstOfFrame(flags: byte, t: Tlv, rest: seq<byte>)
    requires |t.value| <= MAX_LENGTH
    ensures First(Frame(flags, t) + rest) == Some(t)
    ensures (Frame(flags, t) + rest)[HEADER + |t.value|..] == rest
  {
    var b := Frame(flags, t) + rest;
    assert b[2..4] == Be16(|t.value|);
    assert b[HEADER..HEADER + |t.value|] == t.value;
  }

  /** A region as the list of its elements. */
  function Parse(b: seq<byte>): Option<seq<Tlv>> {
    if b == [] then Some([])
    else
      match First(b)
      case None => None
      case Some(t) =>
        match Parse(b[HEADER + |t.value|..])
        case None => None
        case Some(ts) => Some([t] + ts)
  }

  /** What a handler makes of a list of elements. */
  function Fold<A>(ts: seq<Tlv>, acc: A, step: (A, Tlv) -> Option<A>): Option<A> {
    if ts == [] then Some(acc)
    else
      match step(acc, ts[0])
      case None => None
      case Some(a) => Fold(ts[1..], a, step)
  }

  /** One pass over a region: the cursor loop of the decoders. */
  function Scan<A>(b: seq<byte>, acc: A, step: (A, Tlv) -> Option<A>): Option<A> {
    if b == [] then Some(acc)
    else
      match First(b)
      case None => None
      case Some(t) =>
        match step(acc, t)
        case None => None
        case Some(a) => Scan(b[HEADER + |t.value|..], a, step)
  }

  /** Scanning succeeds exactly when the whole region parses and every element is accepted in turn. */
  lemma {:induction false} ScanIsParseThenFold<A>(b: seq<byte>, acc: A, step: (A, Tlv) -> Option<A>)
    ensures Scan(b, acc, step) == match Parse(b) case None => None case Some(ts) => Fold(ts, acc, step)
    decreases |b|
  {
    if b != [] && First(b).Some? {
      var t := First(b).value;
      var rest := b[HEADER + |t.value|..];
      if step(acc, t).Some? {
        ScanIsParseThenFold(rest, step(acc, t).value, step);
      }
      if Parse(rest).Some? {
        assert ([t] + Parse(rest).value)[1..] == Parse(rest).value;
      }
    }
  }

  lemma FirstOfConcat(x: seq<byte>, y: seq<byte>)
    requires First(x).Some?
    ensures First(x + y) == First(x)
    ensures var n := HEADER + |First(x).value.value|; (x + y)[n..] == x[n..] + y
  {
    var n := HEADER + |First(x).value.value|;
    assert (x + y)[2..4] == x[2..4];
    assert (x + y)[HEADER..n] == x[HEADER..n];
  }

  function Then(a: Option<seq<Tlv>>, b: Option<seq<Tlv>>): Option<seq<Tlv>> {
    if a.None? || b.None? then None else Some(a.value + b.value)
  }

  lemma ThenIsAssociative(a: Option<seq<Tlv>>, b: Option<seq<Tlv>>, c: Option<seq<Tlv>>)
    ensures Then(Then(a, b), c) == Then(a, Then(b, c))
  {
    if a.Some? && b.Some? && c.Some? {
      assert (a.value + b.value) + c.value == a.value + (b.value + c.value);
    }
  }

  /** Regions that parse can be put one after the other. */
  lemma {:induction false} ParseConcat(x: seq<byte>, y: seq<byte>)
    requires Parse(x).Some?
    ensures Parse(x + y) == Then(Parse(x), Parse(y))
    decreases |x|
  {
    if x == [] {
      assert x + y == y;
      assert Parse(y).Some? ==> [] + Parse(y).value == Parse(y).value;
    } else {
      var t := First(x).value;
      var rest := x[HEADER + |t.value|..];
      FirstOfConcat(x, y);
      ParseMore(x + y, t, rest + y);
      ParseMore(x, t, rest);
      ParseConcat(rest, y);
      ThenIsAssociative(Some([t]), Parse(rest), Parse(y));
    }
  }

  lemma ParseMore(b: seq<byte>, t: Tlv, rest: seq<byte>)
    requires First(b) == Some(t) && b[HEADER + |t.value|..] == rest
    ensures Parse(b) == Then(Some([t]), Parse(rest))
  {
  }

  lemma ParseFrame(flags: byte, t: Tlv)
    requires |t.value| <= MAX_LENGTH
    ensures Parse(Frame(flags, t)) == Some([t])
  {
    var b := Frame(flags, t);
    assert b + [] == b;
    FirstOfFrame(flags, t, []);
    assert Parse(b[HEADER + |t.value|..]) == Some([]);
    assert [t] + [] == [t];
  }

  lemma {:induction false} FoldConcat<A>(xs: seq<Tlv>, ys: seq<Tlv>, acc: A, step: (A, Tlv) -> Option<A>)
    ensures Fold(xs + ys, acc, step) == match Fold(xs, acc, step) case None => None case Some(a) => Fold(ys, a, step)
    decreases |xs|
  {
    if xs == [] {
      assert xs + ys == ys;
    } else {
      assert (xs + ys)[1..] == xs[1..] + ys;
      if step(acc, xs[0]).Some? {
        FoldConcat(xs[1..], ys, step(acc, xs[0]).value, step);
      }
    }
  }

  /** An element the handler ignores can stand at any boundary. */
  lemma IgnoredElement<A(!new)>(x: seq<byte>, flags: byte, t: Tlv, y: seq<byte>, acc: A, step: (A, Tlv) -> Option<A>)
    requires Parse(x).Some? && |t.value| <= MAX_LENGTH
    requires forall a :: step(a, t) == Some(a)
    ensures Scan(x + Frame(flags, t) + y, acc, step) == Scan(x + y, acc, step)
  {
    var xs := Parse(x).value;
    ScanIsParseThenFold(x + Frame(flags, t) + y, acc, step);
    ScanIsParseThenFold(x + y, acc, step);
    assert x + Frame(flags, t) + y == x + (Frame(flags, t) + y);
    ParseConcat(x, Frame(flags, t) + y);
    ParseFrame(flags, t);
    ParseConcat(Frame(flags, t), y);
    ParseConcat(x, y);
    if Parse(y).Some? {
      var ys := Parse(y).value;
      FoldConcat(xs, [t] + ys, acc, step);
      FoldConcat(xs, ys, acc, step);
      if Fold(xs, acc, step).Some? {
        assert ([t] + ys)[1..] == ys;
      }
    }
  }

  /** What every accepted element keeps, a scan keeps. */
  lemma {:induction false} ScanKeeps<A(!new)>(b: seq<byte>, acc: A, step: (A, Tlv) -> Option<A>, holds: A -> bool)
    requires holds(acc) && Scan(b, acc, step).Some?
    requires forall a, t: Tlv :: holds(a) && HEADER + |t.value| <= |b| && |t.value| <= MAX_LENGTH && step(a, t).Some? ==> holds(step(a, t).value)
    ensures holds(Scan(b, acc, step).value)
    decreases |b|
  {
    if b != [] {
      var t := First(b).value;
      ScanKeeps(b[HEADER + |t.value|..], step(acc, t).value, step, holds);
    }
  }

  /** One turn of a cursor loop: the header it stands on, in place. */
  lemma ScanAt<A>(b: seq<byte>, cursor: nat, acc: A, step: (A, Tlv) -> Option<A>)
    requires cursor + HEADER <= |b|
    ensures var n := FromBe16(b[cursor + 2..cursor + 4]);
            Scan(b[cursor..], acc, step) ==
            if cursor + HEADER + n > |b| then None
            else
              match step(acc, Tlv(b[cursor + 1], b[cursor + HEADER..cursor + HEADER + n]))
              case None => None
              case Some(a) => Scan(b[cursor + HEADER + n..], a, step)
  {
    var c := b[cursor..];
    assert c[2..4] == b[cursor + 2..cursor + 4];
    var n := FromBe16(b[cursor + 2..cursor + 4]);
    if cursor + HEADER + n <= |b| {
      assert c[HEADER..HEADER + n] == b[cursor + HEADER..cursor + HEADER + n];
      assert c[HEADER + n..] == b[cursor + HEADER + n..];
    }
  }

  /** Where a cursor loop stands: the rest of the region is still to be scanned. */
  ghost predicate Reached<A>(b: seq<byte>, start: A, step: (A, Tlv) -> Option<A>, cursor: nat, acc: A) {
    cursor <= |b| && Scan(b, start, step) == Scan(b[cursor..], acc, step)
  }

  lemma AtStart<A>(b: seq<byte>, start: A, step: (A, Tlv) -> Option<A>)
    ensures Reached(b, start, step, 0, start)
  {
    assert b[0..] == b;
  }

  lemma AtEnd<A>(b: seq<byte>, start: A, step: (A, Tlv) -> Option<A>, acc: A)
    requires Reached(b, start, step, |b|, acc)
    ensures Scan(b, start, step) == Some(acc)
  {
    assert b[|b|..] == [];
  }

  lemma TooShort<A>(b: seq<byte>, start: A, step: (A, Tlv) -> Option<A>, cursor: nat, acc: A)
    requires Reached(b, start, step, cursor, acc) && 0 < |b| - cursor
    requires |b| - cursor < HEADER || cursor + HEADER + FromBe16(b[cursor + 2..cursor + 4]) > |b|
    ensures Scan(b, start, step) == None
  {
    if |b| - cursor >= HEADER {
      ScanAt(b, cursor, acc, step);
    }
  }

  lemma OneTurn<A>(b: seq<byte>, start: A, step: (A, Tlv) -> Option<A>, cursor: nat, acc: A, n: nat, next: Option<A>)
    requires Reached(b, start, step, cursor, acc) && cursor + HEADER + n <= |b| && n == FromBe16(b[cursor + 2..cursor + 4])
    requires next == step(acc, Tlv(b[cursor + 1], b[cursor + HEADER..cursor + HEADER + n]))
    ensures next.None? ==> Scan(b, start, step) == None
    ensures next.Some? ==> Reached(b, start, step, cursor + HEADER + n, next.value)
  {
    ScanAt(b, cursor, acc, step);
  }
}
