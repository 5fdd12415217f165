/** Where every field stands on the wire, octet by octet, and which keys are text. */
module StampLayout {
  import opened Topology
  import opened Bytes
  import opened Framing
  import opened Stamp
  import opened StampCodec

  // ---------- Packets ----------

  /** The most significant octet comes first. */
  predicate Has16(b: seq<byte>, i: nat, x: int) {
    i + 2 <= |b| && x == 256 * (b[i] as int) + b[i + 1] as int
  }

  predicate Has32(b: seq<byte>, i: nat, x: int) {
    i + 4 <= |b| && x == 16777216 * (b[i] as int) + 65536 * (b[i + 1] as int) + 256 * (b[i + 2] as int) + b[i + 3] as int
  }

  predicate ZeroFrom(b: seq<byte>, i: nat, n: nat) {
    i + n <= |b| && forall j :: i <= j < i + n ==> b[j] == 0
  }

  lemma Word16Is(b: seq<byte>, i: nat)
    requires i + 2 <= |b|
    ensures Has16(b, i, Word16At(b, i))
  {
  }

  lemma Word32Is(b: seq<byte>, i: nat)
    requires i + 4 <= |b|
    ensures Has32(b, i, Word32At(b, i))
  {
    var w := b[i..i + 4];
    assert w[..2] == b[i..i + 2] && w[2..] == b[i + 2..i + 4];
  }

  lemma TimestampIs(b: seq<byte>, i: nat)
    requires i + 8 <= |b|
    ensures Has32(b, i, TimestampAt(b, i).seconds) && Has32(b, i + 4, TimestampAt(b, i).fraction)
  {
    Word32Is(b, i);
    Word32Is(b, i + 4);
  }

  /** The fields both packets start with, in the places of section 4.2.1 of RFC 8762, with the session
      identifier of RFC 8972. */
  ghost predicate HeadLayout(b: seq<byte>, sequence: int, t: Timestamp, errorEstimate: int, ssid: int) {
    && Has32(b, 0, sequence) && Has32(b, 4, t.seconds) && Has32(b, 8, t.fraction)
    && Has16(b, 12, errorEstimate) && Has16(b, 14, ssid)
  }

  lemma HeadIs(b: seq<byte>)
    requires |b| >= 16
    ensures HeadLayout(b, Word32At(b, 0), TimestampAt(b, 4), Word16At(b, 12), Word16At(b, 14))
  {
    Word32Is(b, 0);
    TimestampIs(b, 4);
    Word16Is(b, 12);
    Word16Is(b, 14);
  }

  lemma HeadStands(sequence: Word32, t: Timestamp, errorEstimate: Word16, ssid: Word16, rest: seq<byte>, b: seq<byte>)
    requires b == Head(sequence, t, errorEstimate, ssid) + rest
    ensures HeadLayout(b, sequence, t, errorEstimate, ssid)
  {
    HeadBack(sequence, t, errorEstimate, ssid, rest);
    HeadIs(b);
  }

  lemma ZerosStand(h: seq<byte>, n: nat, rest: seq<byte>, b: seq<byte>)
    requires b == h + (Zeros(n) + rest)
    ensures ZeroFrom(b, |h|, n)
  {
  }

  /** A sender packet: the head, 28 zeros, the extensions. */
  lemma SenderLayout(p: SenderPacket)
    requires MayEncode(p.extensions)
    ensures var b := SenderBase(p) + Region(p.extensions);
            HeadLayout(b, p.sequence, p.timestamp, p.errorEstimate, p.ssid) && ZeroFrom(b, 16, 28) && b[44..] == Region(p.extensions)
  {
    var h, ext := Head(p.sequence, p.timestamp, p.errorEstimate, p.ssid), Region(p.extensions);
    Parts(h, Zeros(28), ext);
    HeadStands(p.sequence, p.timestamp, p.errorEstimate, p.ssid, Zeros(28) + ext, SenderBase(p) + ext);
    ZerosStand(h, 28, ext, SenderBase(p) + ext);
  }

  lemma Parts(h: seq<byte>, t: seq<byte>, ext: seq<byte>)
    requires |h| == 16 && |t| == 28
    ensures h + t + ext == h + (t + ext) && (h + t + ext)[44..] == ext
  {
  }

  ghost predicate TailLayout(b: seq<byte>, p: ReflectorPacket) {
    && Has32(b, 16, p.receive.seconds) && Has32(b, 20, p.receive.fraction)
    && Has32(b, 24, p.senderSequence)
    && Has32(b, 28, p.senderTimestamp.seconds) && Has32(b, 32, p.senderTimestamp.fraction)
    && Has16(b, 36, p.senderErrorEstimate) && ZeroFrom(b, 38, 2)
    && |b| >= 44 && b[40] == p.senderTtl && ZeroFrom(b, 41, 3)
  }

  lemma TailIs(h: seq<byte>, p: ReflectorPacket, rest: seq<byte>)
    requires |h| == 16
    ensures TailLayout(h + ReflectorTail(p) + rest, p)
  {
    var b := h + ReflectorTail(p) + rest;
    TailBack(h, p, rest);
    TimestampIs(b, 16);
    Word32Is(b, 24);
    TimestampIs(b, 28);
    Word16Is(b, 36);
  }

  /** A reflector packet: the head, what was received and when, the extensions. */
  lemma ReflectorLayout(p: ReflectorPacket)
    requires MayEncode(p.extensions)
    ensures var b := ReflectorBase(p) + Region(p.extensions);
            HeadLayout(b, p.sequence, p.timestamp, p.errorEstimate, p.ssid) && TailLayout(b, p) && b[44..] == Region(p.extensions)
  {
    var h, ext := Head(p.sequence, p.timestamp, p.errorEstimate, p.ssid), Region(p.extensions);
    Parts(h, ReflectorTail(p), ext);
    HeadStands(p.sequence, p.timestamp, p.errorEstimate, p.ssid, ReflectorTail(p) + ext, ReflectorBase(p) + ext);
    TailIs(h, p, ext);
  }

  // ---------- Extensions ----------

  lemma ControlCodeLayout(c: ControlCode)
    ensures Frame(0, ControlCodeTlv(c)) == [0, 1, 0, 4, 0, 0, 0, if c.requestReply then 1 else 0]
  {
    assert Be32(0) == [0, 0, 0, 0] && Be32(1) == [0, 0, 0, 1];
  }

  /** Return path 10, holding control code 1: one bit at the end of four octets. */
  lemma ReturnPathLayout(c: ControlCode)
    ensures Frame(0, ReturnPathTlv(ReturnPath(Some(c)))) == [0, 10, 0, 8] + [0, 1, 0, 4, 0, 0, 0, if c.requestReply then 1 else 0]
    ensures Frame(0, ReturnPathTlv(ReturnPath(None))) == [0, 10, 0, 0]
  {
    ControlCodeLayout(c);
    assert Be16(8) == [0, 8] && Be16(0) == [0, 0];
  }

  /** Container 250, holding telemetry key 1; each length counts the octets after it. */
  lemma ContainerLayout(key: seq<byte>)
    requires |key| + 4 <= 0xFFFF
    ensures var b := Frame(0, ContainerTlv(Container(Some(key))));
            && |b| == 8 + |key| && b[8..] == key
            && b[0] == 0 && b[1] == 250 && Has16(b, 2, 4 + |key|)
            && b[4] == 0 && b[5] == 1 && Has16(b, 6, |key|)
  {
    var inner := Frame(0, Tlv(TELEMETRY_KEY, key));
    assert Be16(|key|)[0] == inner[2] && Be16(|key|)[1] == inner[3] && inner[4..] == key;
    var b := Frame(0, ContainerTlv(Container(Some(key))));
    assert b == [0, 250] + Be16(4 + |key|) + inner;
    assert b[4..] == inner && b[8..] == inner[4..];
    assert b[6] == inner[2] && b[7] == inner[3];
  }

  // ---------- Text ----------

  /** Code points other than surrogates. */
  type Scalar = c: int | 0 <= c < 0xD800 || 0xE000 <= c <= 0x10FFFF

  function Tail(x: int): byte {
    (0x80 + x % 0x40) as byte
  }

  /** The table in section 3 of RFC 3629. */
  function Rune(c: Scalar): seq<byte> {
    if c < 0x80 then [c as byte]
    else if c < 0x800 then [(0xC0 + c / 0x40) as byte, Tail(c)]
    else if c < 0x1_0000 then [(0xE0 + c / 0x1000) as byte, Tail(c / 0x40), Tail(c)]
    else [(0xF0 + c / 0x4_0000) as byte, Tail(c / 0x1000), Tail(c / 0x40), Tail(c)]
  }

  function Text(cs: seq<Scalar>): seq<byte> {
    if cs == [] then [] else Rune(cs[0]) + Text(cs[1..])
  }

  lemma RuneIsRead(c: Scalar, rest: seq<byte>)
    ensures RuneLength(Rune(c) + rest) == |Rune(c)|
  {
    var b := Rune(c) + rest;
    if c < 0x80 {
    } else if c < 0x800 {
      assert 2 <= c / 0x40 < 0x20;
    } else if c < 0x1_0000 {
      ThreeOctets(c);
    } else {
      FourOctets(c);
    }
  }

  lemma ThreeOctets(c: Scalar)
    requires 0x800 <= c < 0x1_0000
    ensures c / 0x1000 <= 15
    ensures c / 0x1000 == 0 ==> c / 0x40 % 0x40 >= 0x20
    ensures c / 0x1000 == 13 ==> c / 0x40 % 0x40 < 0x20
  {
    assert c / 0x40 == 0x40 * (c / 0x1000) + c / 0x40 % 0x40;
  }

  lemma FourOctets(c: Scalar)
    requires 0x1_0000 <= c
    ensures c / 0x4_0000 <= 4
    ensures c / 0x4_0000 == 0 ==> c / 0x1000 % 0x40 >= 0x10
    ensures c / 0x4_0000 == 4 ==> c / 0x1000 % 0x40 < 0x10
  {
    assert c / 0x1000 == 0x40 * (c / 0x4_0000) + c / 0x1000 % 0x40;
  }

  /** The code point that well-formed octets stand for. */
  lemma ReadIsRune(b: seq<byte>) returns (c: Scalar)
    requires b != [] && RuneLength(b) > 0
    ensures b[..RuneLength(b)] == Rune(c)
  {
    var n, x := RuneLength(b), b[0] as int;
    if n == 1 {
      c := x;
    } else if n == 2 {
      c := 0x40 * (x - 0xC0) + (b[1] as int - 0x80);
    } else if n == 3 {
      c := Three(x - 0xE0, b[1] as int - 0x80, b[2] as int - 0x80);
    } else {
      c := Four(x - 0xF0, b[1] as int - 0x80, b[2] as int - 0x80, b[3] as int - 0x80);
    }
  }

  lemma Three(x: int, y: int, z: int) returns (c: Scalar)
    requires 0 <= x < 16 && 0 <= y < 0x40 && 0 <= z < 0x40 && (x == 0 ==> y >= 0x20) && (x == 13 ==> y < 0x20)
    ensures Rune(c) == [(0xE0 + x) as byte, (0x80 + y) as byte, (0x80 + z) as byte]
  {
    c := 0x1000 * x + 0x40 * y + z;
    assert c / 0x40 == 0x40 * x + y && c / 0x1000 == x;
  }

  lemma Four(x: int, y: int, z: int, w: int) returns (c: Scalar)
    requires 0 <= x < 5 && 0 <= y < 0x40 && 0 <= z < 0x40 && 0 <= w < 0x40 && (x == 0 ==> y >= 0x10) && (x == 4 ==> y < 0x10)
    ensures Rune(c) == [(0xF0 + x) as byte, (0x80 + y) as byte, (0x80 + z) as byte, (0x80 + w) as byte]
  {
    c := 0x4_0000 * x + 0x1000 * y + 0x40 * z + w;
    assert c / 0x40 == 0x1000 * x + 0x40 * y + z && c / 0x1000 == 0x40 * x + y && c / 0x4_0000 == x;
  }

  lemma {:induction false} TextIsUtf8(cs: seq<Scalar>)
    ensures Utf8(Text(cs))
  {
    if cs != [] {
      TextIsUtf8(cs[1..]);
      RuneIsRead(cs[0], Text(cs[1..]));
      assert Text(cs)[|Rune(cs[0])|..] == Text(cs[1..]);
    }
  }

  lemma {:induction false} Utf8IsText(b: seq<byte>) returns (cs: seq<Scalar>)
    requires Utf8(b)
    ensures Text(cs) == b
    decreases |b|
  {
    if b == [] {
      cs := [];
    } else {
      var c := ReadIsRune(b);
      var rest := Utf8IsText(b[RuneLength(b)..]);
      cs := [c] + rest;
      assert cs[1..] == rest;
      assert b == b[..RuneLength(b)] + b[RuneLength(b)..];
    }
  }

  /** A key is accepted exactly when its octets encode some sequence of code points. */
  lemma Utf8Iff(b: seq<byte>)
    ensures Utf8(b) <==> exists cs :: Text(cs) == b
  {
    if Utf8(b) {
      var cs := Utf8IsText(b);
    }
    forall cs | Text(cs) == b
      ensures Utf8(b)
    {
      TextIsUtf8(cs);
    }
  }
}
