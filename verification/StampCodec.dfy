/** The encoders and decoders of STAMP packets, against their wire form. */
module StampCodec {
  import opened Topology
  import opened Bytes
  import opened Framing
  import opened Stamp

  // ---------- Packets ----------

  datatype Timestamp = Timestamp(seconds: Word32, fraction: Word32)

  datatype SenderPacket = SenderPacket(
    sequence: Word32, timestamp: Timestamp, errorEstimate: Word16, ssid: Word16, extensions: Option<Extensions>)

  datatype ReflectorPacket = ReflectorPacket(
    sequence: Word32, timestamp: Timestamp, errorEstimate: Word16, ssid: Word16, receive: Timestamp,
    senderSequence: Word32, senderTimestamp: Timestamp, senderErrorEstimate: Word16, senderTtl: byte, extensions: Option<Extensions>)

  const BASE := 44

  function Zeros(n: nat): (b: seq<byte>)
    ensures |b| == n
  {
    seq(n, _ => 0)
  }

  function Stamped(t: Timestamp): (b: seq<byte>)
    ensures |b| == 8
  {
    Be32(t.seconds) + Be32(t.fraction)
  }

  /** The fields both packets start with. */
  function Head(sequence: Word32, t: Timestamp, errorEstimate: Word16, ssid: Word16): (b: seq<byte>)
    ensures |b| == 16
  {
    Be32(sequence) + Stamped(t) + Be16(errorEstimate) + Be16(ssid)
  }

  function SenderBase(p: SenderPacket): (b: seq<byte>)
    ensures |b| == BASE
  {
    Head(p.sequence, p.timestamp, p.errorEstimate, p.ssid) + Zeros(28)
  }

  function ReflectorTail(p: ReflectorPacket): (b: seq<byte>)
    ensures |b| == 28
  {
    Stamped(p.receive) + Be32(p.senderSequence) + Stamped(p.senderTimestamp) + Be16(p.senderErrorEstimate) +
    Zeros(2) + [p.senderTtl] + Zeros(3)
  }

  function ReflectorBase(p: ReflectorPacket): (b: seq<byte>)
    ensures |b| == BASE
  {
    Head(p.sequence, p.timestamp, p.errorEstimate, p.ssid) + ReflectorTail(p)
  }

  predicate MayEncode(e: Option<Extensions>) {
    e.Some? ==> Encodable(e.value)
  }

  function Region(e: Option<Extensions>): seq<byte>
    requires MayEncode(e)
  {
    if e.None? then [] else Wire(e.value)
  }

  function Word32At(b: seq<byte>, i: nat): Word32
    requires i + 4 <= |b|
  {
    FromBe32(b[i..i + 4])
  }

  function Word16At(b: seq<byte>, i: nat): Word16
    requires i + 2 <= |b|
  {
    FromBe16(b[i..i + 2])
  }

  function TimestampAt(b: seq<byte>, i: nat): Timestamp
    requires i + 8 <= |b|
  {
    Timestamp(Word32At(b, i), Word32At(b, i + 4))
  }

  function SenderOf(b: seq<byte>): Option<SenderPacket> {
    if |b| < BASE || ExtensionsOf(b[BASE..]).None? then None
    else Some(SenderPacket(Word32At(b, 0), TimestampAt(b, 4), Word16At(b, 12), Word16At(b, 14), ExtensionsOf(b[BASE..]).value))
  }

  function ReflectorOf(b: seq<byte>): Option<ReflectorPacket> {
    if |b| < BASE || ExtensionsOf(b[BASE..]).None? then None
    else Some(ReflectorPacket(Word32At(b, 0), TimestampAt(b, 4), Word16At(b, 12), Word16At(b, 14), TimestampAt(b, 16),
                              Word32At(b, 24), TimestampAt(b, 28), Word16At(b, 36), b[40], ExtensionsOf(b[BASE..]).value))
  }

  // ---------- Round trips ----------

  /** What decoding makes of encoded extensions: an empty set becomes none. */
  function Returned(e: Option<Extensions>): Option<Extensions> {
    if e.None? then None else Normal(e.value)
  }

  predicate IsText(e: Option<Extensions>) {
    e.Some? ==> KeyIsText(e.value)
  }

  lemma RegionBack(e: Option<Extensions>)
    requires MayEncode(e)
    ensures ExtensionsOf(Region(e)) == if IsText(e) then Some(Returned(e)) else None
  {
    if e.Some? {
      ExtensionsBack(e.value);
    }
  }

  lemma StampedBack(a: seq<byte>, t: Timestamp, rest: seq<byte>)
    ensures TimestampAt(a + Stamped(t) + rest, |a|) == t
  {
    var b := a + Stamped(t) + rest;
    assert b[|a|..|a| + 4] == Be32(t.seconds);
    assert b[|a| + 4..|a| + 8] == Be32(t.fraction);
  }

  lemma HeadBack(sequence: Word32, t: Timestamp, errorEstimate: Word16, ssid: Word16, rest: seq<byte>)
    ensures var b := Head(sequence, t, errorEstimate, ssid) + rest;
            Word32At(b, 0) == sequence && TimestampAt(b, 4) == t && Word16At(b, 12) == errorEstimate && Word16At(b, 14) == ssid
  {
    var b := Head(sequence, t, errorEstimate, ssid) + rest;
    assert b[0..4] == Be32(sequence);
    assert b[12..14] == Be16(errorEstimate) && b[14..16] == Be16(ssid);
    StampedBack(Be32(sequence), t, Be16(errorEstimate) + Be16(ssid) + rest);
    assert b == Be32(sequence) + Stamped(t) + (Be16(errorEstimate) + Be16(ssid) + rest);
  }

  /** Decoding an encoded sender packet gives it back exactly when its key is UTF-8. */
  lemma SenderBack(p: SenderPacket)
    requires MayEncode(p.extensions)
    ensures SenderOf(SenderBase(p) + Region(p.extensions)) ==
            if IsText(p.extensions) then Some(p.(extensions := Returned(p.extensions))) else None
  {
    var b := SenderBase(p) + Region(p.extensions);
    assert b[BASE..] == Region(p.extensions);
    assert b == Head(p.sequence, p.timestamp, p.errorEstimate, p.ssid) + (Zeros(28) + Region(p.extensions));
    HeadBack(p.sequence, p.timestamp, p.errorEstimate, p.ssid, Zeros(28) + Region(p.extensions));
    RegionBack(p.extensions);
  }

  lemma TailBack(h: seq<byte>, p: ReflectorPacket, rest: seq<byte>)
    requires |h| == 16
    ensures var b := h + ReflectorTail(p) + rest;
            && TimestampAt(b, 16) == p.receive && Word32At(b, 24) == p.senderSequence && TimestampAt(b, 28) == p.senderTimestamp
            && Word16At(b, 36) == p.senderErrorEstimate && b[40] == p.senderTtl
  {
    var b := h + ReflectorTail(p) + rest;
    var end := Be16(p.senderErrorEstimate) + Zeros(2) + [p.senderTtl] + Zeros(3) + rest;
    assert b == h + Stamped(p.receive) + (Be32(p.senderSequence) + Stamped(p.senderTimestamp) + end);
    StampedBack(h, p.receive, Be32(p.senderSequence) + Stamped(p.senderTimestamp) + end);
    assert b == h + Stamped(p.receive) + Be32(p.senderSequence) + Stamped(p.senderTimestamp) + end;
    StampedBack(h + Stamped(p.receive) + Be32(p.senderSequence), p.senderTimestamp, end);
    assert b[24..28] == Be32(p.senderSequence) && b[36..38] == Be16(p.senderErrorEstimate);
  }

  lemma ReflectorBack(p: ReflectorPacket)
    requires MayEncode(p.extensions)
    ensures ReflectorOf(ReflectorBase(p) + Region(p.extensions)) ==
            if IsText(p.extensions) then Some(p.(extensions := Returned(p.extensions))) else None
  {
    var h := Head(p.sequence, p.timestamp, p.errorEstimate, p.ssid);
    var b := ReflectorBase(p) + Region(p.extensions);
    assert b[BASE..] == Region(p.extensions);
    assert b == h + (ReflectorTail(p) + Region(p.extensions));
    HeadBack(p.sequence, p.timestamp, p.errorEstimate, p.ssid, ReflectorTail(p) + Region(p.extensions));
    assert b == h + ReflectorTail(p) + Region(p.extensions);
    TailBack(h, p, Region(p.extensions));
    RegionBack(p.extensions);
  }

  /** Whatever decodes as a sender packet can be sent on, and is then read the same. */
  lemma SenderForwards(b: seq<byte>)
    requires SenderOf(b).Some?
    ensures var p := SenderOf(b).value;
            MayEncode(p.extensions) &&
            SenderOf(SenderBase(p) + Region(p.extensions)) == Some(p.(extensions := Returned(p.extensions)))
  {
    var p := SenderOf(b).value;
    if p.extensions.Some? {
      ExtensionsDecoded(b[BASE..]);
    }
    SenderBack(p);
  }

  // ---------- Encoders ----------

  method EncodeControlCode(c: ControlCode) returns (buf: seq<byte>)
    ensures buf == Frame(0, ControlCodeTlv(c))
  {
    var flag := 0;
    if c.requestReply {
      flag := 1;
    }
    buf := [0, CONTROL_CODE] + Be16(4) + Be32(flag);
  }

  /** Append the parts, then patch the length. */
  method EncodeReturnPath(p: ReturnPath) returns (buf: seq<byte>)
    ensures buf == Frame(0, ReturnPathTlv(p))
  {
    buf := [0, RETURN_PATH, 0, 0];
    var before := |buf|;
    if p.controlCode.Some? {
      var code := EncodeControlCode(p.controlCode.value);
      buf := buf + code;
    }
    buf := buf[..before - 2] + Be16(|buf| - before) + buf[before..];
  }

  method EncodeTelemetryKey(key: seq<byte>) returns (r: Option<seq<byte>>)
    ensures r == if |key| > MAX_LENGTH then None else Some(Frame(0, Tlv(TELEMETRY_KEY, key)))
  {
    if |key| > MAX_LENGTH {
      return None;
    }
    r := Some([0, TELEMETRY_KEY] + Be16(|key|) + key);
  }

  /** Refused when the key, or the key with its header, does not fit into 16 bits of length. */
  method EncodeContainer(c: Container) returns (r: Option<seq<byte>>)
    ensures r.Some? <==> Fits(c)
    ensures r.Some? ==> r.value == Frame(0, ContainerTlv(c))
  {
    var buf := [0, CONTAINER, 0, 0];
    var before := |buf|;
    if c.key.Some? {
      var key := EncodeTelemetryKey(c.key.value);
      if key.None? {
        return None;
      }
      buf := buf + key.value;
    }
    var length := |buf| - before;
    if length > MAX_LENGTH {
      return None;
    }
    r := Some(buf[..2] + Be16(length) + buf[4..]);
  }

  method EncodeExtensions(e: Extensions) returns (r: Option<seq<byte>>)
    ensures r.Some? <==> Encodable(e)
    ensures r.Some? ==> r.value == Wire(e)
  {
    var buf: seq<byte> := [];
    if e.returnPath.Some? {
      var path := EncodeReturnPath(e.returnPath.value);
      buf := buf + path;
    }
    if e.container.Some? {
      var container := EncodeContainer(e.container.value);
      if container.None? {
        return None;
      }
      buf := buf + container.value;
    }
    r := Some(buf);
  }

  method Put32(buf: array<byte>, at: nat, x: Word32)
    requires at + 4 <= buf.Length
    modifies buf
    ensures buf[at..at + 4] == Be32(x)
    ensures forall i :: 0 <= i < at || at + 4 <= i < buf.Length ==> buf[i] == old(buf[i])
  {
    var b := Be32(x);
    buf[at], buf[at + 1], buf[at + 2], buf[at + 3] := b[0], b[1], b[2], b[3];
  }

  method Put16(buf: array<byte>, at: nat, x: Word16)
    requires at + 2 <= buf.Length
    modifies buf
    ensures buf[at..at + 2] == Be16(x)
    ensures forall i :: 0 <= i < at || at + 2 <= i < buf.Length ==> buf[i] == old(buf[i])
  {
    var b := Be16(x);
    buf[at], buf[at + 1] := b[0], b[1];
  }

  /** The first sixteen octets of an empty buffer. */
  method PutHead(buf: array<byte>, sequence: Word32, t: Timestamp, errorEstimate: Word16, ssid: Word16)
    requires buf.Length == BASE
    modifies buf
    ensures buf[..] == Head(sequence, t, errorEstimate, ssid) + old(buf[16..])
  {
    Put32(buf, 0, sequence);
    Put32(buf, 4, t.seconds);
    Put32(buf, 8, t.fraction);
    Put16(buf, 12, errorEstimate);
    Put16(buf, 14, ssid);
    HeadPut(old(buf[..]), buf[..], sequence, t, errorEstimate, ssid);
  }

  lemma HeadPut(b0: seq<byte>, b: seq<byte>, sequence: Word32, t: Timestamp, errorEstimate: Word16, ssid: Word16)
    requires |b0| == |b| == BASE
    requires b[0..4] == Be32(sequence) && b[4..8] == Be32(t.seconds) && b[8..12] == Be32(t.fraction)
    requires b[12..14] == Be16(errorEstimate) && b[14..16] == Be16(ssid)
    requires forall i :: 16 <= i < BASE ==> b[i] == b0[i]
    ensures b == Head(sequence, t, errorEstimate, ssid) + b0[16..]
  {
    assert b[4..12] == b[4..8] + b[8..12];
    assert b[16..] == b0[16..];
    assert b == b[0..4] + b[4..12] + b[12..14] + b[14..16] + b[16..];
  }

  method EncodeSender(p: SenderPacket, authenticated: bool) returns (r: Option<seq<byte>>)
    ensures r.Some? <==> !authenticated && MayEncode(p.extensions)
    ensures r.Some? ==> r.value == SenderBase(p) + Region(p.extensions)
  {
    if authenticated {
      return None;
    }
    var buf := new byte[BASE](_ => 0);
    PutHead(buf, p.sequence, p.timestamp, p.errorEstimate, p.ssid);
    assert buf[..] == SenderBase(p);
    if p.extensions.None? {
      return Some(buf[..]);
    }
    var enc := EncodeExtensions(p.extensions.value);
    if enc.None? {
      return None;
    }
    r := Some(buf[..] + enc.value);
  }

  method PutTail(buf: array<byte>, p: ReflectorPacket)
    requires buf.Length == BASE && buf[16..] == Zeros(28)
    modifies buf
    ensures buf[..] == old(buf[..16]) + ReflectorTail(p)
  {
    Put32(buf, 16, p.receive.seconds);
    Put32(buf, 20, p.receive.fraction);
    Put32(buf, 24, p.senderSequence);
    Put32(buf, 28, p.senderTimestamp.seconds);
    Put32(buf, 32, p.senderTimestamp.fraction);
    Put16(buf, 36, p.senderErrorEstimate);
    buf[40] := p.senderTtl;
    TailPut(old(buf[..]), buf[..], p);
  }

  lemma TailPut(b0: seq<byte>, b: seq<byte>, p: ReflectorPacket)
    requires |b0| == |b| == BASE && b0[16..] == Zeros(28)
    requires b[16..20] == Be32(p.receive.seconds) && b[20..24] == Be32(p.receive.fraction) && b[24..28] == Be32(p.senderSequence)
    requires b[28..32] == Be32(p.senderTimestamp.seconds) && b[32..36] == Be32(p.senderTimestamp.fraction)
    requires b[36..38] == Be16(p.senderErrorEstimate) && b[40] == p.senderTtl
    requires forall i :: 0 <= i < 16 || i == 38 || i == 39 || 41 <= i < BASE ==> b[i] == b0[i]
    ensures b == b0[..16] + ReflectorTail(p)
  {
    forall i | i == 38 || i == 39 || 41 <= i < BASE
      ensures b[i] == 0
    {
      assert b0[i] == b0[16..][i - 16];
    }
    assert b[16..24] == b[16..20] + b[20..24] && b[28..36] == b[28..32] + b[32..36];
    assert b[38..40] == Zeros(2);
    assert b[41..] == Zeros(3);
    assert b[..16] == b0[..16];
    assert b == b[..16] + (b[16..24] + b[24..28] + b[28..36] + b[36..38] + b[38..40] + [b[40]] + b[41..]);
  }

  method EncodeReflector(p: ReflectorPacket) returns (r: Option<seq<byte>>)
    ensures r.Some? <==> MayEncode(p.extensions)
    ensures r.Some? ==> r.value == ReflectorBase(p) + Region(p.extensions)
  {
    var buf := new byte[BASE](_ => 0);
    PutHead(buf, p.sequence, p.timestamp, p.errorEstimate, p.ssid);
    PutTail(buf, p);
    assert buf[..] == ReflectorBase(p);
    if p.extensions.None? {
      return Some(buf[..]);
    }
    var enc := EncodeExtensions(p.extensions.value);
    if enc.None? {
      return None;
    }
    r := Some(buf[..] + enc.value);
  }

  // ---------- Decoders ----------

  method DecodeReturnPath(b: seq<byte>) returns (r: Option<ReturnPath>)
    ensures r == ReturnPathOf(b)
  {
    var path := ReturnPath(None);
    var cursor := 0;
    AtStart(b, path, ReturnPathStep);
    while cursor < |b|
      invariant Reached(b, ReturnPath(None), ReturnPathStep, cursor, path)
    {
      if |b| - cursor < HEADER {
        TooShort(b, ReturnPath(None), ReturnPathStep, cursor, path);
        return None;
      }
      var kind, length := b[cursor + 1], FromBe16(b[cursor + 2..cursor + 4]);
      if cursor + HEADER + length > |b| {
        TooShort(b, ReturnPath(None), ReturnPathStep, cursor, path);
        return None;
      }
      var value := b[cursor + HEADER..cursor + HEADER + length];
      OneTurn(b, ReturnPath(None), ReturnPathStep, cursor, path, length, ReturnPathStep(path, Tlv(kind, value)));
      if kind == CONTROL_CODE {
        if |value| != 4 {
          return None;
        }
        path := ReturnPath(Some(ControlCode(FromBe32(value) % 2 == 1)));
      }
      cursor := cursor + HEADER + length;
    }
    AtEnd(b, ReturnPath(None), ReturnPathStep, path);
    r := Some(path);
  }

  method DecodeContainer(b: seq<byte>) returns (r: Option<Container>)
    ensures r == ContainerOf(b)
  {
    var container := Container(None);
    var cursor := 0;
    AtStart(b, container, ContainerStep);
    while cursor < |b|
      invariant Reached(b, Container(None), ContainerStep, cursor, container)
    {
      if |b| - cursor < HEADER {
        TooShort(b, Container(None), ContainerStep, cursor, container);
        return None;
      }
      var kind, length := b[cursor + 1], FromBe16(b[cursor + 2..cursor + 4]);
      if cursor + HEADER + length > |b| {
        TooShort(b, Container(None), ContainerStep, cursor, container);
        return None;
      }
      var value := b[cursor + HEADER..cursor + HEADER + length];
      OneTurn(b, Container(None), ContainerStep, cursor, container, length, ContainerStep(container, Tlv(kind, value)));
      if kind == TELEMETRY_KEY {
        if !Utf8(value) {
          return None;
        }
        container := Container(Some(value));
      }
      cursor := cursor + HEADER + length;
    }
    AtEnd(b, Container(None), ContainerStep, container);
    r := Some(container);
  }

  method DecodeElement(e: Extensions, kind: byte, value: seq<byte>) returns (r: Option<Extensions>)
    ensures r == ExtensionsStep(e, Tlv(kind, value))
  {
    if kind == RETURN_PATH {
      var path := DecodeReturnPath(value);
      return if path.None? then None else Some(e.(returnPath := path));
    } else if kind == CONTAINER {
      var container := DecodeContainer(value);
      return if container.None? then None else Some(e.(container := container));
    }
    r := Some(e);
  }

  method DecodeExtensions(b: seq<byte>) returns (r: Option<Option<Extensions>>)
    ensures r == ExtensionsOf(b)
  {
    if |b| == 0 {
      return Some(None);
    }
    var e := NOTHING;
    var cursor := 0;
    AtStart(b, e, ExtensionsStep);
    while cursor < |b|
      invariant Reached(b, NOTHING, ExtensionsStep, cursor, e)
    {
      if |b| - cursor < HEADER {
        TooShort(b, NOTHING, ExtensionsStep, cursor, e);
        return None;
      }
      var kind, length := b[cursor + 1], FromBe16(b[cursor + 2..cursor + 4]);
      if cursor + HEADER + length > |b| {
        TooShort(b, NOTHING, ExtensionsStep, cursor, e);
        return None;
      }
      var value := b[cursor + HEADER..cursor + HEADER + length];
      OneTurn(b, NOTHING, ExtensionsStep, cursor, e, length, ExtensionsStep(e, Tlv(kind, value)));
      var next := DecodeElement(e, kind, value);
      if next.None? {
        return None;
      }
      e := next.value;
      cursor := cursor + HEADER + length;
    }
    AtEnd(b, NOTHING, ExtensionsStep, e);
    r := Some(Some(e));
  }

  method DecodeSender(b: seq<byte>) returns (r: Option<SenderPacket>)
    ensures r == SenderOf(b)
  {
    if |b| < BASE {
      return None;
    }
    var e := DecodeExtensions(b[BASE..]);
    if e.None? {
      return None;
    }
    r := Some(SenderPacket(Word32At(b, 0), TimestampAt(b, 4), Word16At(b, 12), Word16At(b, 14), e.value));
  }

  method DecodeReflector(b: seq<byte>) returns (r: Option<ReflectorPacket>)
    ensures r == ReflectorOf(b)
  {
    if |b| < BASE {
      return None;
    }
    var e := DecodeExtensions(b[BASE..]);
    if e.None? {
      return None;
    }
    r := Some(ReflectorPacket(Word32At(b, 0), TimestampAt(b, 4), Word16At(b, 12), Word16At(b, 14), TimestampAt(b, 16),
                              Word32At(b, 24), TimestampAt(b, 28), Word16At(b, 36), b[40], e.value));
  }
}
