/** STAMP test packets with segment-routing extensions: wire form, encoders and decoders. */
module Stamp {
  import opened Topology
  import opened Bytes
  import opened Framing

  datatype ControlCode = ControlCode(requestReply: bool)

  datatype ReturnPath = ReturnPath(controlCode: Option<ControlCode>)

  /** Telemetry keys are Go strings, any octets at all. */
  datatype Container = Container(key: Option<seq<byte>>)

  datatype Extensions = Extensions(returnPath: Option<ReturnPath>, container: Option<Container>)

  const RETURN_PATH: byte := 10
  const CONTAINER: byte := 250
  const CONTROL_CODE: byte := 1
  const TELEMETRY_KEY: byte := 1

  // ---------- UTF-8 ----------

  predicate Continuation(b: seq<byte>, i: nat) {
    i < |b| && 0x80 <= b[i] <= 0xBF
  }

  predicate Between(b: seq<byte>, i: nat, lo: byte, hi: byte) {
    i < |b| && lo <= b[i] <= hi
  }

  /** Octets of the well-formed sequence that `b` starts with, or zero (section 4 of RFC 3629). */
  function RuneLength(b: seq<byte>): (n: nat)
    requires b != []
    ensures n <= |b|
  {
    var x := b[0];
    if x <= 0x7F then 1
    else if 0xC2 <= x <= 0xDF && Continuation(b, 1) then 2
    else if x == 0xE0 && Between(b, 1, 0xA0, 0xBF) && Continuation(b, 2) then 3
    else if x == 0xED && Between(b, 1, 0x80, 0x9F) && Continuation(b, 2) then 3
    else if 0xE1 <= x <= 0xEF && x != 0xED && Continuation(b, 1) && Continuation(b, 2) then 3
    else if x == 0xF0 && Between(b, 1, 0x90, 0xBF) && Continuation(b, 2) && Continuation(b, 3) then 4
    else if 0xF1 <= x <= 0xF3 && Continuation(b, 1) && Continuation(b, 2) && Continuation(b, 3) then 4
    else if x == 0xF4 && Between(b, 1, 0x80, 0x8F) && Continuation(b, 2) && Continuation(b, 3) then 4
    else 0
  }

  predicate Utf8(b: seq<byte>) {
    b == [] || (RuneLength(b) > 0 && Utf8(b[RuneLength(b)..]))
  }

  // ---------- Wire form ----------

  function ControlCodeTlv(c: ControlCode): Tlv {
    Tlv(CONTROL_CODE, Be32(if c.requestReply then 1 else 0))
  }

  function ReturnPathTlv(p: ReturnPath): (t: Tlv)
    ensures |t.value| <= 8
  {
    Tlv(RETURN_PATH, if p.controlCode.None? then [] else Frame(0, ControlCodeTlv(p.controlCode.value)))
  }

  /** Containers whose key leaves room for its own header. */
  predicate Fits(c: Container) {
    c.key.Some? ==> HEADER + |c.key.value| <= MAX_LENGTH
  }

  function ContainerTlv(c: Container): (t: Tlv)
    requires Fits(c)
    ensures |t.value| <= MAX_LENGTH
  {
    Tlv(CONTAINER, if c.key.None? then [] else Frame(0, Tlv(TELEMETRY_KEY, c.key.value)))
  }

  predicate Encodable(e: Extensions) {
    e.container.Some? ==> Fits(e.container.value)
  }

  /** The return path comes first, the container second. */
  function Wire(e: Extensions): seq<byte>
    requires Encodable(e)
  {
    (if e.returnPath.None? then [] else Frame(0, ReturnPathTlv(e.returnPath.value))) +
    (if e.container.None? then [] else Frame(0, ContainerTlv(e.container.value)))
  }

  // ---------- What each element means ----------

  function ReturnPathStep(p: ReturnPath, t: Tlv): Option<ReturnPath> {
    if t.kind != CONTROL_CODE then Some(p)
    else if |t.value| != 4 then None
    else Some(ReturnPath(Some(ControlCode(FromBe32(t.value) % 2 == 1))))
  }

  function ContainerStep(c: Container, t: Tlv): Option<Container> {
    if t.kind != TELEMETRY_KEY then Some(c)
    else if !Utf8(t.value) then None
    else Some(Container(Some(t.value)))
  }

  function ReturnPathOf(b: seq<byte>): Option<ReturnPath> {
    Scan(b, ReturnPath(None), ReturnPathStep)
  }

  function ContainerOf(b: seq<byte>): Option<Container> {
    Scan(b, Container(None), ContainerStep)
  }

  function ExtensionsStep(e: Extensions, t: Tlv): Option<Extensions> {
    if t.kind == RETURN_PATH then
      var p := ReturnPathOf(t.value);
      if p.None? then None else Some(e.(returnPath := p))
    else if t.kind == CONTAINER then
      var c := ContainerOf(t.value);
      if c.None? then None else Some(e.(container := c))
    else Some(e)
  }

  const NOTHING := Extensions(None, None)

  /** An empty region is no extensions; any other region is some, even if nothing in it is known. */
  function ExtensionsOf(b: seq<byte>): Option<Option<Extensions>> {
    if b == [] then Some(None)
    else
      var e := Scan(b, NOTHING, ExtensionsStep);
      if e.None? then None else Some(e)
  }

  // ---------- Round trip of extensions ----------

  predicate KeyIsText(e: Extensions) {
    e.container.Some? && e.container.value.key.Some? ==> Utf8(e.container.value.key.value)
  }

  function Normal(e: Extensions): Option<Extensions> {
    if e == NOTHING then None else Some(e)
  }

  lemma ScanFrame<A(!new)>(t: Tlv, acc: A, step: (A, Tlv) -> Option<A>)
    requires |t.value| <= MAX_LENGTH
    ensures Scan(Frame(0, t), acc, step) == step(acc, t)
  {
    ParseFrame(0, t);
    ScanIsParseThenFold(Frame(0, t), acc, step);
    assert Fold([t], acc, step) == step(acc, t);
  }

  lemma ReturnPathBack(p: ReturnPath)
    ensures ReturnPathOf(ReturnPathTlv(p).value) == Some(p)
  {
    if p.controlCode.Some? {
      ScanFrame(ControlCodeTlv(p.controlCode.value), ReturnPath(None), ReturnPathStep);
    }
  }

  lemma ContainerBack(c: Container)
    requires Fits(c)
    ensures ContainerOf(ContainerTlv(c).value) == if c.key.Some? && !Utf8(c.key.value) then None else Some(c)
  {
    if c.key.Some? {
      ScanFrame(Tlv(TELEMETRY_KEY, c.key.value), Container(None), ContainerStep);
    }
  }

  /** Decoding undoes encoding exactly when the key is UTF-8, which encoding does not check. */
  lemma ExtensionsBack(e: Extensions)
    requires Encodable(e)
    ensures ExtensionsOf(Wire(e)) == if KeyIsText(e) then Some(Normal(e)) else None
  {
    if e.returnPath.Some? {
      ReturnPathBack(e.returnPath.value);
    }
    if e.container.Some? {
      ContainerBack(e.container.value);
    }
    if e.returnPath.Some? && e.container.Some? {
      BothBack(e);
    } else if e.returnPath.Some? {
      assert Wire(e) == Frame(0, ReturnPathTlv(e.returnPath.value));
      ScanFrame(ReturnPathTlv(e.returnPath.value), NOTHING, ExtensionsStep);
    } else if e.container.Some? {
      assert Wire(e) == Frame(0, ContainerTlv(e.container.value));
      ScanFrame(ContainerTlv(e.container.value), NOTHING, ExtensionsStep);
    }
  }

  lemma BothBack(e: Extensions)
    requires Encodable(e) && e.returnPath.Some? && e.container.Some?
    ensures Scan(Wire(e), NOTHING, ExtensionsStep) ==
            match ExtensionsStep(NOTHING, ReturnPathTlv(e.returnPath.value))
            case None => None
            case Some(x) => ExtensionsStep(x, ContainerTlv(e.container.value))
  {
    var p, c := ReturnPathTlv(e.returnPath.value), ContainerTlv(e.container.value);
    FirstOfFrame(0, p, Frame(0, c));
    match ExtensionsStep(NOTHING, p)
    case None =>
    case Some(x) => ScanFrame(c, x, ExtensionsStep);
  }

  // ---------- Unknown elements ----------

  /** Elements of unknown type may be inserted at any boundary. The one exception is an empty region,
      which stops being empty. */
  lemma UnknownInserted(x: seq<byte>, flags: byte, t: Tlv, y: seq<byte>)
    requires Parse(x).Some? && |t.value| <= MAX_LENGTH && t.kind != RETURN_PATH && t.kind != CONTAINER
    ensures ExtensionsOf(x + Frame(flags, t) + y) == ExtensionsOf(x + y) <==> x + y != []
  {
    assert |x + Frame(flags, t) + y| > 0;
    IgnoredElement(x, flags, t, y, NOTHING, ExtensionsStep);
    if x + y == [] {
      assert Scan(x + y, NOTHING, ExtensionsStep) == Some(NOTHING);
    }
  }

  lemma UnknownInReturnPath(x: seq<byte>, flags: byte, t: Tlv, y: seq<byte>)
    requires Parse(x).Some? && |t.value| <= MAX_LENGTH && t.kind != CONTROL_CODE
    ensures ReturnPathOf(x + Frame(flags, t) + y) == ReturnPathOf(x + y)
  {
    IgnoredElement(x, flags, t, y, ReturnPath(None), ReturnPathStep);
  }

  lemma UnknownInContainer(x: seq<byte>, flags: byte, t: Tlv, y: seq<byte>)
    requires Parse(x).Some? && |t.value| <= MAX_LENGTH && t.kind != TELEMETRY_KEY
    ensures ContainerOf(x + Frame(flags, t) + y) == ContainerOf(x + y)
  {
    IgnoredElement(x, flags, t, y, Container(None), ContainerStep);
  }

  // ---------- Whatever decodes can be encoded ----------

  predicate Sendable(e: Extensions) {
    Encodable(e) && KeyIsText(e)
  }

  lemma ContainerDecoded(b: seq<byte>)
    requires |b| <= MAX_LENGTH && ContainerOf(b).Some?
    ensures Fits(ContainerOf(b).value)
    ensures ContainerOf(b).value.key.Some? ==> Utf8(ContainerOf(b).value.key.value)
  {
    ScanKeeps(b, Container(None), ContainerStep, (c: Container) => Fits(c) && (c.key.Some? ==> Utf8(c.key.value)));
  }

  lemma ExtensionsDecoded(b: seq<byte>)
    requires Scan(b, NOTHING, ExtensionsStep).Some?
    ensures Sendable(Scan(b, NOTHING, ExtensionsStep).value)
  {
    forall e, t: Tlv | Sendable(e) && |t.value| <= MAX_LENGTH && ExtensionsStep(e, t).Some?
      ensures Sendable(ExtensionsStep(e, t).value)
    {
      if t.kind == CONTAINER {
        ContainerDecoded(t.value);
      }
    }
    ScanKeeps(b, NOTHING, ExtensionsStep, Sendable);
  }

  /** Every region that decodes has a canonical form with the same meaning. */
  lemma Canonical(b: seq<byte>)
    requires ExtensionsOf(b).Some? && ExtensionsOf(b).value.Some?
    ensures var e := ExtensionsOf(b).value.value; Encodable(e) && ExtensionsOf(Wire(e)) == Some(Normal(e))
  {
    ExtensionsDecoded(b);
    ExtensionsBack(ExtensionsOf(b).value.value);
  }
}
