/** The CASTV2 wire form: `CastMessage` as a Protocol Buffers message (the "Base 128 Varints" and
    "Message Structure" sections of the Protocol Buffers encoding specification) inside a frame with a
    four-byte big-endian length prefix. */
module CastProto {
  import opened Wrappers

  // ---- Text on the wire -------------------------------------------------------------------------

  predicate Continuation(b: byte) {
    0x80 <= b < 0xC0
  }

  /** Length of the well-formed UTF-8 scalar at the front of s, or 0 when there is none
      (table 3-7 of the Unicode standard: no overlong forms, no surrogates). */
  function Utf8Head(s: seq<byte>): (n: nat)
    requires s != []
    ensures n <= |s|
  {
    var b := s[0];
    if b < 0x80 then 1
    else if 0xC2 <= b <= 0xDF && |s| >= 2 && Continuation(s[1]) then 2
    else if |s| >= 3 && Continuation(s[2]) &&
            ((b == 0xE0 && 0xA0 <= s[1] <= 0xBF) || (b == 0xED && 0x80 <= s[1] <= 0x9F) ||
             (0xE1 <= b <= 0xEF && b != 0xED && Continuation(s[1]))) then 3
    else if |s| >= 4 && Continuation(s[2]) && Continuation(s[3]) &&
            ((b == 0xF0 && 0x90 <= s[1] <= 0xBF) || (b == 0xF4 && 0x80 <= s[1] <= 0x8F) ||
             (0xF1 <= b <= 0xF3 && Continuation(s[1]))) then 4
    else 0
  }

  predicate ValidUtf8(s: seq<byte>)
    decreases |s|
  {
    s == [] || (Utf8Head(s) > 0 && ValidUtf8(s[Utf8Head(s)..]))
  }

  /** A Rust `String`: its bytes, which are always valid UTF-8. */
  type Utf8 = s: seq<byte> | ValidUtf8(s) witness []

  /** The bytes of an ASCII literal. */
  function Ascii(text: string): (bytes: Utf8)
    requires forall i :: 0 <= i < |text| ==> text[i] < 128 as char
    ensures |bytes| == |text|
  {
    if text == "" then []
    else
      var rest := Ascii(text[1..]);
      var bytes: seq<byte> := [text[0] as int] + rest;
      assert bytes[1..] == rest;
      bytes
  }

  // ---- The message ------------------------------------------------------------------------------

  datatype CastMessage = CastMessage(
    protocolVersion: Option<i32>,
    sourceId: Utf8,
    destinationId: Utf8,
    namespace: Utf8,
    payloadType: Option<i32>,
    payloadUtf8: Option<Utf8>,
    payloadBinary: Option<seq<byte>>)

  const EMPTY_MESSAGE := CastMessage(None, [], [], [], None, None, None)

  const CASTV2_1_0: i32 := 0
  const PAYLOAD_STRING: i32 := 0

  /** Every message the session sends: canonical sender, string payload, both required enums present. */
  function StringMessage(namespace: Utf8, destinationId: Utf8, payloadJson: Utf8): CastMessage {
    CastMessage(Some(CASTV2_1_0), Ascii("sender-0"), destinationId, namespace,
                Some(PAYLOAD_STRING), Some(payloadJson), None)
  }

  // ---- Varints and wire types -------------------------------------------------------------------

  const VARINT: nat := 0
  const I64: nat := 1
  const LEN: nat := 2
  const SGROUP: nat := 3
  const EGROUP: nat := 4
  const I32: nat := 5

  function EncodeVarint(n: nat): seq<byte> {
    if n < 128 then [n] else [n % 128 + 128] + EncodeVarint(n / 128)
  }

  /** Reads the varint at the front of buf, `count` of whose (at most ten) bytes are already behind us.
      The tenth byte may carry a single bit. */
  function DecodeVarintFrom(buf: seq<byte>, count: nat): (r: Option<(nat, seq<byte>)>)
    ensures r.Some? ==> |r.value.1| < |buf|
    decreases |buf|
  {
    if buf == [] || count >= 10 then None
    else if buf[0] < 128 then
      if count == 9 && buf[0] >= 2 then None else Some((buf[0], buf[1..]))
    else
      match DecodeVarintFrom(buf[1..], count + 1)
      case None => None
      case Some((high, rest)) => Some((buf[0] - 128 + 128 * high, rest))
  }

  function DecodeVarint(buf: seq<byte>): (r: Option<(nat, seq<byte>)>)
    ensures r.Some? ==> |r.value.1| < |buf|
  {
    DecodeVarintFrom(buf, 0)
  }

  /** One past the largest value that still fits in the bytes from position `count` on. */
  function VarintLimit(count: nat): nat
    requires count <= 9
    decreases 9 - count
  {
    if count == 9 then 2 else 128 * VarintLimit(count + 1)
  }

  lemma VarintLimitIsU64()
    ensures VarintLimit(0) == U64_RANGE
  {
    assert VarintLimit(8) == 256;
    assert VarintLimit(6) == 256 * 128 * 128;
    assert VarintLimit(4) == 256 * 128 * 128 * 128 * 128;
    assert VarintLimit(2) == 256 * 128 * 128 * 128 * 128 * 128 * 128;
  }

  lemma {:induction false} VarintRoundTripFrom(n: nat, rest: seq<byte>, count: nat)
    requires count <= 9 && n < VarintLimit(count)
    ensures DecodeVarintFrom(EncodeVarint(n) + rest, count) == Some((n, rest))
  {
    var buf := EncodeVarint(n) + rest;
    if n < 128 {
      assert buf[1..] == rest;
    } else {
      assert buf[1..] == EncodeVarint(n / 128) + rest;
      VarintRoundTripFrom(n / 128, rest, count + 1);
    }
  }

  lemma VarintRoundTrip(n: nat, rest: seq<byte>)
    requires n < U64_RANGE
    ensures DecodeVarint(EncodeVarint(n) + rest) == Some((n, rest))
  {
    VarintLimitIsU64();
    VarintRoundTripFrom(n, rest, 0);
  }

  /** Enum fields travel as int32: sign-extended to 64 bits, so a negative one takes ten bytes. */
  function SignExtend(v: i32): nat {
    if v < 0 then v + U64_RANGE else v
  }

  function TruncateI32(n: nat): i32 {
    var low := n % U32_RANGE;
    if low >= 0x8000_0000 then low - U32_RANGE else low
  }

  // ---- Encoding ---------------------------------------------------------------------------------

  function Key(tag: nat, wireType: nat): byte
    requires 1 <= tag <= 15 && wireType <= 5
  {
    tag * 8 + wireType
  }

  function IntField(tag: nat, v: Option<i32>): seq<byte>
    requires 1 <= tag <= 15
  {
    match v
    case None => []
    case Some(n) => [Key(tag, VARINT)] + EncodeVarint(SignExtend(n))
  }

  function LenField(tag: nat, data: seq<byte>): seq<byte>
    requires 1 <= tag <= 15
  {
    [Key(tag, LEN)] + EncodeVarint(|data|) + data
  }

  /** A plain `string` field is left out when empty; an `optional` one only when absent. */
  function StringField(tag: nat, s: Utf8): seq<byte>
    requires 1 <= tag <= 15
  {
    if s == [] then [] else LenField(tag, s)
  }

  function OptionalField(tag: nat, data: Option<seq<byte>>): seq<byte>
    requires 1 <= tag <= 15
  {
    match data
    case None => []
    case Some(d) => LenField(tag, d)
  }

  function EncodeMessage(m: CastMessage): seq<byte> {
    IntField(1, m.protocolVersion) + (StringField(2, m.sourceId) + (StringField(3, m.destinationId) +
    (StringField(4, m.namespace) + (IntField(5, m.payloadType) + (OptionalField(6, m.payloadUtf8) +
    OptionalField(7, m.payloadBinary))))))
  }

  function BigEndian(n: u32): seq<byte> {
    [n / 256 / 256 / 256, n / 256 / 256 % 256, n / 256 % 256, n % 256]
  }

  /** The frame of m; the length prefix is the payload length cut to 32 bits. */
  function Frame(m: CastMessage): seq<byte> {
    BigEndian(|EncodeMessage(m)| % U32_RANGE) + EncodeMessage(m)
  }

  method EncodeFrame(msg: CastMessage) returns (frame: seq<byte>)
    ensures frame == Frame(msg)
    ensures DecodeFrame(frame) == Some((msg, |frame|)) <==> |EncodeMessage(msg)| < U32_RANGE
  {
    hide EncodeMessage, DecodeMessage;
    var payload := EncodeMessage(msg);
    var len := |payload| % U32_RANGE;
    frame := [];
    frame := frame + BigEndian(len);
    frame := frame + payload;
    FrameRoundTrip(msg, []);
    assert Frame(msg) + [] == Frame(msg);
  }

  // ---- Decoding ---------------------------------------------------------------------------------

  /** A field key: (tag, wire type, remaining bytes). */
  function DecodeKey(buf: seq<byte>): (r: Option<(nat, nat, seq<byte>)>)
    ensures r.Some? ==> |r.value.2| < |buf|
  {
    match DecodeVarint(buf)
    case None => None
    case Some((key, rest)) =>
      if key >= U32_RANGE || key % 8 > 5 || key / 8 == 0 then None else Some((key / 8, key % 8, rest))
  }

  function TakeBytes(n: nat, buf: seq<byte>): (r: Option<(seq<byte>, seq<byte>)>)
    ensures r.Some? ==> |r.value.1| <= |buf|
  {
    if n > |buf| then None else Some((buf[..n], buf[n..]))
  }

  function DecodeLen(buf: seq<byte>): (r: Option<(seq<byte>, seq<byte>)>)
    ensures r.Some? ==> |r.value.1| <= |buf|
  {
    match DecodeVarint(buf)
    case None => None
    case Some((n, rest)) => TakeBytes(n, rest)
  }

  /** Nesting allowed inside unknown groups. */
  const RECURSION_LIMIT: nat := 100

  /** Steps over a field with an unknown tag. */
  function SkipField(tag: nat, wireType: nat, buf: seq<byte>, depth: nat): (r: Option<seq<byte>>)
    ensures r.Some? ==> |r.value| <= |buf|
    decreases |buf|, 1
  {
    if depth == 0 then None
    else if wireType == VARINT then
      match DecodeVarint(buf) { case None => None case Some((_, rest)) => Some(rest) }
    else if wireType == I64 then
      match TakeBytes(8, buf) { case None => None case Some((_, rest)) => Some(rest) }
    else if wireType == LEN then
      match DecodeLen(buf) { case None => None case Some((_, rest)) => Some(rest) }
    else if wireType == I32 then
      match TakeBytes(4, buf) { case None => None case Some((_, rest)) => Some(rest) }
    else if wireType == SGROUP then SkipGroup(tag, buf, depth)
    else None
  }

  function SkipGroup(tag: nat, buf: seq<byte>, depth: nat): (r: Option<seq<byte>>)
    requires depth > 0
    ensures r.Some? ==> |r.value| <= |buf|
    decreases |buf|, 0
  {
    match DecodeKey(buf)
    case None => None
    case Some((inner, wireType, rest)) =>
      if wireType == EGROUP then (if inner == tag then Some(rest) else None)
      else
        match SkipField(inner, wireType, rest, depth - 1)
        case None => None
        case Some(rest') => SkipGroup(tag, rest', depth)
  }

  /** Applies one field to the message built so far; the last occurrence of a field wins. */
  function MergeField(m: CastMessage, tag: nat, wireType: nat, buf: seq<byte>)
    : (r: Option<(CastMessage, seq<byte>)>)
    ensures r.Some? ==> |r.value.1| <= |buf|
  {
    if tag == 1 || tag == 5 then
      if wireType != VARINT then None
      else
        match DecodeVarint(buf)
        case None => None
        case Some((n, rest)) =>
          Some((if tag == 1 then m.(protocolVersion := Some(TruncateI32(n)))
                else m.(payloadType := Some(TruncateI32(n))), rest))
    else if 2 <= tag <= 7 then
      if wireType != LEN then None
      else
        match DecodeLen(buf)
        case None => None
        case Some((data, rest)) =>
          if tag == 7 then Some((m.(payloadBinary := Some(data)), rest))
          else if !ValidUtf8(data) then None
          else if tag == 2 then Some((m.(sourceId := data), rest))
          else if tag == 3 then Some((m.(destinationId := data), rest))
          else if tag == 4 then Some((m.(namespace := data), rest))
          else Some((m.(payloadUtf8 := Some(data)), rest))
    else
      match SkipField(tag, wireType, buf, RECURSION_LIMIT)
      case None => None
      case Some(rest) => Some((m, rest))
  }

  function MergeFields(m: CastMessage, buf: seq<byte>): Option<CastMessage>
    decreases |buf|
  {
    if buf == [] then Some(m)
    else
      match DecodeKey(buf)
      case None => None
      case Some((tag, wireType, body)) =>
        match MergeField(m, tag, wireType, body)
        case None => None
        case Some((m', rest)) => MergeFields(m', rest)
  }

  function DecodeMessage(buf: seq<byte>): Option<CastMessage> {
    MergeFields(EMPTY_MESSAGE, buf)
  }

  function FromBigEndian(b: seq<byte>): u32
    requires |b| == 4
  {
    (((b[0] as int) * 256 + b[1]) * 256 + b[2]) * 256 + b[3]
  }

  /** The first frame of buf with its length in bytes; None while it is incomplete, and also when it is
      complete but its payload does not decode. */
  function DecodeFrame(buf: seq<byte>): (r: Option<(CastMessage, nat)>)
    ensures r.Some? ==> 4 <= r.value.1 <= |buf|
  {
    if |buf| < 4 then None
    else
      var total := 4 + FromBigEndian(buf[..4]);
      if |buf| < total then None
      else
        match DecodeMessage(buf[4..total])
        case None => None
        case Some(m) => Some((m, total))
  }

  // ---- Round trips ------------------------------------------------------------------------------

  lemma KeyRoundTrip(tag: nat, wireType: nat, rest: seq<byte>)
    requires 1 <= tag <= 15 && wireType <= 5
    ensures DecodeKey([Key(tag, wireType)] + rest) == Some((tag, wireType, rest))
  {
    var buf := [Key(tag, wireType)] + rest;
    assert buf[1..] == rest;
  }

  lemma SignRoundTrip(v: i32)
    ensures SignExtend(v) < U64_RANGE && TruncateI32(SignExtend(v)) == v
  {
    if v < 0 {
      assert v + U64_RANGE == (v + U32_RANGE) + 0xFFFF_FFFF * U32_RANGE;
    }
  }

  /** An int field that is present sets itself and leaves the rest of the input to be merged. */
  lemma MergeIntField(m: CastMessage, tag: nat, v: Option<i32>, rest: seq<byte>)
    requires tag == 1 || tag == 5
    requires v.None? ==> (if tag == 1 then m.protocolVersion else m.payloadType) == None
    ensures MergeFields(m, IntField(tag, v) + rest)
         == MergeFields(if tag == 1 then m.(protocolVersion := v) else m.(payloadType := v), rest)
  {
    match v {
      case None =>
        assert IntField(tag, v) + rest == rest;
      case Some(n) =>
        var body := EncodeVarint(SignExtend(n)) + rest;
        assert IntField(tag, v) + rest == [Key(tag, VARINT)] + body;
        KeyRoundTrip(tag, VARINT, body);
        SignRoundTrip(n);
        VarintRoundTrip(SignExtend(n), rest);
    }
  }

  lemma LenRoundTrip(data: seq<byte>, rest: seq<byte>)
    requires |data| < U64_RANGE
    ensures DecodeLen(EncodeVarint(|data|) + (data + rest)) == Some((data, rest))
  {
    VarintRoundTrip(|data|, data + rest);
    assert (data + rest)[..|data|] == data && (data + rest)[|data|..] == rest;
  }

  function WithBytes(m: CastMessage, tag: nat, data: seq<byte>): CastMessage
    requires 2 <= tag <= 7 && tag != 5
    requires tag != 7 ==> ValidUtf8(data)
  {
    if tag == 2 then m.(sourceId := data)
    else if tag == 3 then m.(destinationId := data)
    else if tag == 4 then m.(namespace := data)
    else if tag == 6 then m.(payloadUtf8 := Some(data))
    else m.(payloadBinary := Some(data))
  }

  lemma MergeLenField(m: CastMessage, tag: nat, data: seq<byte>, rest: seq<byte>)
    requires 2 <= tag <= 7 && tag != 5
    requires tag != 7 ==> ValidUtf8(data)
    requires |data| < U64_RANGE
    ensures MergeFields(m, LenField(tag, data) + rest) == MergeFields(WithBytes(m, tag, data), rest)
  {
    var body := EncodeVarint(|data|) + (data + rest);
    assert LenField(tag, data) + rest == [Key(tag, LEN)] + body;
    KeyRoundTrip(tag, LEN, body);
    LenRoundTrip(data, rest);
  }

  lemma MergeStringField(m: CastMessage, tag: nat, s: Utf8, rest: seq<byte>)
    requires 2 <= tag <= 4 && |s| < U64_RANGE
    requires s == [] ==> WithBytes(m, tag, []) == m
    ensures MergeFields(m, StringField(tag, s) + rest) == MergeFields(WithBytes(m, tag, s), rest)
  {
    if s == [] {
      assert StringField(tag, s) + rest == rest;
    } else {
      MergeLenField(m, tag, s, rest);
    }
  }

  /** Protobuf round trip: every field, present or absent, zero or not, survives. */
  lemma MessageRoundTrip(m: CastMessage)
    requires |EncodeMessage(m)| < U64_RANGE
    ensures DecodeMessage(EncodeMessage(m)) == Some(m)
  {
    var f7 := OptionalField(7, m.payloadBinary);
    var f6 := OptionalField(6, m.payloadUtf8) + f7;
    var f5 := IntField(5, m.payloadType) + f6;
    var f4 := StringField(4, m.namespace) + f5;
    var f3 := StringField(3, m.destinationId) + f4;
    var f2 := StringField(2, m.sourceId) + f3;
    var m1 := EMPTY_MESSAGE.(protocolVersion := m.protocolVersion);
    MergeIntField(EMPTY_MESSAGE, 1, m.protocolVersion, f2);
    var m2 := m1.(sourceId := m.sourceId);
    MergeStringField(m1, 2, m.sourceId, f3);
    var m3 := m2.(destinationId := m.destinationId);
    MergeStringField(m2, 3, m.destinationId, f4);
    var m4 := m3.(namespace := m.namespace);
    MergeStringField(m3, 4, m.namespace, f5);
    var m5 := m4.(payloadType := m.payloadType);
    MergeIntField(m4, 5, m.payloadType, f6);
    var m6 := m5.(payloadUtf8 := m.payloadUtf8);
    assert MergeFields(m5, f6) == MergeFields(m6, f7) by {
      if m.payloadUtf8.Some? { MergeLenField(m5, 6, m.payloadUtf8.value, f7); }
      else { assert f6 == f7; }
    }
    assert MergeFields(m6, f7) == Some(m) by {
      if m.payloadBinary.Some? {
        MergeLenField(m6, 7, m.payloadBinary.value, []);
        assert f7 + [] == f7;
      }
    }
  }

  lemma BigEndianRoundTrip(n: u32)
    ensures FromBigEndian(BigEndian(n)) == n
  {
  }

  lemma FrameHeader(m: CastMessage, rest: seq<byte>)
    ensures |Frame(m)| == 4 + |EncodeMessage(m)|
    ensures FromBigEndian((Frame(m) + rest)[..4]) == |EncodeMessage(m)| % U32_RANGE
  {
    var len := |EncodeMessage(m)| % U32_RANGE;
    assert (Frame(m) + rest)[..4] == BigEndian(len);
    BigEndianRoundTrip(len);
  }

  /** Frame round trip, with the exact limit of the 32-bit length prefix: a frame followed by anything
      decodes to the message and its exact length if and only if the payload is under 2^32 bytes. */
  lemma FrameRoundTrip(m: CastMessage, rest: seq<byte>)
    ensures DecodeFrame(Frame(m) + rest) == Some((m, |Frame(m)|)) <==> |EncodeMessage(m)| < U32_RANGE
  {
    FrameHeader(m, rest);
    var payload := EncodeMessage(m);
    if |payload| < U32_RANGE {
      assert (Frame(m) + rest)[4..4 + |payload|] == payload;
      MessageRoundTrip(m);
    }
  }

  /** No strict prefix of a frame is taken for a frame. */
  lemma StrictPrefixIsIncomplete(m: CastMessage, k: nat)
    requires |EncodeMessage(m)| < U32_RANGE && k < |Frame(m)|
    ensures DecodeFrame(Frame(m)[..k]) == None
  {
    if k >= 4 {
      FrameHeader(m, []);
      assert Frame(m)[..k][..4] == (Frame(m) + [])[..4];
    }
  }

  /** What decodes from the front of a buffer does not depend on what follows it. */
  lemma DecodeFrameIgnoresSuffix(buf: seq<byte>, more: seq<byte>)
    requires DecodeFrame(buf).Some?
    ensures DecodeFrame(buf + more) == DecodeFrame(buf)
  {
    var total := DecodeFrame(buf).value.1;
    assert (buf + more)[..4] == buf[..4];
    assert (buf + more)[4..total] == buf[4..total];
  }

  lemma DecodeFrameOfPrefix(buf: seq<byte>, k: nat)
    requires DecodeFrame(buf).Some? && DecodeFrame(buf).value.1 <= k <= |buf|
    ensures DecodeFrame(buf[..k]) == DecodeFrame(buf)
  {
    var total := DecodeFrame(buf).value.1;
    assert buf[..k][..4] == buf[..4];
    assert buf[..k][4..total] == buf[4..total];
  }

  /** The two required enums are on the wire even at their zero value: bytes 08 00 open every message
      the session sends, and a message without them encodes differently. */
  lemma RequiredEnumsAreOnTheWire(namespace: Utf8, destination: Utf8, json: Utf8)
    ensures var m := StringMessage(namespace, destination, json);
      && EncodeMessage(m)[..2] == [0x08, 0x00]
      && |EncodeMessage(m)| == |EncodeMessage(m.(protocolVersion := None, payloadType := None))| + 4
  {
    hide StringField, OptionalField, ValidUtf8, Ascii;
    assert IntField(1, Some(0)) == [8, 0] && IntField(5, Some(0)) == [40, 0] && IntField(1, None) == IntField(5, None) == [];
    hide IntField;
  }
}
