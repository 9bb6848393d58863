/** The CASTV2 wire form byte by byte: what the codec writes and reads, with every key, tag and length spelled
    out as in the Protocol Buffers encoding specification. */
module CastWire {
  import opened Wrappers
  import opened CastProto

  // ---- Base 128 varints -------------------------------------------------------------------------

  /** Seven bits a byte, the least significant first. */
  function VarintValue(bytes: seq<byte>): nat {
    if bytes == [] then 0 else bytes[0] % 128 + 128 * VarintValue(bytes[1..])
  }

  /** Every byte but the last has its top bit set; at most ten bytes, and a value that fits 64 bits. */
  predicate IsVarint(bytes: seq<byte>) {
    && 1 <= |bytes| <= 10
    && (forall i | 0 <= i < |bytes| - 1 :: bytes[i] >= 128)
    && bytes[|bytes| - 1] < 128
    && VarintValue(bytes) < 0x1_0000_0000_0000_0000
  }

  lemma {:induction false} EncodedVarintFrom(n: nat, count: nat)
    requires count <= 9 && n < VarintLimit(count)
    ensures var bytes := EncodeVarint(n);
      && 1 <= |bytes| <= 10 - count && VarintValue(bytes) == n
      && (forall i | 0 <= i < |bytes| - 1 :: bytes[i] >= 128) && bytes[|bytes| - 1] < 128
      && (|bytes| > 1 ==> bytes[|bytes| - 1] != 0)
  {
    if n >= 128 {
      EncodedVarintFrom(n / 128, count + 1);
      assert EncodeVarint(n)[1..] == EncodeVarint(n / 128);
    }
  }

  /** What is written for a number is a varint of that value, without a superfluous last byte. */
  lemma EncodedVarint(n: nat)
    requires n < 0x1_0000_0000_0000_0000
    ensures var bytes := EncodeVarint(n);
      IsVarint(bytes) && VarintValue(bytes) == n && (|bytes| > 1 ==> bytes[|bytes| - 1] != 0)
  {
    VarintLimitIsU64();
    EncodedVarintFrom(n, 0);
  }

  lemma {:induction false} VarintIsReadFrom(bytes: seq<byte>, rest: seq<byte>, count: nat)
    requires count <= 9 && bytes != [] && bytes[|bytes| - 1] < 128
    requires forall i | 0 <= i < |bytes| - 1 :: bytes[i] >= 128
    ensures DecodeVarintFrom(bytes + rest, count)
         == if |bytes| <= 10 - count && VarintValue(bytes) < VarintLimit(count)
            then Some((VarintValue(bytes), rest)) else None
    decreases |bytes|
  {
    var buf := bytes + rest;
    if |bytes| == 1 {
      assert buf[1..] == rest && bytes[1..] == [];
      LimitIsLarge(count);
    } else {
      assert buf[1..] == bytes[1..] + rest;
      if count < 9 {
        VarintIsReadFrom(bytes[1..], rest, count + 1);
      }
    }
  }

  lemma {:induction false} LimitIsLarge(count: nat)
    requires count <= 9
    ensures count < 9 ==> VarintLimit(count) >= 256
    decreases 9 - count
  {
    if count < 8 {
      LimitIsLarge(count + 1);
    }
  }

  /** Bytes that end like a varint are read as one, minimal or not, exactly if they are one. */
  lemma VarintIsRead(bytes: seq<byte>, rest: seq<byte>)
    requires bytes != [] && bytes[|bytes| - 1] < 128 && forall i | 0 <= i < |bytes| - 1 :: bytes[i] >= 128
    ensures DecodeVarint(bytes + rest) == if IsVarint(bytes) then Some((VarintValue(bytes), rest)) else None
  {
    VarintLimitIsU64();
    VarintIsReadFrom(bytes, rest, 0);
  }

  /** Without a last byte there is no varint. */
  lemma {:induction false} UnendedVarint(bytes: seq<byte>, count: nat)
    requires forall i | 0 <= i < |bytes| :: bytes[i] >= 128
    ensures DecodeVarintFrom(bytes, count) == None
    decreases |bytes|
  {
    if bytes != [] {
      UnendedVarint(bytes[1..], count + 1);
    }
  }

  // ---- Fields -----------------------------------------------------------------------------------

  /** A field the message does not have, as any of the wire types. */
  datatype Foreign =
    | Varint(tag: nat, value: nat)
    | Fixed64(tag: nat, bytes: seq<byte>)
    | Delimited(tag: nat, bytes: seq<byte>)
    | Fixed32(tag: nat, bytes: seq<byte>)
    | Group(tag: nat, inner: seq<Foreign>)

  /** Behind the key: a varint; eight bytes; a length and as many bytes; the group's fields and its end key; four
      bytes. */
  function ForeignBody(f: Foreign): seq<byte>
    decreases f, 0
  {
    match f
    case Varint(_, value) => EncodeVarint(value)
    case Fixed64(_, bytes) => bytes
    case Delimited(_, bytes) => EncodeVarint(|bytes|) + bytes
    case Group(tag, inner) => ForeignsBytes(inner) + EncodeVarint(8 * tag + 4)
    case Fixed32(_, bytes) => bytes
  }

  /** The key is the tag with the wire type in its three low bits: 0, 1, 2, 3 (ended by 4) and 5. */
  function ForeignBytes(f: Foreign): seq<byte>
    decreases f, 1
  {
    var wireType := match f case Varint(_, _) => 0 case Fixed64(_, _) => 1 case Delimited(_, _) => 2
                            case Group(_, _) => 3 case Fixed32(_, _) => 5;
    EncodeVarint(8 * f.tag + wireType) + ForeignBody(f)
  }

  function ForeignsBytes(fs: seq<Foreign>): seq<byte>
    decreases fs, 2
  {
    if fs == [] then [] else ForeignBytes(fs[0]) + ForeignsBytes(fs[1..])
  }

  predicate IsTag(tag: nat) {
    1 <= tag < 0x2000_0000
  }

  predicate GoodForeign(f: Foreign) {
    IsTag(f.tag) &&
    match f
    case Varint(_, value) => value < 0x1_0000_0000_0000_0000
    case Fixed64(_, bytes) => |bytes| == 8
    case Delimited(_, bytes) => |bytes| < 0x1_0000_0000_0000_0000
    case Group(_, inner) => forall i | 0 <= i < |inner| :: GoodForeign(inner[i])
    case Fixed32(_, bytes) => |bytes| == 4
  }

  /** Groups inside groups. */
  function Nesting(f: Foreign): nat {
    match f case Group(_, inner) => 1 + NestingOf(inner) case _ => 1
  }

  function NestingOf(fs: seq<Foreign>): nat {
    if fs == [] then 0
    else
      var first, rest := Nesting(fs[0]), NestingOf(fs[1..]);
      if first > rest then first else rest
  }

  lemma KeyIsRead(tag: nat, wireType: nat, body: seq<byte>)
    requires IsTag(tag) && wireType <= 5
    ensures DecodeKey(EncodeVarint(8 * tag + wireType) + body) == Some((tag, wireType, body))
  {
    VarintRoundTrip(8 * tag + wireType, body);
    hide DecodeVarint, EncodeVarint;
  }

  lemma TakeExactly(bytes: seq<byte>, rest: seq<byte>)
    ensures TakeBytes(|bytes|, bytes + rest) == Some((bytes, rest))
  {
    assert (bytes + rest)[..|bytes|] == bytes && (bytes + rest)[|bytes|..] == rest;
  }

  lemma {:induction false} ForeignIsSkipped(f: Foreign, rest: seq<byte>, depth: nat)
    requires GoodForeign(f)
    ensures SkipField(f.tag, match f case Varint(_, _) => 0 case Fixed64(_, _) => 1 case Delimited(_, _) => 2
                                     case Group(_, _) => 3 case Fixed32(_, _) => 5, ForeignBody(f) + rest, depth)
         == if Nesting(f) <= depth then Some(rest) else None
    decreases f, 0
  {
    hide EncodeVarint, DecodeVarint, TakeBytes, DecodeLen, SkipGroup, ForeignsBytes;
    match f {
      case Varint(_, value) => VarintRoundTrip(value, rest);
      case Fixed64(_, bytes) => TakeExactly(bytes, rest);
      case Fixed32(_, bytes) => TakeExactly(bytes, rest);
      case Delimited(_, bytes) =>
        LenRoundTrip(bytes, rest);
        Associative(EncodeVarint(|bytes|), bytes, rest);
      case Group(tag, inner) =>
        if depth > 0 {
          ForeignsAreSkipped(tag, inner, rest, depth);
          Associative(ForeignsBytes(inner), EncodeVarint(8 * tag + 4), rest);
        }
    }
  }

  lemma {:induction false} ForeignsAreSkipped(tag: nat, inner: seq<Foreign>, rest: seq<byte>, depth: nat)
    requires IsTag(tag) && depth > 0 && forall i | 0 <= i < |inner| :: GoodForeign(inner[i])
    ensures SkipGroup(tag, ForeignsBytes(inner) + (EncodeVarint(8 * tag + 4) + rest), depth)
         == if NestingOf(inner) <= depth - 1 then Some(rest) else None
    decreases inner, 1
  {
    hide EncodeVarint, DecodeKey, SkipField, ForeignBody;
    var end := EncodeVarint(8 * tag + 4) + rest;
    if inner == [] {
      KeyIsRead(tag, 4, rest);
      assert ForeignsBytes(inner) + end == end;
    } else {
      var f, later := inner[0], ForeignsBytes(inner[1..]) + end;
      var wireType := match f case Varint(_, _) => 0 case Fixed64(_, _) => 1 case Delimited(_, _) => 2
                              case Group(_, _) => 3 case Fixed32(_, _) => 5;
      KeyIsRead(f.tag, wireType, ForeignBody(f) + later);
      ForeignIsSkipped(f, later, depth - 1);
      assert ForeignsBytes(inner) + end == EncodeVarint(8 * f.tag + wireType) + (ForeignBody(f) + later);
      if Nesting(f) <= depth - 1 {
        ForeignsAreSkipped(tag, inner[1..], rest, depth);
      }
    }
  }

  // ---- Messages ---------------------------------------------------------------------------------

  datatype Field =
    | ProtocolVersion(number: i32)
    | SourceId(text: Utf8)
    | DestinationId(text: Utf8)
    | Namespace(text: Utf8)
    | PayloadType(number: i32)
    | PayloadUtf8(text: Utf8)
    | PayloadBinary(bytes: seq<byte>)
    | Unknown(foreign: Foreign)

  /** A negative number is written in 64 bits of two's complement. */
  function NumberBytes(n: i32): seq<byte> {
    EncodeVarint(if n < 0 then n + 0x1_0000_0000_0000_0000 else n)
  }

  function SizedBytes(bytes: seq<byte>): seq<byte> {
    EncodeVarint(|bytes|) + bytes
  }

  function FieldBytes(f: Field): seq<byte> {
    match f
    case ProtocolVersion(n) => [0x08] + NumberBytes(n)
    case SourceId(text) => [0x12] + SizedBytes(text)
    case DestinationId(text) => [0x1A] + SizedBytes(text)
    case Namespace(text) => [0x22] + SizedBytes(text)
    case PayloadType(n) => [0x28] + NumberBytes(n)
    case PayloadUtf8(text) => [0x32] + SizedBytes(text)
    case PayloadBinary(bytes) => [0x3A] + SizedBytes(bytes)
    case Unknown(foreign) => ForeignBytes(foreign)
  }

  function FieldsBytes(fields: seq<Field>): seq<byte> {
    if fields == [] then [] else FieldBytes(fields[0]) + FieldsBytes(fields[1..])
  }

  predicate GoodField(f: Field) {
    match f
    case SourceId(text) => |text| < 0x1_0000_0000_0000_0000
    case DestinationId(text) => |text| < 0x1_0000_0000_0000_0000
    case Namespace(text) => |text| < 0x1_0000_0000_0000_0000
    case PayloadUtf8(text) => |text| < 0x1_0000_0000_0000_0000
    case PayloadBinary(bytes) => |bytes| < 0x1_0000_0000_0000_0000
    case Unknown(foreign) => foreign.tag > 7 && GoodForeign(foreign)
    case _ => true
  }

  /** Good fields, with groups nested at most 100 deep. */
  predicate AllGood(fields: seq<Field>) {
    forall i | 0 <= i < |fields| ::
      GoodField(fields[i]) && (fields[i].Unknown? ==> Nesting(fields[i].foreign) <= 100)
  }

  function Set(m: CastMessage, f: Field): CastMessage {
    match f
    case ProtocolVersion(n) => m.(protocolVersion := Some(n))
    case SourceId(text) => m.(sourceId := text)
    case DestinationId(text) => m.(destinationId := text)
    case Namespace(text) => m.(namespace := text)
    case PayloadType(n) => m.(payloadType := Some(n))
    case PayloadUtf8(text) => m.(payloadUtf8 := Some(text))
    case PayloadBinary(bytes) => m.(payloadBinary := Some(bytes))
    case Unknown(_) => m
  }

  function SetAll(m: CastMessage, fields: seq<Field>): CastMessage
    decreases |fields|
  {
    if fields == [] then m else SetAll(Set(m, fields[0]), fields[1..])
  }

  /** The fields written for a message, in order: numbers and optional payloads when present, texts when not
      empty. */
  function MessageFields(m: CastMessage): seq<Field> {
    (if m.protocolVersion.Some? then [ProtocolVersion(m.protocolVersion.value)] else []) +
    ((if m.sourceId != [] then [SourceId(m.sourceId)] else []) +
    ((if m.destinationId != [] then [DestinationId(m.destinationId)] else []) +
    ((if m.namespace != [] then [Namespace(m.namespace)] else []) +
    ((if m.payloadType.Some? then [PayloadType(m.payloadType.value)] else []) +
    ((if m.payloadUtf8.Some? then [PayloadUtf8(m.payloadUtf8.value)] else []) +
    (if m.payloadBinary.Some? then [PayloadBinary(m.payloadBinary.value)] else []))))))
  }

  /** At most one field, and its bytes. */
  predicate IsPart(fields: seq<Field>, bytes: seq<byte>) {
    |fields| <= 1 && bytes == if fields == [] then [] else FieldBytes(fields[0])
  }

  lemma OneField(first: seq<Field>, bytes: seq<byte>, rest: seq<Field>, restBytes: seq<byte>)
    requires IsPart(first, bytes) && FieldsBytes(rest) == restBytes
    ensures FieldsBytes(first + rest) == bytes + restBytes
  {
    if first == [] {
      assert first + rest == rest;
    } else {
      assert (first + rest)[1..] == rest;
    }
  }

  lemma LastField(last: seq<Field>, bytes: seq<byte>)
    requires IsPart(last, bytes)
    ensures FieldsBytes(last) == bytes
  {
    assert last != [] ==> last[1..] == [] && FieldBytes(last[0]) + [] == FieldBytes(last[0]);
  }

  lemma SizedField(tag: nat, bytes: seq<byte>)
    requires 1 <= tag <= 7
    ensures LenField(tag, bytes) == [8 * tag + 2] + SizedBytes(bytes)
  {
    Associative([Key(tag, LEN)], EncodeVarint(|bytes|), bytes);
  }

  lemma NumberPart(tag: nat, v: Option<i32>)
    requires tag == 1 || tag == 5
    ensures IntField(tag, v) == match v case None => [] case Some(n) => [8 * tag] + NumberBytes(n)
  {
    hide EncodeVarint;
  }

  lemma TextPart(tag: nat, text: Utf8, f: Field)
    requires 2 <= tag <= 4 && FieldBytes(f) == [8 * tag + 2] + SizedBytes(text)
    ensures IsPart(if text != [] then [f] else [],
                   StringField(tag, text))
  {
    SizedField(tag, text);
    hide LenField, SizedBytes, FieldBytes;
  }

  lemma PayloadPart(tag: nat, data: Option<seq<byte>>, fields: seq<Field>)
    requires 6 <= tag <= 7
    requires match data
      case None => fields == []
      case Some(bytes) => |fields| == 1 && FieldBytes(fields[0]) == [8 * tag + 2] + SizedBytes(bytes)
    ensures IsPart(fields, OptionalField(tag, data))
  {
    if data.Some? {
      SizedField(tag, data.value);
    }
    hide LenField, SizedBytes, FieldBytes;
  }

  lemma NumberParts(m: CastMessage)
    ensures IsPart(if m.protocolVersion.Some? then [ProtocolVersion(m.protocolVersion.value)] else [],
                   IntField(1, m.protocolVersion))
    ensures IsPart(if m.payloadType.Some? then [PayloadType(m.payloadType.value)] else [],
                   IntField(5, m.payloadType))
  {
    NumberPart(1, m.protocolVersion);
    NumberPart(5, m.payloadType);
    hide IntField, NumberBytes;
  }

  lemma TextParts(m: CastMessage)
    ensures IsPart(if m.sourceId != [] then [SourceId(m.sourceId)] else [],
                   StringField(2, m.sourceId))
    ensures IsPart(if m.destinationId != [] then [DestinationId(m.destinationId)] else [],
                   StringField(3, m.destinationId))
    ensures IsPart(if m.namespace != [] then [Namespace(m.namespace)] else [],
                   StringField(4, m.namespace))
  {
    hide StringField, SizedBytes, ValidUtf8, IsPart;
    TextPart(2, m.sourceId, SourceId(m.sourceId));
    TextPart(3, m.destinationId, DestinationId(m.destinationId));
    TextPart(4, m.namespace, Namespace(m.namespace));
  }

  lemma PayloadParts(m: CastMessage)
    ensures IsPart(if m.payloadUtf8.Some? then [PayloadUtf8(m.payloadUtf8.value)] else [],
                   OptionalField(6, m.payloadUtf8))
    ensures IsPart(if m.payloadBinary.Some? then [PayloadBinary(m.payloadBinary.value)] else [],
                   OptionalField(7, m.payloadBinary))
  {
    hide OptionalField, SizedBytes, ValidUtf8, IsPart;
    PayloadPart(6, m.payloadUtf8, if m.payloadUtf8.Some? then [PayloadUtf8(m.payloadUtf8.value)] else []);
    PayloadPart(7, m.payloadBinary, if m.payloadBinary.Some? then [PayloadBinary(m.payloadBinary.value)] else []);
  }

  /** A message is encoded as exactly the bytes of its fields. */
  lemma EncodedMessageBytes(m: CastMessage)
    ensures EncodeMessage(m) == FieldsBytes(MessageFields(m))
  {
    hide FieldsBytes, IntField, StringField, OptionalField, ValidUtf8, IsPart;
    var f7: seq<Field> := if m.payloadBinary.Some? then [PayloadBinary(m.payloadBinary.value)] else [];
    var f6: seq<Field> := if m.payloadUtf8.Some? then [PayloadUtf8(m.payloadUtf8.value)] else [];
    var f5: seq<Field> := if m.payloadType.Some? then [PayloadType(m.payloadType.value)] else [];
    var f4: seq<Field> := if m.namespace != [] then [Namespace(m.namespace)] else [];
    var f3: seq<Field> := if m.destinationId != [] then [DestinationId(m.destinationId)] else [];
    var f2: seq<Field> := if m.sourceId != [] then [SourceId(m.sourceId)] else [];
    var f1: seq<Field> := if m.protocolVersion.Some? then [ProtocolVersion(m.protocolVersion.value)] else [];
    NumberParts(m);
    TextParts(m);
    PayloadParts(m);
    SevenFields(m, f1, f2, f3, f4, f5, f6, f7);
  }

  lemma SevenFields(m: CastMessage, f1: seq<Field>, f2: seq<Field>, f3: seq<Field>, f4: seq<Field>, f5: seq<Field>,
                    f6: seq<Field>, f7: seq<Field>)
    ensures
      && IsPart(f1, IntField(1, m.protocolVersion)) && IsPart(f5, IntField(5, m.payloadType))
      && IsPart(f2, StringField(2, m.sourceId)) && IsPart(f3, StringField(3, m.destinationId))
      && IsPart(f4, StringField(4, m.namespace))
      && IsPart(f6, OptionalField(6, m.payloadUtf8)) && IsPart(f7, OptionalField(7, m.payloadBinary))
      ==> EncodeMessage(m) == FieldsBytes(f1 + (f2 + (f3 + (f4 + (f5 + (f6 + f7))))))
  {
    hide FieldsBytes, IntField, StringField, OptionalField, ValidUtf8, IsPart;
    if
      || !IsPart(f1, IntField(1, m.protocolVersion)) || !IsPart(f5, IntField(5, m.payloadType))
      || !IsPart(f2, StringField(2, m.sourceId)) || !IsPart(f3, StringField(3, m.destinationId))
      || !IsPart(f4, StringField(4, m.namespace))
      || !IsPart(f6, OptionalField(6, m.payloadUtf8)) || !IsPart(f7, OptionalField(7, m.payloadBinary))
    {
      return;
    }
    var b7 := OptionalField(7, m.payloadBinary);
    var b6 := OptionalField(6, m.payloadUtf8) + b7;
    var b5 := IntField(5, m.payloadType) + b6;
    var b4 := StringField(4, m.namespace) + b5;
    var b3 := StringField(3, m.destinationId) + b4;
    var b2 := StringField(2, m.sourceId) + b3;
    LastField(f7, b7);
    OneField(f6, OptionalField(6, m.payloadUtf8), f7, b7);
    OneField(f5, IntField(5, m.payloadType), f6 + f7, b6);
    OneField(f4, StringField(4, m.namespace), f5 + (f6 + f7), b5);
    OneField(f3, StringField(3, m.destinationId), f4 + (f5 + (f6 + f7)), b4);
    OneField(f2, StringField(2, m.sourceId), f3 + (f4 + (f5 + (f6 + f7))), b3);
    OneField(f1, IntField(1, m.protocolVersion), f2 + (f3 + (f4 + (f5 + (f6 + f7)))), b2);
  }

  lemma NumberIsMerged(m: CastMessage, tag: nat, n: i32, rest: seq<byte>)
    requires tag == 1 || tag == 5
    ensures MergeFields(m, [8 * tag] + NumberBytes(n) + rest)
         == MergeFields(if tag == 1 then m.(protocolVersion := Some(n)) else m.(payloadType := Some(n)), rest)
  {
    var body := NumberBytes(n) + rest;
    assert NumberBytes(n) == EncodeVarint(SignExtend(n));
    Associative([8 * tag as byte], NumberBytes(n), rest);
    KeyRoundTrip(tag, 0, body);
    SignRoundTrip(n);
    VarintRoundTrip(SignExtend(n), rest);
    OneMerge(m, tag, 0, [8 * tag] + NumberBytes(n) + rest, body);
    hide EncodeVarint, DecodeVarint, DecodeKey, MergeFields, SignExtend, TruncateI32, NumberBytes;
  }

  lemma SizedIsMerged(m: CastMessage, tag: nat, bytes: seq<byte>, rest: seq<byte>)
    requires 2 <= tag <= 7 && tag != 5 && (tag != 7 ==> ValidUtf8(bytes)) && |bytes| < U64_RANGE
    ensures MergeFields(m, [8 * tag + 2] + SizedBytes(bytes) + rest) == MergeFields(WithBytes(m, tag, bytes), rest)
  {
    SizedField(tag, bytes);
    MergeLenField(m, tag, bytes, rest);
  }

  lemma FieldIsMerged(m: CastMessage, f: Field, rest: seq<byte>)
    requires GoodField(f) && (f.Unknown? ==> Nesting(f.foreign) <= 100)
    ensures MergeFields(m, FieldBytes(f) + rest) == MergeFields(Set(m, f), rest)
  {
    hide MergeFields, SizedBytes, NumberBytes, ForeignBytes, ValidUtf8;
    match f {
      case ProtocolVersion(n) => NumberIsMerged(m, 1, n, rest);
      case PayloadType(n) => NumberIsMerged(m, 5, n, rest);
      case SourceId(text) => SizedIsMerged(m, 2, text, rest);
      case DestinationId(text) => SizedIsMerged(m, 3, text, rest);
      case Namespace(text) => SizedIsMerged(m, 4, text, rest);
      case PayloadUtf8(text) => SizedIsMerged(m, 6, text, rest);
      case PayloadBinary(bytes) => SizedIsMerged(m, 7, bytes, rest);
      case Unknown(foreign) => UnknownIsMerged(m, foreign, rest);
    }
  }

  lemma OneMerge(m: CastMessage, tag: nat, wireType: nat, buf: seq<byte>, body: seq<byte>)
    requires DecodeKey(buf) == Some((tag, wireType, body))
    ensures MergeFields(m, buf) == match MergeField(m, tag, wireType, body)
      case None => None
      case Some((m', rest)) => MergeFields(m', rest)
  {
    hide DecodeKey, MergeField;
  }

  lemma UnknownIsMerged(m: CastMessage, f: Foreign, rest: seq<byte>)
    requires GoodForeign(f) && f.tag > 7
    ensures MergeFields(m, ForeignBytes(f) + rest) == if Nesting(f) <= 100 then MergeFields(m, rest) else None
  {
    var wireType := match f case Varint(_, _) => 0 case Fixed64(_, _) => 1 case Delimited(_, _) => 2
                            case Group(_, _) => 3 case Fixed32(_, _) => 5;
    var key := EncodeVarint(8 * f.tag + wireType);
    assert ForeignBytes(f) == key + ForeignBody(f);
    Associative(key, ForeignBody(f), rest);
    KeyIsRead(f.tag, wireType, ForeignBody(f) + rest);
    ForeignIsSkipped(f, rest, 100);
    OneMerge(m, f.tag, wireType, ForeignBytes(f) + rest, ForeignBody(f) + rest);
    hide EncodeVarint, DecodeKey, SkipField, ForeignBody, ForeignBytes, Nesting, GoodForeign, MergeFields;
  }

  /** Any fields in any order are decoded: the last of each kind is taken, unknown ones are stepped over. */
  lemma {:induction false} FieldsAreMerged(m: CastMessage, fields: seq<Field>)
    requires AllGood(fields)
    ensures MergeFields(m, FieldsBytes(fields)) == Some(SetAll(m, fields))
    decreases |fields|
  {
    hide GoodField, Nesting, FieldBytes, Set;
    if fields != [] {
      hide MergeFields;
      FieldIsMerged(m, fields[0], FieldsBytes(fields[1..]));
      FieldsAreMerged(Set(m, fields[0]), fields[1..]);
    }
  }

  /** Bytes made of fields decode to the message with these fields set. */
  lemma FieldsAreDecoded(fields: seq<Field>)
    requires AllGood(fields)
    ensures DecodeMessage(FieldsBytes(fields)) == Some(SetAll(CastMessage(None, [], [], [], None, None, None), fields))
  {
    FieldsAreMerged(EMPTY_MESSAGE, fields);
  }

  // ---- What does not decode ---------------------------------------------------------------------

  /** A known field under a wire type that is not its own. */
  lemma WrongWireType(m: CastMessage, tag: nat, wireType: nat, rest: seq<byte>)
    requires 1 <= tag <= 7 && wireType <= 7
    requires if tag == 1 || tag == 5 then wireType != 0 else wireType != 2
    ensures MergeFields(m, [8 * tag + wireType] + rest) == None
  {
    var buf := [8 * tag + wireType as byte] + rest;
    if wireType <= 5 {
      KeyRoundTrip(tag, wireType, rest);
      OneMerge(m, tag, wireType, buf, rest);
      hide MergeFields, DecodeKey, SkipField;
    } else {
      assert buf[1..] == rest;
      assert DecodeVarint(buf) == Some((8 * tag + wireType, rest));
      hide DecodeVarint;
      assert DecodeKey(buf) == None;
      hide DecodeKey, MergeField;
    }
  }

  /** A key with tag 0, with no such wire type, or with more than 32 bits. */
  lemma BadKey(m: CastMessage, key: nat, rest: seq<byte>)
    requires key < 0x1_0000_0000_0000_0000 && (key / 8 == 0 || key % 8 > 5 || key >= 0x1_0000_0000)
    ensures MergeFields(m, EncodeVarint(key) + rest) == None
  {
    VarintRoundTrip(key, rest);
    hide DecodeVarint, EncodeVarint;
  }

  /** A text that is not UTF-8, and a field shorter than its length says. */
  lemma BadContent(m: CastMessage, tag: nat, length: nat, rest: seq<byte>)
    requires 2 <= tag <= 7 && tag != 5 && length < 0x1_0000_0000_0000_0000
    requires length > |rest| || (tag != 7 && !ValidUtf8(rest[..length]))
    ensures MergeFields(m, [8 * tag + 2] + (EncodeVarint(length) + rest)) == None
  {
    KeyRoundTrip(tag, 2, EncodeVarint(length) + rest);
    VarintRoundTrip(length, rest);
    OneMerge(m, tag, 2, [8 * tag + 2] + (EncodeVarint(length) + rest), EncodeVarint(length) + rest);
    hide DecodeVarint, EncodeVarint, DecodeKey, ValidUtf8, MergeFields;
  }

  /** An unknown field that is cut short, or a group that is ended by another tag or was never opened. */
  lemma BadForeign(m: CastMessage, tag: nat, wireType: nat, body: seq<byte>, n: nat, rest: seq<byte>)
    requires 8 <= tag < 0x2000_0000 && wireType <= 5
    requires match wireType
      case 0 => forall i | 0 <= i < |body| :: body[i] >= 128
      case 1 => |body| < 8
      case 2 => body == EncodeVarint(n) + rest && |rest| < n < 0x1_0000_0000_0000_0000
      case 3 => body == EncodeVarint(8 * n + 4) + rest && IsTag(n) && n != tag
      case 4 => true
      case _ => |body| < 4
    ensures MergeFields(m, EncodeVarint(8 * tag + wireType) + body) == None
  {
    KeyIsRead(tag, wireType, body);
    OneMerge(m, tag, wireType, EncodeVarint(8 * tag + wireType) + body, body);
    hide MergeFields, DecodeKey, EncodeVarint;
    if wireType == 0 {
      UnendedVarint(body, 0);
      assert DecodeVarint(body) == None;
    } else if wireType == 2 {
      VarintRoundTrip(n, rest);
      assert DecodeVarint(body) == Some((n, rest));
      assert DecodeLen(body) == None;
    } else if wireType == 3 {
      KeyIsRead(n, 4, rest);
      assert SkipGroup(tag, body, 100) == None;
    }
  }

  // ---- Frames -----------------------------------------------------------------------------------

  /** What is written: the length of the payload, most significant byte first, and the payload's fields. */
  lemma FrameBytes(m: CastMessage)
    ensures var frame, payload := Frame(m), FieldsBytes(MessageFields(m));
      && |frame| == 4 + |payload| && frame[4..] == payload
      && (frame[0] as int) * 0x100_0000 + (frame[1] as int) * 0x1_0000 + (frame[2] as int) * 0x100 + frame[3]
         == |payload| % 0x1_0000_0000
  {
    EncodedMessageBytes(m);
    var n := |EncodeMessage(m)| % U32_RANGE;
    BigEndianRoundTrip(n);
    assert Frame(m)[..4] == BigEndian(n) && Frame(m)[4..] == EncodeMessage(m);
    assert Frame(m)[0] == Frame(m)[..4][0] && Frame(m)[1] == Frame(m)[..4][1];
    assert Frame(m)[2] == Frame(m)[..4][2] && Frame(m)[3] == Frame(m)[..4][3];
    hide EncodeMessage, FieldsBytes, MessageFields;
  }

  /** The frame a peer writes for a payload: its length, most significant byte first, and the payload. */
  function PayloadFrame(payload: seq<byte>): (frame: seq<byte>)
    requires |payload| < 0x1_0000_0000
    ensures |frame| == 4 + |payload|
  {
    var n := |payload|;
    [n / 0x100_0000, n / 0x1_0000 % 0x100, n / 0x100 % 0x100, n % 0x100] + payload
  }

  lemma DivideByBytes(n: nat)
    ensures n / 0x1_0000 == n / 0x100 / 0x100 && n / 0x100_0000 == n / 0x100 / 0x100 / 0x100
  {
  }

  lemma LengthIsRead(n: nat, rest: seq<byte>)
    requires n < 0x1_0000_0000
    ensures var buf := [n / 0x100_0000, n / 0x1_0000 % 0x100, n / 0x100 % 0x100, n % 0x100] + rest;
      |buf| == 4 + |rest| && FromBigEndian(buf[..4]) == n
  {
    DivideByBytes(n);
    var buf := [n / 0x100_0000, n / 0x1_0000 % 0x100, n / 0x100 % 0x100, n % 0x100] + rest;
    assert buf[..4] == BigEndian(n);
    BigEndianRoundTrip(n);
    hide FromBigEndian, BigEndian;
  }

  /** A frame of a payload, read with anything behind it, and read in part. */
  lemma PayloadIsRead(payload: seq<byte>, rest: seq<byte>)
    requires |payload| < 0x1_0000_0000
    ensures DecodeFrame(PayloadFrame(payload) + rest)
         == match DecodeMessage(payload) case None => None case Some(m) => Some((m, 4 + |payload|))
  {
    var n := |payload|;
    LengthIsRead(n, payload + rest);
    hide DecodeMessage, FromBigEndian;
    var head: seq<byte> := [n / 0x100_0000, n / 0x1_0000 % 0x100, n / 0x100 % 0x100, n % 0x100];
    Associative(head, payload, rest);
    assert (head + (payload + rest))[4..4 + n] == payload;
  }

  lemma PartIsNotRead(payload: seq<byte>, k: nat)
    requires |payload| < 0x1_0000_0000 && k < 4 + |payload|
    ensures DecodeFrame(PayloadFrame(payload)[..k]) == None
  {
    var n := |payload|;
    LengthIsRead(n, payload);
    hide DecodeMessage, FromBigEndian;
    var frame := PayloadFrame(payload);
    assert k >= 4 ==> frame[..k][..4] == frame[..4];
  }

  /** What is read, whatever follows: a frame of any fields gives the message with these set, and its length. A
      part of it gives nothing. */
  lemma FieldsFrameIsRead(fields: seq<Field>, rest: seq<byte>, k: nat)
    requires |FieldsBytes(fields)| < 0x1_0000_0000 && k < 4 + |FieldsBytes(fields)|
    requires AllGood(fields)
    ensures var frame := PayloadFrame(FieldsBytes(fields));
      && DecodeFrame(frame + rest)
         == Some((SetAll(CastMessage(None, [], [], [], None, None, None), fields), 4 + |FieldsBytes(fields)|))
      && DecodeFrame(frame[..k]) == None
  {
    hide *;
    FieldsAreDecoded(fields);
    PayloadIsRead(FieldsBytes(fields), rest);
    PartIsNotRead(FieldsBytes(fields), k);
  }

  lemma {:induction false} AsciiAt(text: string, i: nat)
    requires (forall k | 0 <= k < |text| :: text[k] < 128 as char) && i < |text|
    ensures Ascii(text)[i] == text[i] as int
  {
    if i > 0 {
      AsciiAt(text[1..], i - 1);
    }
  }

  lemma SenderBytes()
    ensures Ascii("sender-0") == [0x73, 0x65, 0x6E, 0x64, 0x65, 0x72, 0x2D, 0x30]
  {
    var text := "sender-0";
    var bytes: seq<byte> := Ascii(text);
    hide Ascii, ValidUtf8;
    assert |bytes| == 8;
    forall i | 0 <= i < 8 ensures bytes[i] == text[i] as int {
      AsciiAt(text, i);
    }
  }

  /** The messages of the session: protocol version 0, from "sender-0", to a destination, in a namespace, with a
      payload of type 0 that is the text. */
  lemma StringMessageBytes(namespace: Utf8, destination: Utf8, json: Utf8)
    ensures var m := StringMessage(namespace, destination, json);
      && m.sourceId == [0x73, 0x65, 0x6E, 0x64, 0x65, 0x72, 0x2D, 0x30]
      && m == CastMessage(Some(0), m.sourceId, destination, namespace, Some(0), Some(json), None)
      && (namespace != [] && destination != [] ==>
            EncodeMessage(m) ==
            FieldsBytes([ProtocolVersion(0), SourceId(m.sourceId), DestinationId(destination), Namespace(namespace),
                         PayloadType(0), PayloadUtf8(json)]))
  {
    SenderBytes();
    hide Ascii, ValidUtf8;
    var m := StringMessage(namespace, destination, json);
    EncodedMessageBytes(m);
    hide FieldsBytes, EncodeMessage;
    if namespace != [] && destination != [] {
      assert MessageFields(m) == [ProtocolVersion(0), SourceId(m.sourceId), DestinationId(destination),
                                  Namespace(namespace), PayloadType(0), PayloadUtf8(json)];
    }
  }

  // ---- UTF-8 ------------------------------------------------------------------------------------

  /** A Unicode scalar value: no surrogate. */
  predicate IsScalar(c: nat) {
    c < 0xD800 || 0xE000 <= c < 0x11_0000
  }

  /** One to four bytes, with six bits of the number in each byte after the first. */
  function ScalarBytes(c: nat): (bytes: seq<byte>)
    requires IsScalar(c)
    ensures bytes != []
  {
    if c < 0x80 then [c]
    else if c < 0x800 then [0xC0 + c / 0x40, 0x80 + c % 0x40]
    else if c < 0x1_0000 then [0xE0 + c / 0x1000, 0x80 + c / 0x40 % 0x40, 0x80 + c % 0x40]
    else [0xF0 + c / 0x4_0000, 0x80 + c / 0x1000 % 0x40, 0x80 + c / 0x40 % 0x40, 0x80 + c % 0x40]
  }

  ghost predicate IsText(scalars: seq<nat>) {
    forall i | 0 <= i < |scalars| :: IsScalar(scalars[i])
  }

  function TextBytes(scalars: seq<nat>): seq<byte>
    requires IsText(scalars)
  {
    if scalars == [] then [] else ScalarBytes(scalars[0]) + TextBytes(scalars[1..])
  }

  lemma ScalarIsHead(c: nat, rest: seq<byte>)
    requires IsScalar(c)
    ensures Utf8Head(ScalarBytes(c) + rest) == |ScalarBytes(c)|
  {
    SixBits(c / 0x40, c % 0x40);
    SixBits(c / 0x1000, c / 0x40 % 0x40);
    DivideTwice(c);
    if 0x800 <= c < 0x1_0000 {
      assert c / 0x1000 == 0 ==> c / 0x40 % 0x40 >= 0x20;
      assert c / 0x1000 == 0xD ==> c / 0x40 % 0x40 < 0x20;
    } else if c >= 0x1_0000 {
      assert c / 0x4_0000 == 0 ==> c / 0x1000 % 0x40 >= 0x10;
      assert c / 0x4_0000 == 4 ==> c / 0x1000 % 0x40 < 0x10;
    }
  }

  lemma {:induction false} TextIsValid(scalars: seq<nat>)
    requires IsText(scalars)
    ensures ValidUtf8(TextBytes(scalars))
  {
    if scalars != [] {
      hide Utf8Head, ScalarBytes;
      var first, rest := ScalarBytes(scalars[0]), TextBytes(scalars[1..]);
      ScalarIsHead(scalars[0], rest);
      TextIsValid(scalars[1..]);
      assert (first + rest)[|first|..] == rest;
    }
  }

  lemma SixBits(high: nat, low: nat)
    requires low < 0x40
    ensures (0x40 * high + low) / 0x40 == high && (0x40 * high + low) % 0x40 == low
  {
  }

  lemma DivideTwice(c: nat)
    ensures c / 0x1000 == c / 0x40 / 0x40 && c / 0x4_0000 == c / 0x40 / 0x40 / 0x40
  {
  }

  /** The number in two, three and four bytes. */
  lemma TwoBytes(a: nat, b: nat) returns (c: nat)
    requires 2 <= a < 0x20 && b < 0x40
    ensures IsScalar(c) && ScalarBytes(c) == [0xC0 + a, 0x80 + b]
  {
    c := 0x40 * a + b;
    SixBits(a, b);
  }

  lemma ThreeBytes(a: nat, b: nat, d: nat) returns (c: nat)
    requires a < 0x10 && b < 0x40 && d < 0x40 && (a == 0 ==> b >= 0x20) && (a == 0xD ==> b < 0x20)
    ensures IsScalar(c) && ScalarBytes(c) == [0xE0 + a, 0x80 + b, 0x80 + d]
  {
    var h := 0x40 * a + b;
    c := 0x40 * h + d;
    SixBits(a, b);
    SixBits(h, d);
    DivideTwice(c);
  }

  lemma FourBytes(a: nat, b: nat, d: nat, e: nat) returns (c: nat)
    requires a < 5 && b < 0x40 && d < 0x40 && e < 0x40 && (a == 0 ==> b >= 0x10) && (a == 4 ==> b < 0x10)
    ensures IsScalar(c) && ScalarBytes(c) == [0xF0 + a, 0x80 + b, 0x80 + d, 0x80 + e]
  {
    var h := 0x40 * a + b;
    var h' := 0x40 * h + d;
    c := 0x40 * h' + e;
    SixBits(a, b);
    SixBits(h, d);
    SixBits(h', e);
    DivideTwice(c);
  }

  lemma HeadIsScalar(s: seq<byte>) returns (c: nat)
    requires s != [] && Utf8Head(s) > 0
    ensures IsScalar(c) && s[..Utf8Head(s)] == ScalarBytes(c)
  {
    hide ScalarBytes, IsScalar;
    var n, b := Utf8Head(s), s[0] as int;
    if n == 1 {
      c := b;
      OneByte(c);
    } else if n == 2 {
      c := TwoBytes(b - 0xC0, (s[1] as int) - 0x80);
    } else if n == 3 {
      c := ThreeBytes(b - 0xE0, (s[1] as int) - 0x80, (s[2] as int) - 0x80);
    } else {
      c := FourBytes(b - 0xF0, (s[1] as int) - 0x80, (s[2] as int) - 0x80, (s[3] as int) - 0x80);
    }
  }

  lemma OneByte(c: nat)
    requires c < 0x80
    ensures IsScalar(c) && ScalarBytes(c) == [c]
  {
  }

  lemma Prepend(c: nat, later: seq<nat>, s: seq<byte>, n: nat)
    requires IsScalar(c) && IsText(later) && n <= |s| && s[..n] == ScalarBytes(c) && s[n..] == TextBytes(later)
    ensures IsText([c] + later) && s == TextBytes([c] + later)
  {
    hide ScalarBytes, IsScalar;
    assert ([c] + later)[1..] == later;
    assert s == s[..n] + s[n..];
  }

  lemma {:induction false} ScalarsOf(s: seq<byte>) returns (scalars: seq<nat>)
    requires ValidUtf8(s)
    ensures IsText(scalars) && s == TextBytes(scalars)
    decreases |s|
  {
    if s == [] {
      scalars := [];
    } else {
      var c := HeadIsScalar(s);
      var n := Utf8Head(s);
      var later := ScalarsOf(s[n..]);
      hide Utf8Head, ScalarBytes, IsScalar, ValidUtf8;
      scalars := [c] + later;
      Prepend(c, later, s, n);
    }
  }

  /** Valid UTF-8 is, no more and no less, the bytes of a sequence of scalar values. */
  lemma ValidUtf8Iff(s: seq<byte>)
    ensures ValidUtf8(s) <==> exists scalars :: IsText(scalars) && s == TextBytes(scalars)
  {
    hide ValidUtf8, TextBytes, IsText;
    forall scalars | IsText(scalars) && s == TextBytes(scalars) ensures ValidUtf8(s) {
      TextIsValid(scalars);
    }
    if ValidUtf8(s) {
      var scalars := ScalarsOf(s);
    }
  }
}
