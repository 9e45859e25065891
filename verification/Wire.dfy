/**
 The part of the Protocol Buffers wire format that the generated message code rests on:
 base-128 varints, tags, length-delimited payloads, and the field-by-field record they carry.
 A record maps a field number to its value; a field that is absent from the map is one whose
 presence bit is clear.
 */
module Wire {
  import Seqs

  type Byte = b: int | 0 <= b < 256
  type Bytes = seq<Byte>

  const TWO_31 := 0x8000_0000
  const TWO_32 := 0x1_0000_0000
  const TWO_64 := 0x1_0000_0000_0000_0000
  // A varint occupies at most ten bytes.
  const MAX_VARINT := 10
  // All fields of the messages modelled here have one-byte tags.
  const MAX_FIELD := 15

  datatype Option<+T> = None | Some(value: T) {
    function GetOr(default: T): T {
      if Some? then value else default
    }
  }

  // A size narrowed to int.
  function Narrow32(n: nat): (r: int)
    ensures n < TWO_31 ==> r == n
  {
    var m := n % 0x1_0000_0000;
    if m < 0x8000_0000 then m else m - 0x1_0000_0000
  }

  datatype Read<+T> = Bad | Got(value: T, rest: Bytes)

  // ---------------------------------------------------------------- varints

  function EncodeVarint(n: nat): Bytes {
    if n < 128 then [n] else [n % 128 + 128] + EncodeVarint(n / 128)
  }

  function ReadVarint(input: Bytes, limit: nat): (r: Read<nat>)
    ensures r.Got? ==> |r.rest| < |input|
    decreases |input|
  {
    if limit == 0 || input == [] then Bad
    else if input[0] < 128 then Got(input[0], input[1..])
    else
      match ReadVarint(input[1..], limit - 1)
      case Bad => Bad
      case Got(high, rest) => Got(input[0] - 128 + 128 * high, rest)
  }

  // Longer varints are cut to the width of the field they are read into.
  function ReadVarint32(input: Bytes): (r: Read<nat>)
    ensures r.Got? ==> |r.rest| < |input| && r.value < TWO_32
  {
    match ReadVarint(input, MAX_VARINT)
    case Bad => Bad
    case Got(v, rest) => Got(v % 0x1_0000_0000, rest)
  }

  function ReadVarint64(input: Bytes): (r: Read<nat>)
    ensures r.Got? ==> |r.rest| < |input| && r.value < TWO_64
  {
    match ReadVarint(input, MAX_VARINT)
    case Bad => Bad
    case Got(v, rest) => Got(v % 0x1_0000_0000_0000_0000, rest)
  }

  // The least number that needs more than `size` varint bytes.
  function VarintLimit(size: nat): nat {
    if size == 0 then 1 else 128 * VarintLimit(size - 1)
  }

  lemma {:induction false} VarintRoundTrip(n: nat, limit: nat, rest: Bytes)
    requires limit > 0 && n < VarintLimit(limit)
    ensures |EncodeVarint(n)| <= limit
    ensures ReadVarint(EncodeVarint(n) + rest, limit) == Got(n, rest)
    decreases limit
  {
    var code := EncodeVarint(n);
    if n < 128 {
      assert (code + rest)[1..] == rest;
    } else {
      VarintRoundTrip(n / 128, limit - 1, rest);
      assert (code + rest)[1..] == EncodeVarint(n / 128) + rest;
    }
  }

  /** 300 is the two bytes 172 and 2: the low seven bits first, more to come. */
  lemma VarintBytes()
    ensures EncodeVarint(300) == [172, 2]
  {
    assert EncodeVarint(2) == [2];
  }

  /** Ten bytes that all announce another one are no varint. */
  lemma LongVarintRefused(input: Bytes)
    requires |input| >= 10 && forall i :: 0 <= i < 10 ==> input[i] >= 128
    ensures ReadVarint(input, MAX_VARINT) == Bad
  {
    NoEndInSight(input, 10);
  }

  lemma {:induction false} NoEndInSight(input: Bytes, limit: nat)
    requires |input| >= limit && forall i :: 0 <= i < limit ==> input[i] >= 128
    ensures ReadVarint(input, limit) == Bad
    decreases limit
  {
    if limit > 0 {
      NoEndInSight(input[1..], limit - 1);
    }
  }

  lemma OneByteVarint(n: nat)
    requires n < 128
    ensures EncodeVarint(n) == [n]
  {
  }

  lemma VarintNonEmpty(n: nat)
    ensures |EncodeVarint(n)| > 0
  {
  }

  lemma TenBytesHold64Bits()
    ensures VarintLimit(MAX_VARINT) >= TWO_64
  {
    assert VarintLimit(3) == 0x20_0000;
    assert VarintLimit(6) == 0x20_0000 * 0x20_0000;
    assert VarintLimit(9) == 0x20_0000 * 0x20_0000 * 0x20_0000;
  }

  lemma Varint32RoundTrip(n: nat, rest: Bytes)
    requires n < TWO_64
    ensures ReadVarint32(EncodeVarint(n) + rest) == Got(n % 0x1_0000_0000, rest)
    ensures n < TWO_32 ==> ReadVarint32(EncodeVarint(n) + rest) == Got(n, rest)
  {
    hide EncodeVarint, ReadVarint, VarintLimit;
    TenBytesHold64Bits();
    VarintRoundTrip(n, MAX_VARINT, rest);
  }

  lemma Varint64RoundTrip(n: nat, rest: Bytes)
    requires n < TWO_64
    ensures ReadVarint64(EncodeVarint(n) + rest) == Got(n, rest)
  {
    hide EncodeVarint, ReadVarint, VarintLimit;
    TenBytesHold64Bits();
    VarintRoundTrip(n, MAX_VARINT, rest);
  }

  // The size the library computes by comparing against powers of two.
  function VarintSize(n: nat): nat {
    if n < 0x80 then 1
    else if n < 0x4000 then 2
    else if n < 0x20_0000 then 3
    else if n < 0x1000_0000 then 4
    else if n < 0x8_0000_0000 then 5
    else if n < 0x400_0000_0000 then 6
    else if n < 0x2_0000_0000_0000 then 7
    else if n < 0x100_0000_0000_0000 then 8
    else if n < 0x8000_0000_0000_0000 then 9
    else 10
  }

  lemma {:induction false} VarintSizeIsLength(n: nat)
    requires n < TWO_64
    ensures VarintSize(n) == |EncodeVarint(n)|
  {
    if n >= 128 {
      VarintSizeIsLength(n / 128);
    }
  }

  // ---------------------------------------------------------------- fields

  datatype Kind = UInt32 | UInt64 | Int32 | Bool | Blob

  datatype Value = Num(n: int) | Flag(b: bool) | Data(bytes: Bytes)

  type Schema = map<nat, Kind>
  type Record = map<nat, Value>

  predicate ValidValue(kind: Kind, v: Value) {
    match kind
    case UInt32 => v.Num? && 0 <= v.n < TWO_32
    case UInt64 => v.Num? && 0 <= v.n < TWO_64
    case Int32 => v.Num? && -TWO_31 <= v.n < TWO_31
    case Bool => v.Flag?
    case Blob => v.Data? && |v.bytes| < TWO_31
  }

  predicate ValidSchema(schema: Schema) {
    forall n :: n in schema ==> 1 <= n <= MAX_FIELD
  }

  predicate ValidRecord(schema: Schema, rec: Record) {
    forall n :: n in rec ==> n in schema && ValidValue(schema[n], rec[n])
  }

  function WireType(kind: Kind): nat {
    if kind.Blob? then 2 else 0
  }

  function Tag(number: nat, kind: Kind): nat {
    number * 8 + WireType(kind)
  }

  // A negative int32 travels as its 64-bit two's complement.
  function Payload(kind: Kind, v: Value): Bytes
    requires ValidValue(kind, v)
  {
    match kind
    case UInt32 => EncodeVarint(v.n)
    case UInt64 => EncodeVarint(v.n)
    case Int32 => EncodeVarint(if v.n < 0 then v.n + TWO_64 else v.n)
    case Bool => [if v.b then 1 else 0]
    case Blob => EncodeVarint(|v.bytes|) + v.bytes
  }

  function ReadBlob(input: Bytes): (r: Read<Bytes>)
    ensures r.Got? ==> |r.rest| < |input|
  {
    match ReadVarint32(input)
    case Bad => Bad
    case Got(len, rest) =>
      if len >= TWO_31 || len > |rest| then Bad else Got(rest[..len], rest[len..])
  }

  function ReadPayload(kind: Kind, input: Bytes): (r: Read<Value>)
    ensures r.Got? ==> |r.rest| < |input| && ValidValue(kind, r.value)
  {
    if kind.Blob? then
      match ReadBlob(input)
      case Bad => Bad
      case Got(b, rest) => Got(Data(b), rest)
    else
      match (if kind.UInt64? then ReadVarint64(input) else ReadVarint32(input))
      case Bad => Bad
      case Got(v, rest) =>
        var value := if kind.Bool? then Flag(v != 0)
                     else if kind.Int32? && v >= TWO_31 then Num(v - TWO_32)
                     else Num(v);
        Got(value, rest)
  }

  lemma ReadBlobAfterLength(input: Bytes, b: Bytes, rest: Bytes)
    requires |b| < TWO_31 && ReadVarint32(input) == Got(|b|, b + rest)
    ensures ReadBlob(input) == Got(b, rest)
  {
    hide ReadVarint32;
    Seqs.Split(b, rest);
  }

  /** A length that the input does not hold, or of 2^31 and more, is refused. */
  lemma BlobRefusedIff(n: nat, rest: Bytes)
    requires n < TWO_32
    ensures ReadBlob(EncodeVarint(n) + rest) == Bad <==> n >= 0x8000_0000 || n > |rest|
  {
    hide ReadVarint32, EncodeVarint;
    Varint32RoundTrip(n, rest);
  }

  lemma BlobRoundTrip(b: Bytes, rest: Bytes)
    requires |b| < TWO_31
    ensures ReadBlob(EncodeVarint(|b|) + b + rest) == Got(b, rest)
  {
    hide ReadVarint, EncodeVarint, ReadVarint32, ReadBlob;
    var len := EncodeVarint(|b|);
    assert len + b + rest == len + (b + rest) by { Seqs.ConcatAssoc(len, b, rest); }
    assert ReadVarint32(len + (b + rest)) == Got(|b|, b + rest) by { Varint32RoundTrip(|b|, b + rest); }
    ReadBlobAfterLength(len + b + rest, b, rest);
  }

  lemma PayloadRoundTrip(kind: Kind, v: Value, rest: Bytes)
    requires ValidValue(kind, v)
    ensures ReadPayload(kind, Payload(kind, v) + rest) == Got(v, rest)
  {
    hide ReadVarint, EncodeVarint, ReadVarint32, ReadVarint64, ReadBlob;
    match kind
    case UInt32 => Varint32RoundTrip(v.n, rest);
    case UInt64 => Varint64RoundTrip(v.n, rest);
    case Int32 =>
      var unsigned := if v.n < 0 then v.n + TWO_64 else v.n;
      Varint32RoundTrip(unsigned, rest);
      assert v.n < 0 ==> unsigned == 0xFFFF_FFFF * TWO_32 + (v.n + TWO_32);
    case Bool =>
      var bit := if v.b then 1 else 0;
      OneByteVarint(bit);
      Varint32RoundTrip(bit, rest);
    case Blob => BlobRoundTrip(v.bytes, rest);
  }

  function FieldBytes(number: nat, kind: Kind, v: Value): Bytes
    requires ValidValue(kind, v)
  {
    EncodeVarint(Tag(number, kind)) + Payload(kind, v)
  }

  // ---------------------------------------------------------------- records

  // Fields number..MAX_FIELD in ascending order, absent ones skipped.
  function SerializeFrom(schema: Schema, rec: Record, number: nat): Bytes
    requires ValidRecord(schema, rec)
    decreases MAX_FIELD + 1 - number, |rec|
  {
    if number > MAX_FIELD then []
    else
      Emit(schema, rec, number) + SerializeFrom(schema, rec, number + 1)
  }

  function Emit(schema: Schema, rec: Record, number: nat): Bytes
    requires ValidRecord(schema, rec)
  {
    if number in rec then FieldBytes(number, schema[number], rec[number]) else []
  }

  datatype Parse<+T> = Malformed | Unsupported | Parsed(message: T)

  // A field the message type does not know: its bytes are stepped over.
  function SkipField(wireType: nat, input: Bytes): (r: Read<()>)
    ensures r.Got? ==> |r.rest| <= |input|
  {
    match wireType
    case 0 =>
      (match ReadVarint(input, MAX_VARINT) case Bad => Bad case Got(_, rest) => Got((), rest))
    case 1 => if |input| < 8 then Bad else Got((), input[8..])
    case 2 => (match ReadBlob(input) case Bad => Bad case Got(_, rest) => Got((), rest))
    case 5 => if |input| < 4 then Bad else Got((), input[4..])
    case _ => Bad
  }

  datatype FieldRead = Known(number: nat, value: Value) | Skipped

  // One turn of a parse loop: a field the schema knows or one stepped over, and the remaining input.
  function ReadField(schema: Schema, input: Bytes): (r: Parse<(FieldRead, Bytes)>)
    requires input != []
    ensures r.Parsed? ==> |r.message.1| < |input|
    ensures r.Parsed? && r.message.0.Known? ==>
      r.message.0.number in schema && ValidValue(schema[r.message.0.number], r.message.0.value)
  {
    match ReadVarint32(input)
    case Bad => Malformed
    case Got(tag, rest) =>
      var number, wireType := tag / 8, tag % 8;
      if tag == 0 then Malformed
      else if number in schema && wireType == WireType(schema[number]) then
        match ReadPayload(schema[number], rest)
        case Bad => Malformed
        case Got(v, rest') => Parsed((Known(number, v), rest'))
      else if wireType == 3 then Unsupported
      else
        match SkipField(wireType, rest)
        case Bad => Malformed
        case Got(_, rest') => Parsed((Skipped, rest'))
  }

  function Store(rec: Record, item: FieldRead): Record {
    if item.Known? then rec[item.number := item.value] else rec
  }

  function ParseFrom(schema: Schema, input: Bytes, rec: Record): (r: Parse<Record>)
    requires ValidRecord(schema, rec)
    ensures r.Parsed? ==> ValidRecord(schema, r.message)
    decreases |input|
  {
    if input == [] then Parsed(rec)
    else
      match ReadField(schema, input)
      case Malformed => Malformed
      case Unsupported => Unsupported
      case Parsed((item, rest)) => ParseFrom(schema, rest, Store(rec, item))
  }

  // What follows the tag of a field of each wire type.
  ghost predicate SkippedBody(wireType: nat, body: Bytes) {
    match wireType
    case 0 => exists v: nat :: v < TWO_64 && body == EncodeVarint(v)
    case 1 => |body| == 8
    case 2 => |body| >= 1 && exists b: Bytes :: |b| < TWO_31 && body == EncodeVarint(|b|) + b
    case 5 => |body| == 4
    case _ => false
  }

  lemma SkipBody(wireType: nat, body: Bytes, rest: Bytes)
    requires SkippedBody(wireType, body)
    ensures SkipField(wireType, body + rest) == Got((), rest)
  {
    hide ReadVarint, EncodeVarint, ReadBlob, VarintLimit;
    if wireType == 0 {
      var v: nat :| v < TWO_64 && body == EncodeVarint(v);
      TenBytesHold64Bits();
      VarintRoundTrip(v, MAX_VARINT, rest);
    } else if wireType == 2 {
      var b: Bytes :| |b| < TWO_31 && body == EncodeVarint(|b|) + b;
      BlobRoundTrip(b, rest);
    } else {
      assert (body + rest)[|body|..] == rest;
    }
  }

  /**
   A field of an unknown number, or of a known one with another wire type, is stepped over, and what
   follows is read as before.
   */
  lemma UnknownFieldSkipped(schema: Schema, rec: Record, number: nat, wireType: nat, body: Bytes, rest: Bytes)
    requires ValidRecord(schema, rec) && 8 * number + wireType < TWO_32 && number > 0
    requires number !in schema || wireType != if schema[number].Blob? then 2 else 0
    requires SkippedBody(wireType, body)
    ensures ParseFrom(schema, EncodeVarint(8 * number + wireType) + (body + rest), rec) == ParseFrom(schema, rest, rec)
  {
    hide EncodeVarint, ReadVarint32, SkipField, ReadPayload;
    var tag := 8 * number + wireType;
    var input := EncodeVarint(tag) + (body + rest);
    assert wireType < 8 && wireType != 3;
    assert tag / 8 == number && tag % 8 == wireType;
    VarintNonEmpty(tag);
    Varint32RoundTrip(tag, body + rest);
    SkipBody(wireType, body, rest);
    assert input != [];
    assert ReadField(schema, input) == Parsed((Skipped, rest));
  }

  /** The generated parse loop: reads tags until the input ends, overwriting the fields of `rec`. */
  method MergePartialFromCodedStream(schema: Schema, input: Bytes, rec: Record) returns (r: Parse<Record>)
    requires ValidRecord(schema, rec)
    ensures r == ParseFrom(schema, input, rec)
  {
    var pending, cur := input, rec;
    while pending != []
      invariant ValidRecord(schema, cur)
      invariant ParseFrom(schema, pending, cur) == ParseFrom(schema, input, rec)
      decreases |pending|
    {
      match ReadField(schema, pending) {
        case Malformed => return Malformed;
        case Unsupported => return Unsupported;
        case Parsed((item, rest)) => cur, pending := Store(cur, item), rest;
      }
    }
    return Parsed(cur);
  }

  /** The generated serializer: appends each present field to the output in field order. */
  method SerializeWithCachedSizes(schema: Schema, rec: Record) returns (output: Bytes)
    requires ValidRecord(schema, rec)
    ensures output == SerializeFrom(schema, rec, 1)
  {
    hide FieldBytes, SerializeFrom;
    output := [];
    var number := 1;
    while number <= MAX_FIELD
      invariant 1 <= number <= MAX_FIELD + 1
      invariant output + SerializeFrom(schema, rec, number) == SerializeFrom(schema, rec, 1)
    {
      SerializeStep(schema, rec, number, output);
      if number in rec {
        output := output + FieldBytes(number, schema[number], rec[number]);
      }
      number := number + 1;
    }
    SerializeStep(schema, rec, number, output);
  }

  lemma SerializeStep(schema: Schema, rec: Record, number: nat, output: Bytes)
    requires ValidRecord(schema, rec)
    ensures output + SerializeFrom(schema, rec, number) ==
      if number > MAX_FIELD then output
      else if number in rec then
        output + FieldBytes(number, schema[number], rec[number]) + SerializeFrom(schema, rec, number + 1)
      else output + SerializeFrom(schema, rec, number + 1)
  {
    hide FieldBytes;
    if number > MAX_FIELD {
      assert output + [] == output;
    } else {
      Seqs.ConcatAssoc(output, Emit(schema, rec, number), SerializeFrom(schema, rec, number + 1));
      assert number !in rec ==> output + Emit(schema, rec, number) == output;
    }
  }

  // The fields of a record from `number` on.
  function Tail(rec: Record, number: nat): Record {
    map n | n in rec && number <= n :: rec[n]
  }

  lemma FieldRoundTrip(schema: Schema, number: nat, v: Value, rest: Bytes)
    requires ValidSchema(schema) && number in schema && ValidValue(schema[number], v)
    ensures FieldBytes(number, schema[number], v) + rest != []
    ensures ReadField(schema, FieldBytes(number, schema[number], v) + rest)
         == Parsed((Known(number, v), rest))
  {
    hide ReadVarint, EncodeVarint, ReadPayload, Payload;
    var kind := schema[number];
    var tag := Tag(number, kind);
    var body := Payload(kind, v) + rest;
    Seqs.ConcatAssoc(EncodeVarint(tag), Payload(kind, v), rest);
    assert FieldBytes(number, kind, v) + rest == EncodeVarint(tag) + body;
    VarintNonEmpty(tag);
    Varint32RoundTrip(tag, body);
    PayloadRoundTrip(kind, v, rest);
  }

  lemma ParseOneField(schema: Schema, number: nat, v: Value, rest: Bytes, onto: Record)
    requires ValidSchema(schema) && number in schema && ValidValue(schema[number], v)
    requires ValidRecord(schema, onto)
    ensures ParseFrom(schema, FieldBytes(number, schema[number], v) + rest, onto)
         == ParseFrom(schema, rest, onto[number := v])
  {
    hide FieldBytes, ReadField;
    FieldRoundTrip(schema, number, v, rest);
  }

  lemma TailStep(rec: Record, number: nat, onto: Record)
    ensures number in rec ==> onto[number := rec[number]] + Tail(rec, number + 1) == onto + Tail(rec, number)
    ensures number !in rec ==> Tail(rec, number + 1) == Tail(rec, number)
  {
  }

  /** Parsing the fields of `rec` from `number` on overwrites exactly those fields of `onto`. */
  lemma {:induction false} ParseSerializedFrom(schema: Schema, rec: Record, number: nat, rest: Bytes, onto: Record)
    requires ValidSchema(schema) && ValidRecord(schema, rec) && ValidRecord(schema, onto)
    ensures ValidRecord(schema, onto + Tail(rec, number))
    ensures ParseFrom(schema, SerializeFrom(schema, rec, number) + rest, onto)
         == ParseFrom(schema, rest, onto + Tail(rec, number))
    decreases MAX_FIELD + 1 - number
  {
    hide FieldBytes, ParseFrom;
    var code := SerializeFrom(schema, rec, number);
    if number > MAX_FIELD {
      assert code + rest == rest;
      assert onto + Tail(rec, number) == onto;
    } else {
      var more := SerializeFrom(schema, rec, number + 1);
      TailStep(rec, number, onto);
      if number in rec {
        var field := FieldBytes(number, schema[number], rec[number]);
        assert code + rest == field + (more + rest) by {
          Seqs.ConcatAssoc(field, more, rest);
        }
        ParseOneField(schema, number, rec[number], more + rest, onto);
        ParseSerializedFrom(schema, rec, number + 1, rest, onto[number := rec[number]]);
      } else {
        assert code == more;
        ParseSerializedFrom(schema, rec, number + 1, rest, onto);
      }
    }
  }

  /** Last one wins: a serialized record read on top of another overrides its fields. */
  lemma ParseSerialized(schema: Schema, rec: Record, rest: Bytes, onto: Record)
    requires ValidSchema(schema) && ValidRecord(schema, rec) && ValidRecord(schema, onto)
    ensures ParseFrom(schema, SerializeFrom(schema, rec, 1) + rest, onto)
         == ParseFrom(schema, rest, onto + rec)
  {
    ParseSerializedFrom(schema, rec, 1, rest, onto);
    assert Tail(rec, 1) == rec;
  }

  // ---------------------------------------------------------------- sizes

  function FieldSize(kind: Kind, v: Value): nat
    requires ValidValue(kind, v)
  {
    match kind
    case UInt32 => VarintSize(v.n)
    case UInt64 => VarintSize(v.n)
    case Int32 => if v.n < 0 then 10 else VarintSize(v.n)
    case Bool => 1
    case Blob => VarintSize(|v.bytes|) + |v.bytes|
  }

  function ByteSizeFrom(schema: Schema, rec: Record, number: nat): nat
    requires ValidRecord(schema, rec)
    decreases MAX_FIELD + 1 - number, |rec|
  {
    if number > MAX_FIELD then 0
    else
      (if number in rec then 1 + FieldSize(schema[number], rec[number]) else 0)
      + ByteSizeFrom(schema, rec, number + 1)
  }

  lemma FieldSizeIsLength(number: nat, kind: Kind, v: Value)
    requires ValidValue(kind, v) && 1 <= number <= MAX_FIELD
    ensures |FieldBytes(number, kind, v)| == 1 + FieldSize(kind, v)
  {
    assert Tag(number, kind) < 128;
    match kind
    case UInt32 => VarintSizeIsLength(v.n);
    case UInt64 => VarintSizeIsLength(v.n);
    case Int32 => VarintSizeIsLength(if v.n < 0 then v.n + TWO_64 else v.n);
    case Bool =>
    case Blob => VarintSizeIsLength(|v.bytes|);
  }

  lemma {:induction false} ByteSizeIsLength(schema: Schema, rec: Record, number: nat)
    requires ValidSchema(schema) && ValidRecord(schema, rec) && number >= 1
    ensures ByteSizeFrom(schema, rec, number) == |SerializeFrom(schema, rec, number)|
    decreases MAX_FIELD + 1 - number, |rec|
  {
    if number <= MAX_FIELD {
      ByteSizeIsLength(schema, rec, number + 1);
      if number in rec {
        FieldSizeIsLength(number, schema[number], rec[number]);
      }
    }
  }
}
