/**
 The memcached binary protocol as the router writes it: 24-byte headers in network byte order,
 as section 2 of the Memcache Binary Protocol (draft-stone-memcache-binary) lays them out.
 */
module Protocol {
  import opened Wire
  import Seqs

  const REQUEST := 0x80
  const RESPONSE := 0x81
  const OP_GET := 0
  const OP_SET := 1
  const OP_NOOP := 10
  const HEADER_SIZE := 24

  // ---------------------------------------------------------------- big-endian numbers

  // The low `width` bytes of n, most significant first; higher bytes are cut off.
  function BigEndian(n: nat, width: nat): (bs: Bytes)
    ensures |bs| == width
    decreases width, n
  {
    if width == 0 then [] else BigEndian(n / 256, width - 1) + [n % 256]
  }

  function FromBigEndian(bs: Bytes): nat {
    if bs == [] then 0 else 256 * FromBigEndian(bs[..|bs| - 1]) + bs[|bs| - 1]
  }

  function Limit(width: nat): nat
  {
    if width == 0 then 1 else 256 * Limit(width - 1)
  }

  lemma {:induction false} FromBigEndianBound(bs: Bytes)
    ensures FromBigEndian(bs) < Limit(|bs|)
    decreases |bs|
  {
    if bs != [] {
      FromBigEndianBound(bs[..|bs| - 1]);
    }
  }

  /** A number survives the trip exactly when it fits the width. */
  lemma {:induction false} BigEndianRoundTrip(n: nat, width: nat)
    ensures FromBigEndian(BigEndian(n, width)) == n <==> n < Limit(width)
    decreases width
  {
    FromBigEndianBound(BigEndian(n, width));
    if width > 0 && n < Limit(width) {
      var bs := BigEndian(n, width);
      assert bs[..width - 1] == BigEndian(n / 256, width - 1);
      BigEndianRoundTrip(n / 256, width - 1);
    }
  }

  lemma Limits()
    ensures Limit(2) == 0x1_0000 && Limit(4) == TWO_32 && Limit(8) == TWO_64
  {
    assert Limit(4) == 0x1_0000_0000;
    assert Limit(6) == 0x1_0000_0000_0000;
  }

  // ---------------------------------------------------------------- headers

  datatype Header = Header(
    magic: Byte, opcode: Byte, keyLength: nat, extraLength: Byte, bodyLength: nat, cas: nat)

  function EncodeHeader(h: Header): (bs: Bytes)
    ensures |bs| == HEADER_SIZE
  {
    [h.magic, h.opcode] + BigEndian(h.keyLength, 2) + [h.extraLength, 0] + BigEndian(0, 2)
    + BigEndian(h.bodyLength, 4) + BigEndian(0, 4) + BigEndian(h.cas, 8)
  }

  function DecodeHeader(bs: Bytes): Header
    requires |bs| >= HEADER_SIZE
  {
    Header(bs[0], bs[1], FromBigEndian(bs[2..4]), bs[4], FromBigEndian(bs[8..12]), FromBigEndian(bs[16..24]))
  }

  lemma HeaderFields(h: Header, rest: Bytes)
    ensures var bs := EncodeHeader(h) + rest;
      && |bs| >= HEADER_SIZE
      && bs[0] == h.magic && bs[1] == h.opcode && bs[4] == h.extraLength
      && bs[2..4] == BigEndian(h.keyLength, 2)
      && bs[8..12] == BigEndian(h.bodyLength, 4)
      && bs[16..24] == BigEndian(h.cas, 8)
      && bs[24..] == rest
  {
    hide BigEndian;
  }

  lemma HeaderRoundTrip(h: Header, rest: Bytes)
    ensures var d := DecodeHeader(EncodeHeader(h) + rest);
      && d.magic == h.magic && d.opcode == h.opcode && d.extraLength == h.extraLength
      && (d.keyLength == h.keyLength <==> h.keyLength < 0x1_0000) && d.keyLength < 0x1_0000
      && (d.bodyLength == h.bodyLength <==> h.bodyLength < TWO_32) && d.bodyLength < TWO_32
      && (d.cas == h.cas <==> h.cas < TWO_64)
  {
    hide BigEndian, FromBigEndian, EncodeHeader, Limit;
    HeaderFields(h, rest);
    Limits();
    BigEndianRoundTrip(h.keyLength, 2);
    BigEndianRoundTrip(h.bodyLength, 4);
    BigEndianRoundTrip(h.cas, 8);
    FromBigEndianBound(BigEndian(h.keyLength, 2));
    FromBigEndianBound(BigEndian(h.bodyLength, 4));
  }

  // ---------------------------------------------------------------- requests

  datatype Command =
    | Get(key: Bytes)
    | Set(key: Bytes, value: Bytes, flag: nat, expiry: nat, cas: nat)
    | Noop

  function KeyOf(c: Command): Bytes { if c.Noop? then [] else c.key }

  function Body(c: Command): Bytes {
    match c
    case Get(key) => key
    case Set(key, value, flag, expiry, cas) => BigEndian(flag, 4) + BigEndian(expiry, 4) + key + value
    case Noop => []
  }

  function HeaderOf(c: Command): Header {
    match c
    case Get(key) => Header(REQUEST, OP_GET, |key|, 0, |key|, 0)
    case Set(key, value, flag, expiry, cas) => Header(REQUEST, OP_SET, |key|, 8, |key| + |value| + 8, cas)
    case Noop => Header(REQUEST, OP_NOOP, 0, 0, 0, 0)
  }

  function Frame(c: Command): Bytes { EncodeHeader(HeaderOf(c)) + Body(c) }

  // The argument types of the source: 32-bit flags and expiry, 64-bit cas.
  predicate Typed(c: Command) {
    c.Set? ==> c.flag < TWO_32 && c.expiry < TWO_32 && c.cas < TWO_64
  }

  predicate Fits(c: Command) {
    |KeyOf(c)| < 0x1_0000 && |Body(c)| < TWO_32
  }

  /** What a server makes of a byte stream: one frame by the 24 + body length rule. */
  function DecodeFrame(bs: Bytes): (r: Option<(Command, Bytes)>)
    ensures r.Some? ==> |r.value.1| < |bs|
  {
    if |bs| < HEADER_SIZE then None
    else
      var h := DecodeHeader(bs);
      if h.magic != REQUEST || |bs| < HEADER_SIZE + h.bodyLength then None
      else
        var body, rest := bs[HEADER_SIZE..HEADER_SIZE + h.bodyLength], bs[HEADER_SIZE + h.bodyLength..];
        if h.opcode == OP_GET && h.extraLength == 0 && h.keyLength == h.bodyLength then Some((Get(body), rest))
        else if h.opcode == OP_SET && h.extraLength == 8 && 8 + h.keyLength <= h.bodyLength then
          Some((Set(body[8..8 + h.keyLength], body[8 + h.keyLength..],
                    FromBigEndian(body[..4]), FromBigEndian(body[4..8]), h.cas), rest))
        else if h.opcode == OP_NOOP && h.extraLength == 0 && h.keyLength == 0 && h.bodyLength == 0 then
          Some((Noop, rest))
        else None
  }

  lemma BodyLength(c: Command)
    ensures |Body(c)| == HeaderOf(c).bodyLength
  {
    hide BigEndian;
  }

  lemma SetBodyFields(c: Command)
    requires c.Set? && Typed(c)
    ensures var b := Body(c);
      && |b| >= 8 + |c.key|
      && FromBigEndian(b[..4]) == c.flag && FromBigEndian(b[4..8]) == c.expiry
      && b[8..8 + |c.key|] == c.key && b[8 + |c.key|..] == c.value
  {
    hide BigEndian, FromBigEndian, Limit;
    Limits();
    BigEndianRoundTrip(c.flag, 4);
    BigEndianRoundTrip(c.expiry, 4);
    assert Body(c)[..4] == BigEndian(c.flag, 4);
    assert Body(c)[4..8] == BigEndian(c.expiry, 4);
  }

  /** A frame decodes to its command, and only that frame is consumed, when its lengths fit. */
  lemma FrameRoundTrip(c: Command, rest: Bytes)
    requires Typed(c) && Fits(c)
    ensures DecodeFrame(Frame(c) + rest) == Some((c, rest))
  {
    hide EncodeHeader, Body, FromBigEndian, BigEndian;
    var h, bs := HeaderOf(c), Frame(c) + rest;
    Seqs.ConcatAssoc(EncodeHeader(h), Body(c), rest);
    HeaderRoundTrip(h, Body(c) + rest);
    BodyLength(c);
    var n := HEADER_SIZE + |Body(c)|;
    assert bs[HEADER_SIZE..n] == Body(c) && bs[n..] == rest by {
      assert bs == EncodeHeader(h) + Body(c) + rest;
    }
    assert DecodeHeader(bs) == h;
    if c.Set? {
      SetBodyFields(c);
    } else {
      PlainBody(c);
    }
  }

  lemma PlainBody(c: Command)
    ensures c.Get? ==> Body(c) == c.key
    ensures c.Noop? ==> Body(c) == []
  {
  }

  lemma FrameTooLong(c: Command)
    requires Typed(c) && !Fits(c)
    ensures DecodeFrame(Frame(c)) != Some((c, []))
  {
    hide EncodeHeader, FromBigEndian, BigEndian;
    var h := HeaderOf(c);
    HeaderRoundTrip(h, Body(c));
    BodyLength(c);
  }

  /** The exact lengths for which the frame of a command can be read back. */
  lemma FrameDecodesIff(c: Command)
    requires Typed(c)
    ensures DecodeFrame(Frame(c)) == Some((c, [])) <==> |KeyOf(c)| < 0x1_0000 && |Body(c)| < TWO_32
  {
    hide Frame, DecodeFrame;
    if Fits(c) {
      assert Frame(c) + [] == Frame(c);
      FrameRoundTrip(c, []);
    } else {
      FrameTooLong(c);
    }
  }

  /** A key of 65536 bytes is not read back. */
  lemma LongKeyLost(key: Bytes)
    requires |key| == 65536
    ensures DecodeFrame(Frame(Get(key))) != Some((Get(key), []))
  {
    hide Frame, DecodeFrame;
    FrameDecodesIff(Get(key));
  }

  // ---------------------------------------------------------------- the bytes on the wire

  /** Numbers go most significant byte first, cut to their width. */
  lemma BigEndianBytes(a: Byte, b: Byte, c: Byte, d: Byte)
    ensures BigEndian(256 * a + b, 2) == [a, b]
    ensures BigEndian(256 * (256 * (256 * a + b) + c) + d, 4) == [a, b, c, d]
  {
    hide BigEndian;
    OneByte(a);
    BigEndianNext(a, b, 1);
    BigEndianNext(256 * a + b, c, 2);
    BigEndianNext(256 * (256 * a + b) + c, d, 3);
  }

  lemma OneByte(a: Byte)
    ensures BigEndian(a, 1) == [a]
  {
    assert BigEndian(a / 256, 0) == [];
  }

  lemma BigEndianNext(n: nat, b: Byte, width: nat)
    ensures BigEndian(256 * n + b, width + 1) == BigEndian(n, width) + [b]
  {
    assert (256 * n + b) / 256 == n && (256 * n + b) % 256 == b;
  }

  lemma SmallNumber(n: Byte)
    ensures BigEndian(n, 2) == [0, n] && BigEndian(n, 4) == [0, 0, 0, n]
    ensures BigEndian(n, 8) == [0, 0, 0, 0, 0, 0, 0, n]
  {
    hide BigEndian;
    BigEndianBytes(0, n, 0, 0);
    BigEndianBytes(0, 0, 0, n);
    ZeroBytes(7);
    BigEndianNext(0, n, 7);
    assert BigEndian(0, 7) == [0, 0, 0, 0, 0, 0, 0];
  }

  lemma {:induction false} ZeroBytes(width: nat)
    ensures BigEndian(0, width) == seq(width, _ => 0)
    decreases width
  {
    if width > 0 {
      ZeroBytes(width - 1);
    }
  }

  /** Every request starts with 0x80 and the number of its command: GET 0, SET 1, NOOP 10. */
  lemma FrameStarts(c: Command)
    ensures |Frame(c)| == 24 + |Body(c)|
    ensures Frame(c)[0] == 0x80
    ensures Frame(c)[1] == if c.Get? then 0 else if c.Set? then 1 else 10
  {
    hide BigEndian, Body;
  }

  // The header of a request with small numbers.
  lemma HeaderBytes(opcode: Byte, keyLength: Byte, extraLength: Byte, bodyLength: Byte, cas: Byte)
    ensures EncodeHeader(Header(0x80, opcode, keyLength, extraLength, bodyLength, cas)) ==
      [0x80, opcode, 0, keyLength, extraLength, 0, 0, 0, 0, 0, 0, bodyLength, 0, 0, 0, 0, 0, 0, 0, 0, 0, 0, 0, cas]
  {
    hide BigEndian;
    SmallNumber(0);
    SmallNumber(keyLength);
    SmallNumber(bodyLength);
    SmallNumber(cas);
  }

  /** A GET byte by byte. */
  lemma GetBytes()
    ensures Frame(Get([107])) ==
      [0x80, 0, 0, 1, 0, 0, 0, 0, 0, 0, 0, 1, 0, 0, 0, 0, 0, 0, 0, 0, 0, 0, 0, 0, 107]
  {
    HeaderBytes(0, 1, 0, 1, 0);
    hide EncodeHeader;
  }

  /** A SET byte by byte: flag 1, expiry 2, cas 3. */
  lemma SetBytes()
    ensures Frame(Set([107], [118], 1, 2, 3)) ==
      [0x80, 1, 0, 1, 8, 0, 0, 0, 0, 0, 0, 10, 0, 0, 0, 0, 0, 0, 0, 0, 0, 0, 0, 3,
       0, 0, 0, 1, 0, 0, 0, 2, 107, 118]
  {
    var c := Set([107], [118], 1, 2, 3);
    assert HeaderOf(c) == Header(0x80, 1, 1, 8, 10, 3);
    hide EncodeHeader, Body, HeaderOf;
    HeaderBytes(1, 1, 8, 10, 3);
    SetBodyBytes();
  }

  lemma SetBodyBytes()
    ensures Body(Set([107], [118], 1, 2, 3)) == [0, 0, 0, 1, 0, 0, 0, 2, 107, 118]
  {
    hide BigEndian;
    SmallNumber(1);
    SmallNumber(2);
  }

  /** A NOOP byte by byte. */
  lemma NoopBytes()
    ensures Frame(Noop) == [0x80, 10, 0, 0, 0, 0, 0, 0, 0, 0, 0, 0, 0, 0, 0, 0, 0, 0, 0, 0, 0, 0, 0, 0]
  {
    HeaderBytes(10, 0, 0, 0, 0);
    hide EncodeHeader;
  }

  function EncodeAll(cs: seq<Command>): Bytes {
    if cs == [] then [] else Frame(cs[0]) + EncodeAll(cs[1..])
  }

  function DecodeAll(bs: Bytes): Option<seq<Command>>
    decreases |bs|
  {
    if bs == [] then Some([])
    else
      match DecodeFrame(bs)
      case None => None
      case Some((c, rest)) =>
        match DecodeAll(rest)
        case None => None
        case Some(cs) => Some([c] + cs)
  }

  /** The whole command buffer splits into exactly the commands written, in order. */
  lemma {:induction false} BufferRoundTrip(cs: seq<Command>)
    requires forall i :: 0 <= i < |cs| ==> Typed(cs[i]) && Fits(cs[i])
    ensures DecodeAll(EncodeAll(cs)) == Some(cs)
    decreases |cs|
  {
    hide Frame, DecodeFrame, Typed, Fits;
    if cs != [] {
      FrameRoundTrip(cs[0], EncodeAll(cs[1..]));
      BufferRoundTrip(cs[1..]);
      FrameNonEmpty(cs[0]);
      assert [cs[0]] + cs[1..] == cs;
    }
  }

  lemma FrameNonEmpty(c: Command)
    ensures Frame(c) != []
  {
    hide BigEndian, Body;
  }

  lemma {:induction false} EncodeAllAppend(cs: seq<Command>, c: Command)
    ensures EncodeAll(cs + [c]) == EncodeAll(cs) + Frame(c)
    decreases |cs|
  {
    hide Frame;
    if cs == [] {
      assert (cs + [c])[1..] == cs;
      assert Frame(c) + [] == Frame(c) && [] + Frame(c) == Frame(c);
    } else {
      EncodeAllAppend(cs[1..], c);
      assert (cs + [c])[1..] == cs[1..] + [c];
      Seqs.ConcatAssoc(Frame(cs[0]), EncodeAll(cs[1..]), Frame(c));
    }
  }

  class RequestPacket {
    var command: Bytes
    var num: nat
    ghost var written: seq<Command>

    // The buffer holds the frames of the commands since the last reset, and their number.
    ghost predicate Valid()
      reads this
    {
      command == EncodeAll(written) && num == |written|
    }

    constructor ()
      ensures Valid() && written == []
    {
      command, num, written := [], 0, [];
    }

    method Reset()
      modifies this
      ensures Valid() && written == []
    {
      command, num, written := [], 0, [];
    }

    method Get(key: Bytes)
      requires Valid()
      modifies this
      ensures Valid() && written == old(written) + [Command.Get(key)]
    {
      hide Frame, EncodeAll;
      EncodeAllAppend(written, Command.Get(key));
      FrameOf(Command.Get(key));
      num := num + 1;
      command := command + (EncodeHeader(Header(REQUEST, OP_GET, |key|, 0, |key|, 0)) + key);
      written := written + [Command.Get(key)];
    }

    method Set(key: Bytes, value: Bytes, flag: nat, expiry: nat, cas: nat)
      requires Valid()
      modifies this
      ensures Valid() && written == old(written) + [Command.Set(key, value, flag, expiry, cas)]
    {
      hide Frame, EncodeAll, EncodeHeader, BigEndian;
      var c := Command.Set(key, value, flag, expiry, cas);
      EncodeAllAppend(written, c);
      SetFrame(c);
      num := num + 1;
      command := command + (EncodeHeader(Header(REQUEST, OP_SET, |key|, 8, |key| + |value| + 8, cas))
                            + (BigEndian(flag, 4) + BigEndian(expiry, 4) + key + value));
      written := written + [c];
    }

    method Noop()
      requires Valid()
      modifies this
      ensures Valid() && written == old(written) + [Command.Noop]
    {
      hide Frame, EncodeAll;
      EncodeAllAppend(written, Command.Noop);
      FrameOf(Command.Noop);
      num := num + 1;
      command := command + (EncodeHeader(Header(REQUEST, OP_NOOP, 0, 0, 0, 0)) + []);
      written := written + [Command.Noop];
    }
  }

  lemma SetFrame(c: Command)
    requires c.Set?
    ensures Frame(c) ==
      EncodeHeader(Header(REQUEST, OP_SET, |c.key|, 8, |c.key| + |c.value| + 8, c.cas))
      + (BigEndian(c.flag, 4) + BigEndian(c.expiry, 4) + c.key + c.value)
  {
    hide EncodeHeader;
    BodyLength(c);
  }

  lemma FrameOf(c: Command)
    ensures Frame(c) == EncodeHeader(HeaderOf(c)) + Body(c)
  {
  }
}
