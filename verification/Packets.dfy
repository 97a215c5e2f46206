/** The packet codec of packets/packets.go. */
module Packets {
  import opened Common
  import opened PacketBytes

  datatype Result<+T> = Ok(value: T) | Err

  /** The component types of a payload format. */
  datatype Kind = KInvalid | KInt8 | KUint8 | KInt16 | KUint16 | KInt32 | KUint32 | KInt64 | KUint64

  /** headPayloadFormat; endian is None when no byte-order character was seen. */
  datatype Format = Format(rawfmt: seq<byte>, bigEndian: Option<bool>, wordlen: nat, nvals: nat, dtype: seq<Kind>)

  /** PacketTimestamp.  The rate is kept as the fraction that stands for it in a header:
      denom/num * 10^(-exp) counts per second. */
  datatype Timestamp = Timestamp(t: int, exp: int, num: int, denom: int)

  /** What the payload holds: a slice of words of one size, or raw bytes. */
  datatype Data = Words16(w: seq<int>) | Words32(w: seq<int>) | Words64(w: seq<int>) | Raw(bytes: seq<byte>)

  datatype TLV =
    | ChannelOffset(offset: int) | Shape(sizes: seq<int>) | PayloadFormat(format: Format)
    | Stamp(ts: Timestamp) | Label(text: seq<byte>) | Tag(tag: int) | Counter(id: int, count: int)

  datatype Packet = Packet(
    version: int, headerLength: int, payloadLength: int, sourceID: int, sequenceNumber: int, packetLength: int,
    format: Option<Format>, shape: Option<seq<int>>, timestamp: Option<Timestamp>,
    payloadLabel: seq<byte>, offset: int, explicitOffset: bool, otherTLV: seq<TLV>, data: Option<Data>)

  const MAGIC: int := 0x810b00ff
  const MAX_PACKET_LENGTH: int := 8192
  const MIN_LENGTH: int := 16

  const TLV_TAG: byte := 0x09
  const TLV_TIMESTAMP: byte := 0x11
  const TLV_COUNTER: byte := 0x12
  const TLV_TIMESTAMP_UNIT: byte := 0x13
  const TLV_FORMAT: byte := 0x21
  const TLV_SHAPE: byte := 0x22
  const TLV_CHANNEL_OFFSET: byte := 0x23
  const TLV_PAYLOAD_LABEL: byte := 0x29

  // ---------------------------------------------------------------------------------------------
  // Parsing the header items

  /** One component more: addDataComponent. */
  function AddComponent(f: Format, kind: Kind, nb: nat): Format {
    f.(dtype := f.dtype + [kind], nvals := f.nvals + 1, wordlen := f.wordlen + nb)
  }

  /** The format characters, left to right. */
  function ParseFormat(chars: seq<byte>, f: Format): Result<Format> {
    if chars == [] then Ok(f)
    else
      var c, rest := chars[0], chars[1..];
      if c == 0 || c == 0x20 then ParseFormat(rest, f)
      else if c == 0x21 || c == 0x3e then ParseFormat(rest, f.(bigEndian := Some(true)))     // ! >
      else if c == 0x3c then ParseFormat(rest, f.(bigEndian := Some(false)))                 // <
      else if c == 0x78 then ParseFormat(rest, AddComponent(f, KInvalid, 1))                 // x
      else if c == 0x62 then ParseFormat(rest, AddComponent(f, KInt8, 1))                    // b
      else if c == 0x42 then ParseFormat(rest, AddComponent(f, KUint8, 1))                   // B
      else if c == 0x68 then ParseFormat(rest, AddComponent(f, KInt16, 2))                   // h
      else if c == 0x48 then ParseFormat(rest, AddComponent(f, KUint16, 2))                  // H
      else if c == 0x69 || c == 0x6c then ParseFormat(rest, AddComponent(f, KInt32, 4))      // i l
      else if c == 0x49 || c == 0x4c then ParseFormat(rest, AddComponent(f, KUint32, 4))     // I L
      else if c == 0x71 then ParseFormat(rest, AddComponent(f, KInt64, 8))                   // q
      else if c == 0x51 then ParseFormat(rest, AddComponent(f, KUint64, 8))                  // Q
      else Err
  }

  /** The positive 16-bit sizes in a shape item. */
  function ParseSizes(s: seq<byte>): seq<int> {
    if |s| < 2 then []
    else
      var d := Signed(FromBE(s[..2]), 2);
      (if d > 0 then [d] else []) + ParseSizes(s[2..])
  }

  /** One item; Ok(None) is an item of unknown type, which is skipped. */
  function ParseItem(item: seq<byte>): Result<Option<TLV>>
    requires |item| >= 8
  {
    var t := item[0];
    if t == TLV_TAG then
      if FromBE(item[2..4]) != 0 then Err else Ok(Some(Tag(FromBE(item[4..8]))))
    else if t == TLV_TIMESTAMP then
      Ok(Some(Stamp(Timestamp((FromBE(item[2..4]) * 0x1_0000_0000 + FromBE(item[4..8])) * 0x1_0000, -9, 1, 1))))
    else if t == TLV_COUNTER then
      if |item| != 8 then Err else Ok(Some(Counter(Signed(FromBE(item[2..4]), 2), Signed(FromBE(item[4..8]), 4))))
    else if t == TLV_TIMESTAMP_UNIT then
      if |item| < 16 || item[2] > 64 then Err
      else Ok(Some(Stamp(Timestamp(FromBE(item[8..16]) % Pow2(item[2]), Signed(item[3], 1),
                                   FromBE(item[4..6]), FromBE(item[6..8])))))
    else if t == TLV_FORMAT then
      var r := ParseFormat(item[2..], Format(item[2..], None, 0, 0, []));
      if r.Err? then Err else Ok(Some(PayloadFormat(r.value)))
    else if t == TLV_SHAPE then
      var sizes := ParseSizes(item[2..]);
      if sizes == [] then Err else Ok(Some(Shape(sizes)))
    else if t == TLV_CHANNEL_OFFSET then
      if FromBE(item[2..4]) != 0 then Err else Ok(Some(ChannelOffset(FromBE(item[4..8]))))
    else if t == TLV_PAYLOAD_LABEL then Ok(Some(Label(item[2..])))
    else Ok(None)
  }

  /** parseTLV: all items of a header, or an error. */
  function ParseTLV(data: seq<byte>): (r: Result<seq<TLV>>) {
    if data == [] then Ok([])
    else if |data| < 8 then Err
    else
      var size := 8 * data[1] as int;
      if size > |data| || size <= 0 then Err
      else
        var item := ParseItem(data[..size]);
        if item.Err? then Err
        else
          Prepend(OptToSeq(item.value), ParseTLV(data[size..]))
  }

  function Prepend(items: seq<TLV>, rest: Result<seq<TLV>>): Result<seq<TLV>> {
    if rest.Err? then Err else Ok(items + rest.value)
  }

  lemma PrependTwice(a: seq<TLV>, b: seq<TLV>, rest: Result<seq<TLV>>)
    ensures Prepend(a, Prepend(b, rest)) == Prepend(a + b, rest)
    ensures Prepend([], rest) == rest
  {
    if rest.Ok? {
      assert a + (b + rest.value) == (a + b) + rest.value;
      assert [] + rest.value == rest.value;
    }
  }

  /** The loop of parseTLV, over a shrinking slice. */
  method ParseAllTLV(input: seq<byte>) returns (r: Result<seq<TLV>>)
    ensures r == ParseTLV(input)
  {
    var data, result: seq<TLV> := input, [];
    PrependTwice([], [], ParseTLV(input));
    hide ParseItem;
    while |data| > 0
      invariant ParseTLV(input) == Prepend(result, ParseTLV(data))
      decreases |data|
    {
      if |data| < 8 {
        return Err;
      }
      var size := 8 * data[1] as int;
      if size > |data| || size <= 0 {
        return Err;
      }
      var item := ParseItem(data[..size]);
      if item.Err? {
        return Err;
      }
      PrependTwice(result, OptToSeq(item.value), ParseTLV(data[size..]));
      result := result + OptToSeq(item.value);
      data := data[size..];
    }
    assert result + [] == result;
    return Ok(result);
  }

  /** The parse of two headers one after the other is the one parse after the other. */
  lemma {:induction false} ParseTLVConcat(a: seq<byte>, b: seq<byte>)
    requires ParseTLV(a).Ok?
    ensures ParseTLV(a + b) == Prepend(ParseTLV(a).value, ParseTLV(b))
  {
    hide ParseItem;
    if a == [] {
      assert a + b == b;
      PrependTwice([], [], ParseTLV(b));
    } else {
      var size := 8 * a[1] as int;
      assert (a + b)[..size] == a[..size] && (a + b)[size..] == a[size..] + b;
      ParseTLVConcat(a[size..], b);
      PrependTwice(OptToSeq(ParseItem(a[..size]).value), ParseTLV(a[size..]).value, ParseTLV(b));
    }
  }

  /** One item of the size it gives itself. */
  lemma ParseOne(item: seq<byte>)
    requires |item| >= 8 && |item| == 8 * item[1] as int && ParseItem(item).Ok?
    ensures ParseTLV(item) == Ok(OptToSeq(ParseItem(item).value))
  {
    assert item[..|item|] == item && item[|item|..] == [];
    hide ParseItem;
    var one := OptToSeq(ParseItem(item).value);
    assert Prepend(one, ParseTLV(item[|item|..])) == Ok(one) by {
      assert ParseTLV(item[|item|..]) == Ok([]) && one + [] == one;
    }
  }

  // ---------------------------------------------------------------------------------------------
  // Reading

  function Apply(p: Packet, t: TLV): Packet {
    match t
    case ChannelOffset(o) => p.(offset := o, explicitOffset := true)
    case Shape(s) => p.(shape := Some(s))
    case PayloadFormat(f) => p.(format := Some(f))
    case Stamp(ts) => p.(timestamp := Some(ts))
    case Label(l) => p.(payloadLabel := l)
    case _ => p.(otherTLV := p.otherTLV + [t])
  }

  function ApplyAll(p: Packet, ts: seq<TLV>): Packet
    decreases |ts|
  {
    if ts == [] then p else ApplyAll(Apply(p, ts[0]), ts[1..])
  }

  /** n words of w bytes from the front of s, in either byte order. */
  function ReadWords(s: seq<byte>, w: nat, n: nat, big: bool): Result<(seq<int>, seq<byte>)> {
    if |s| < n * w then Err
    else Ok((if big then FromWords(SwapWords(s[..n * w], w, n), w, n) else FromWords(s, w, n), s[n * w..]))
  }

  /** The payload, when the header says that there is one and gives its format. */
  function ReadPayload(s: seq<byte>, payloadLength: nat, f: Format): Result<(Data, seq<byte>)> {
    var big := f.bigEndian == Some(true);
    if |f.dtype| != 1 then
      if |s| < payloadLength then Err else Ok((Raw(s[..payloadLength]), s[payloadLength..]))
    else if f.dtype[0] == KInt16 then
      var r := ReadWords(s, 2, payloadLength / 2, big);
      if r.Err? then Err else Ok((Words16(r.value.0), r.value.1))
    else if f.dtype[0] == KInt32 then
      var r := ReadWords(s, 4, payloadLength / 4, big);
      if r.Err? then Err else Ok((Words32(r.value.0), r.value.1))
    else if f.dtype[0] == KInt64 then
      var r := ReadWords(s, 8, payloadLength / 8, big);
      if r.Err? then Err else Ok((Words64(r.value.0), r.value.1))
    else Err
  }

  /** ReadPacket: the packet at the front of the bytes, and the bytes left unread. */
  function ReadPacket(s: seq<byte>): Result<(Packet, seq<byte>)> {
    if |s| < MIN_LENGTH then Err
    else
      var headerLength := s[1] as int;
      var payloadLength := FromBE(s[2..4]);
      if headerLength < MIN_LENGTH || FromBE(s[4..8]) != MAGIC || |s| < headerLength then Err
      else
        var items := ParseTLV(s[MIN_LENGTH..headerLength]);
        if items.Err? then Err
        else
          var p := ApplyAll(
            Packet(s[0], headerLength, payloadLength, FromBE(s[8..12]), FromBE(s[12..16]), headerLength + payloadLength,
                   None, None, None, [], 0, false, [], None),
            items.value);
          if payloadLength > 0 && p.format.Some? then
            var r := ReadPayload(s[headerLength..], payloadLength, p.format.value);
            if r.Err? then Err else Ok((p.(data := Some(r.value.0)), r.value.1))
          else Ok((p, s[headerLength..]))
  }

  // ---------------------------------------------------------------------------------------------
  // Writing

  function Zeros(n: nat): (r: seq<byte>)
    ensures |r| == n
  {
    seq(n, i => 0)
  }

  function OffsetItem(offset: int): seq<byte> { [TLV_CHANNEL_OFFSET, 1] + BE(0, 2) + BE(offset, 4) }

  function StampItem(ts: Timestamp): seq<byte> {
    [TLV_TIMESTAMP_UNIT, 2, 64] + BE(-11, 1) + BE(ts.num, 2) + BE(ts.denom, 2) + BE(ts.t, 8)
  }

  /** The format string, cut or padded with zeros to six characters. */
  function FormatItem(f: Format): seq<byte> {
    [TLV_FORMAT, 1] + if |f.rawfmt| > 6 then f.rawfmt[..6] else f.rawfmt + Zeros(6 - |f.rawfmt|)
  }

  function SizesBytes(sizes: seq<int>): seq<byte> {
    if sizes == [] then [] else BE(sizes[0], 2) + SizesBytes(sizes[1..])
  }

  function ShapeItem(sizes: seq<int>): seq<byte> {
    [TLV_SHAPE, (1 + |sizes| / 4) % 256] + SizesBytes(sizes) +
    Zeros(if |sizes| % 4 < 3 then 2 * (3 - |sizes| % 4) else 0)
  }

  function WordLength(d: Data): (w: nat)
    ensures w > 0
  {
    match d
    case Words16(_) => 2
    case Words32(_) => 4
    case Words64(_) => 8
    case Raw(_) => 1
  }

  function PayloadBytes(d: Data, big: bool): seq<byte> {
    if d.Raw? then d.bytes
    else if big then SwapWords(Words(d.w, WordLength(d)), WordLength(d), |d.w|)
    else Words(d.w, WordLength(d))
  }

  /** Bytes: the packet for transport. */
  function Bytes(p: Packet): seq<byte> {
    [p.version % 256, p.headerLength % 256] + BE(p.payloadLength, 2) + BE(MAGIC, 4) + BE(p.sourceID, 4) +
    BE(p.sequenceNumber, 4) + Items(p) +
    if p.data.Some? && p.shape.Some? && p.format.Some?
    then PayloadBytes(p.data.value, p.format.value.bigEndian == Some(true)) else []
  }

  /** The header items that Bytes writes. */
  function Items(p: Packet): seq<byte> {
    OffsetItem(p.offset) +
    (if p.timestamp.Some? then StampItem(p.timestamp.value) else []) +
    (if p.data.Some? && p.shape.Some? && p.format.Some?
     then FormatItem(p.format.value) + ShapeItem(p.shape.value) else [])
  }

  // ---------------------------------------------------------------------------------------------
  // Building

  /** The format that NewData sets, by the type of the slice. */
  function FormatOf(d: Data): Format
    requires !d.Raw?
  {
    match d
    case Words16(_) => Format([0x3c, 0x68], Some(false), 2, 1, [KInt16])
    case Words32(_) => Format([0x3c, 0x69], Some(false), 4, 1, [KInt32])
    case Words64(_) => Format([0x3c, 0x71], Some(false), 8, 1, [KInt64])
  }

  ghost predicate GoodStamp(ts: Timestamp) {
    0 <= ts.t < Pow256(8) && ts.exp == -11 && 0 <= ts.num < Pow256(2) && 0 <= ts.denom < Pow256(2)
  }

  ghost predicate GoodData(d: Data) {
    !d.Raw? && forall i :: 0 <= i < |d.w| ==> FitsIn(d.w[i], WordLength(d))
  }

  /** What every packet built with NewPacket, NewData, SetTimestamp, ResetTimestamp and ClearData
      satisfies: its header length is that of the items it holds. */
  ghost predicate Built(p: Packet) {
    && 0 <= p.version < 256 && 0 <= p.sourceID < Pow256(4)
    && 0 <= p.sequenceNumber < Pow256(4) && 0 <= p.offset < Pow256(4)
    && (p.timestamp.Some? ==> GoodStamp(p.timestamp.value))
    && p.headerLength == 24 + (if p.timestamp.Some? then 16 else 0) + (if p.data.Some? then 16 else 0)
    && (p.data.None? ==> p.format.None? && p.shape.None? && p.payloadLength == 0)
    && (p.data.Some? ==>
          && !p.data.value.Raw? && GoodData(p.data.value) && p.format == Some(FormatOf(p.data.value))
          && p.shape.Some? && |p.shape.value| == 1 && FitsIn(p.shape.value[0], 2)
          && p.payloadLength == (WordLength(p.data.value) * |p.data.value.w|) % 0x1_0000)
  }

  function NewPacket(version: int, sourceID: int, sequenceNumber: int, chanOffset: int): (p: Packet)
    requires 0 <= version < 256 && 0 <= sourceID < Pow256(4) && 0 <= sequenceNumber < Pow256(4)
    ensures Built(p) && p.data.None? && p.timestamp.None?
  {
    Packet(version, 24, 0, sourceID, sequenceNumber, 0, None, None, None, [], chanOffset % Pow256(4), false, [], None)
  }

  /** The header length of a packet without data. */
  function BareHeader(p: Packet): int { 24 + if p.timestamp.Some? then 16 else 0 }

  /** What NewData leaves of the packet when it does not know the type of the slice ... */
  function UnknownType(p: Packet): Packet { p.(headerLength := BareHeader(p)) }

  /** ... and when it is given more than one dimension: everything but the shape's header length. */
  function HalfStored(p: Packet, d: Data, size: int): Packet
    requires !d.Raw?
  {
    p.(headerLength := BareHeader(p) + 8, payloadLength := (WordLength(d) * |d.w|) % 0x1_0000, data := Some(d),
       format := Some(FormatOf(d)), shape := Some([size]))
  }

  /** The packet with the data stored. */
  function FullyStored(p: Packet, d: Data, size: int): (q: Packet)
    requires !d.Raw?
    ensures q.data == Some(d) && q.shape == Some([size]) && q.packetLength == q.headerLength + q.payloadLength
    ensures q.timestamp == p.timestamp && q.version == p.version && q.sourceID == p.sourceID
    ensures q.offset == p.offset && q.sequenceNumber == p.sequenceNumber
  {
    var q := HalfStored(p, d, size);
    q.(headerLength := q.headerLength + 8, packetLength := q.headerLength + 8 + q.payloadLength)
  }

  function NextNumber(p: Packet): Packet { p.(sequenceNumber := (p.sequenceNumber + 1) % Pow256(4)) }

  /** Which of the outcomes of NewData keep the header length right. */
  lemma StoringKeepsBuilt(p: Packet, d: Data, size: int)
    requires Built(p) && GoodData(d) && FitsIn(size, 2)
    ensures Built(FullyStored(p, d, size)) && Built(NextNumber(FullyStored(p, d, size)))
    ensures !Built(HalfStored(p, d, size))
  {
    assert Pow256(4) > 0;
    hide Pow256;
  }

  lemma UnknownTypeBuilt(p: Packet)
    requires Built(p)
    ensures Built(UnknownType(p)) <==> p.data.None?
  {
  }

  datatype NewDataResult = Stored | TooLong | BadType | IndexPanic

  class PacketBuilder {
    var p: Packet

    constructor (version: int, sourceID: int, sequenceNumber: int, chanOffset: int)
      requires 0 <= version < 256 && 0 <= sourceID < Pow256(4) && 0 <= sequenceNumber < Pow256(4)
      ensures p == NewPacket(version, sourceID, sequenceNumber, chanOffset)
    {
      p := NewPacket(version, sourceID, sequenceNumber, chanOffset);
    }

    method ClearData()
      requires Built(p)
      modifies this
      ensures Built(p) && p.data.None? && p.timestamp == old(p.timestamp)
      ensures p.packetLength == p.headerLength + p.payloadLength
      ensures p.version == old(p.version) && p.sourceID == old(p.sourceID) && p.offset == old(p.offset)
      ensures p.sequenceNumber == old(p.sequenceNumber)
    {
      var headerLength := 24;
      if p.timestamp.Some? {
        headerLength := headerLength + 16;
      }
      p := p.(headerLength := headerLength, payloadLength := 0, packetLength := headerLength,
              format := None, data := None, shape := None);
    }

    method SetTimestamp(ts: Timestamp)
      requires Built(p) && GoodStamp(ts)
      modifies this
      ensures Built(p) && p.timestamp == Some(ts) && p.data == old(p.data) && p.shape == old(p.shape)
      ensures p.version == old(p.version) && p.sourceID == old(p.sourceID) && p.offset == old(p.offset)
      ensures p.sequenceNumber == old(p.sequenceNumber)
      ensures p.packetLength - p.headerLength == old(p.packetLength) - old(p.headerLength)
    {
      if p.timestamp.None? {
        p := p.(headerLength := p.headerLength + 16, packetLength := p.packetLength + 16);
      }
      p := p.(timestamp := Some(ts));
    }

    method ResetTimestamp()
      requires Built(p)
      modifies this
      ensures Built(p) && p.timestamp == None && p.data == old(p.data) && p.shape == old(p.shape)
      ensures p.version == old(p.version) && p.sourceID == old(p.sourceID) && p.offset == old(p.offset)
      ensures p.sequenceNumber == old(p.sequenceNumber)
      ensures p.packetLength - p.headerLength == old(p.packetLength) - old(p.headerLength)
    {
      if p.timestamp.Some? {
        p := p.(headerLength := p.headerLength - 16, packetLength := p.packetLength - 16);
      }
      p := p.(timestamp := None);
    }

    /** Stores data and makes format and shape to match.  More than one dimension runs past the one
        size that is allocated; a packet found too long keeps its new data all the same; a slice of
        another type leaves the old data under the header length of a packet that has none. */
    method NewData(data: Data, dims: seq<int>) returns (r: NewDataResult)
      requires Built(p) && (GoodData(data) || data.Raw?)
      requires forall i :: 0 <= i < |dims| ==> FitsIn(dims[i], 2)
      modifies this
      ensures r == if data.Raw? then BadType else if |dims| > 1 then IndexPanic
                   else if p.packetLength > MAX_PACKET_LENGTH then TooLong else Stored
      ensures r == Stored ==> p == NextNumber(FullyStored(old(p), data, if dims == [] then 0 else dims[0]))
      ensures r == TooLong ==> p == FullyStored(old(p), data, if dims == [] then 0 else dims[0])
      ensures r == BadType ==> p == UnknownType(old(p))
      ensures r == IndexPanic ==> p == HalfStored(old(p), data, dims[0])
      ensures Built(p) <==> (r == BadType ==> old(p).data.None?) && r != IndexPanic
    {
      UnknownTypeBuilt(p);
      assert FitsIn(0, 2);
      if !data.Raw? {
        StoringKeepsBuilt(p, data, if dims == [] then 0 else dims[0]);
      }
      assert Pow256(4) > 0;
      hide FitsIn, Pow256, Built, GoodData, FormatOf, WordLength;
      p := p.(headerLength := 24);
      if p.timestamp.Some? {
        p := p.(headerLength := p.headerLength + 16);
      }
      if data.Raw? {
        return BadType;
      }
      var pfmt := FormatOf(data);
      p := p.(payloadLength := (WordLength(data) * |data.w|) % 0x1_0000, data := Some(data));
      p := p.(format := Some(pfmt), headerLength := p.headerLength + 8, shape := Some([0]));
      var i := 0;
      while i < |dims|
        invariant 0 <= i <= |dims| && i <= 1
        invariant p == HalfStored(old(p), data, if i == 0 then 0 else dims[0])
      {
        if i >= 1 {
          return IndexPanic;
        }
        assert [0][0 := dims[0]] == [dims[0]];
        p := p.(shape := Some(p.shape.value[i := dims[i]]));
        i := i + 1;
      }
      assert |dims| == 1 ==> dims == [dims[0]];
      p := p.(headerLength := p.headerLength + 8 * (1 + |dims| / 4));
      p := p.(packetLength := p.headerLength + p.payloadLength);
      if p.packetLength > MAX_PACKET_LENGTH {
        return TooLong;
      }
      p := p.(sequenceNumber := (p.sequenceNumber + 1) % Pow256(4));
      return Stored;
    }
  }

  // ---------------------------------------------------------------------------------------------
  // Round trip

  /** The packet's data can be read back: this is up to the caller of NewData. */
  predicate Readable(p: Packet) {
    p.data.Some? && !p.data.value.Raw? && p.shape.Some? && |p.shape.value| == 1 ==>
      && p.shape.value[0] > 0
      && 0 < |p.data.value.w| && WordLength(p.data.value) * |p.data.value.w| < 0x1_0000
  }

  /** The two packets say the same; the format string may have gained padding. */
  predicate SameContent(p: Packet, q: Packet) {
    && p.version == q.version && p.headerLength == q.headerLength && p.payloadLength == q.payloadLength
    && p.sourceID == q.sourceID && p.sequenceNumber == q.sequenceNumber && p.offset == q.offset
    && p.timestamp == q.timestamp && p.shape == q.shape && p.data == q.data
    && p.format.Some? == q.format.Some?
    && (p.format.Some? ==> p.format.value.(rawfmt := []) == q.format.value.(rawfmt := []))
  }

  lemma OffsetItemParses(offset: int)
    requires 0 <= offset < Pow256(4)
    ensures ParseTLV(OffsetItem(offset)) == Ok([ChannelOffset(offset)])
  {
    hide BE, FromBE, Pow256;
    var item := OffsetItem(offset);
    BERoundTrip(offset, 4);
    BERoundTrip(0, 2);
    assert item[2..4] == BE(0, 2) && item[4..8] == BE(offset, 4);
    ParseOne(item);
  }

  lemma Pow2Of64()
    ensures Pow2(64) == Pow256(8)
  {
    assert Pow2(8) == 256 && Pow256(1) == 256;
    assert Pow2(16) == 0x1_0000 && Pow256(2) == 0x1_0000;
    assert Pow2(32) == 0x1_0000_0000 by { assert Pow2(24) == 0x100_0000; }
    assert Pow256(4) == 0x1_0000_0000;
    assert Pow2(48) == 0x1_0000_0000_0000 by { assert Pow2(40) == 0x100_0000_0000; }
    assert Pow256(6) == 0x1_0000_0000_0000;
    assert Pow2(56) == 0x100_0000_0000_0000;
  }

  lemma StampItemParses(ts: Timestamp)
    requires GoodStamp(ts)
    ensures |StampItem(ts)| == 16
    ensures ParseTLV(StampItem(ts)) == Ok([Stamp(ts)])
  {
    hide BE, FromBE, Pow2;
    var item := StampItem(ts);
    assert Signed(BE(-11, 1)[0], 1) == -11 by { MinusEleven(); }
    BERoundTrip(ts.num, 2);
    BERoundTrip(ts.denom, 2);
    BERoundTrip(ts.t, 8);
    Pow2Of64();
    RemainderUnique(ts.t, Pow2(64), 0, ts.t);
    assert item[3] == BE(-11, 1)[0];
    assert item[4..6] == BE(ts.num, 2) && item[6..8] == BE(ts.denom, 2) && item[8..16] == BE(ts.t, 8);
    ParseOne(item);
  }

  lemma MinusEleven()
    ensures BE(-11, 1) == [245] && Signed(245, 1) == -11
  {
    assert BE(-11, 1) == BE(-1, 0) + [245];
  }

  lemma FormatItemParses(d: Data)
    requires !d.Raw?
    ensures |FormatItem(FormatOf(d))| == 8
    ensures ParseTLV(FormatItem(FormatOf(d))) ==
            Ok([PayloadFormat(FormatOf(d).(rawfmt := FormatOf(d).rawfmt + Zeros(4)))])
  {
    var item := FormatItem(FormatOf(d));
    var chars := FormatOf(d).rawfmt + Zeros(4);
    var f0 := Format(chars, None, 0, 0, []);
    assert item[2..] == chars;
    var f := FormatOf(d).(rawfmt := chars);
    assert chars[1..][1..] == Zeros(4);
    ZerosParse(4, f);
    assert chars[0] == 0x3c && chars[1..][0] == FormatOf(d).rawfmt[1];
    assert ParseFormat(chars[1..], f0.(bigEndian := Some(false))) == Ok(f) by {
      assert [] + FormatOf(d).dtype == FormatOf(d).dtype;
    }
    assert ParseFormat(chars, f0) == Ok(f);
    ParseOne(item);
  }

  lemma {:induction false} ZerosParse(n: nat, f: Format)
    ensures ParseFormat(Zeros(n), f) == Ok(f)
  {
    if n > 0 {
      assert Zeros(n)[1..] == Zeros(n - 1);
      ZerosParse(n - 1, f);
    }
  }

  lemma ShapeItemParses(size: int)
    requires FitsIn(size, 2)
    ensures |ShapeItem([size])| == 8
    ensures ParseTLV(ShapeItem([size])) == if size > 0 then Ok([Shape([size])]) else Err
  {
    hide BE, FromBE, Pow256;
    var item := ShapeItem([size]);
    assert SizesBytes([size]) == BE(size, 2) by { assert SizesBytes([]) == []; }
    var s := item[2..];
    SignedRoundTrip(size, 2);
    assert s[..2] == BE(size, 2);
    assert s[2..] == Zeros(4);
    NoSizes();
    assert ParseSizes(s) == (if size > 0 then [size] else []) + ParseSizes(Zeros(4));
    assert ParseSizes(s) == if size > 0 then [size] else [];
    if size > 0 {
      ParseOne(item);
    } else {
      assert item[..8] == item;
    }
  }

  lemma NoSizes()
    ensures ParseSizes(Zeros(4)) == []
  {
    var z := Zeros(4);
    assert z[..2] == [0, 0] && z[2..] == Zeros(2) && z[2..][..2] == [0, 0] && z[2..][2..] == [];
    assert FromBE([0, 0]) == 0 by { assert [0, 0][..1] == [0] && [0][..0] == []; }
    assert Signed(0, 2) == 0;
  }

  /** The items that come back. */
  function ItemsOf(p: Packet): seq<TLV>
    requires p.data.Some? ==> p.shape.Some? && !p.data.value.Raw?
  {
    [ChannelOffset(p.offset)] +
    (if p.timestamp.Some? then [Stamp(p.timestamp.value)] else []) +
    (if p.data.Some? then
       var f := FormatOf(p.data.value);
       [PayloadFormat(f.(rawfmt := f.rawfmt + Zeros(4))), Shape(p.shape.value)]
     else [])
  }

  lemma ItemsParse(p: Packet)
    requires Built(p)
    ensures |Items(p)| == p.headerLength - MIN_LENGTH
    ensures ParseTLV(Items(p)) == if p.data.Some? && p.shape.value[0] <= 0 then Err else Ok(ItemsOf(p))
  {
    hide ParseTLV, OffsetItem, StampItem, FormatItem, ShapeItem, FitsIn, Pow256, GoodStamp, GoodData;
    var o := OffsetItem(p.offset);
    assert |o| == 8 by { OffsetLength(p.offset); }
    OffsetItemParses(p.offset);
    var s: seq<byte> := [];
    NoItems();
    if p.timestamp.Some? {
      StampItemParses(p.timestamp.value);
      s := StampItem(p.timestamp.value);
    }
    ParseTLVConcat(o, s);
    var stamps: seq<TLV> := if p.timestamp.Some? then [Stamp(p.timestamp.value)] else [];
    assert ParseTLV(o + s) == Ok([ChannelOffset(p.offset)] + stamps);
    var d: seq<byte> := [];
    if p.data.Some? {
      var f, h := FormatItem(FormatOf(p.data.value)), ShapeItem(p.shape.value);
      assert p.shape.value == [p.shape.value[0]];
      FormatItemParses(p.data.value);
      ShapeItemParses(p.shape.value[0]);
      ParseTLVConcat(f, h);
      d := f + h;
      var pf := PayloadFormat(FormatOf(p.data.value).(rawfmt := FormatOf(p.data.value).rawfmt + Zeros(4)));
      assert [pf] + [Shape(p.shape.value)] == [pf, Shape(p.shape.value)];
    }
    ParseTLVConcat(o + s, d);
    assert Items(p) == o + s + d;
    assert [ChannelOffset(p.offset)] + stamps + [] == [ChannelOffset(p.offset)] + stamps;
  }

  lemma OffsetLength(offset: int)
    ensures |OffsetItem(offset)| == 8
  {
  }

  lemma NoItems()
    ensures ParseTLV([]) == Ok([])
  {
  }

  function Payload(p: Packet): seq<byte> {
    if p.data.Some? && p.shape.Some? && p.format.Some?
    then PayloadBytes(p.data.value, p.format.value.bigEndian == Some(true)) else []
  }

  /** The fixed part of the header, whatever the header length says of the rest. */
  lemma HeadLayout(p: Packet)
    requires 0 <= p.version < 256 && 0 <= p.headerLength < 256 && 0 <= p.payloadLength < Pow256(2)
    requires 0 <= p.sourceID < Pow256(4) && 0 <= p.sequenceNumber < Pow256(4)
    ensures var s := Bytes(p);
            && |s| == MIN_LENGTH + |Items(p)| + |Payload(p)|
            && s[0] == p.version && s[1] == p.headerLength
            && FromBE(s[2..4]) == p.payloadLength && FromBE(s[4..8]) == MAGIC
            && FromBE(s[8..12]) == p.sourceID && FromBE(s[12..16]) == p.sequenceNumber
            && s[MIN_LENGTH..] == Items(p) + Payload(p)
  {
    hide Items, PayloadBytes, BE, FromBE;
    BERoundTrip(p.payloadLength, 2);
    assert Pow256(4) == 0x1_0000_0000;
    BERoundTrip(MAGIC, 4);
    BERoundTrip(p.sourceID, 4);
    BERoundTrip(p.sequenceNumber, 4);
    hide Pow256;
    var head := [p.version % 256, p.headerLength % 256] + BE(p.payloadLength, 2) + BE(MAGIC, 4) + BE(p.sourceID, 4) +
      BE(p.sequenceNumber, 4);
    var s := Bytes(p);
    assert |head| == 16 && s == head + Items(p) + Payload(p);
    assert s[2..4] == BE(p.payloadLength, 2) && s[4..8] == BE(MAGIC, 4);
    assert s[8..12] == BE(p.sourceID, 4) && s[12..16] == BE(p.sequenceNumber, 4);
  }

  /** Where the parts of Bytes lie. */
  lemma BytesLayout(p: Packet)
    requires Built(p)
    ensures var s, h := Bytes(p), p.headerLength;
            && |s| == h + |Payload(p)| && 16 <= h < 256
            && s[0] == p.version && s[1] == h
            && FromBE(s[2..4]) == p.payloadLength && FromBE(s[4..8]) == MAGIC
            && FromBE(s[8..12]) == p.sourceID && FromBE(s[12..16]) == p.sequenceNumber
            && s[MIN_LENGTH..h] == Items(p) && s[h..] == Payload(p)
  {
    assert Pow256(2) == 0x1_0000;
    hide Bytes, Items, Payload, FromBE, GoodStamp, GoodData, FitsIn, Pow256;
    ItemsParse(p);
    HeadLayout(p);
    var s, h := Bytes(p), p.headerLength;
    assert s[MIN_LENGTH..h] == s[MIN_LENGTH..][..|Items(p)|] && s[h..] == s[MIN_LENGTH..][|Items(p)|..];
  }

  /** A packet with data whose caller then gave NewData a slice of another type: more bytes are written
      than the header declares, and reading them back gives a packet without data. */
  lemma UnknownTypeLosesData(p: Packet)
    requires Built(p) && p.data.Some?
    ensures var q := UnknownType(p); var r := ReadPacket(Bytes(q));
            && |Bytes(q)| == q.headerLength + 16 + |Payload(p)| > q.headerLength + q.payloadLength
            && r.Ok? && r.value.0.data == None && |r.value.1| == 16 + |Payload(p)|
  {
    hide Bytes, ParseTLV, PayloadBytes, Pow256, GoodStamp, GoodData, FitsIn, FromBE, WordLength;
    hide FormatItem, ShapeItem, StampItem, OffsetItem;
    var q := UnknownType(p);
    var bare := q.(data := None, format := None, shape := None, payloadLength := 0);
    assert Pow256(2) == 0x1_0000 by { Pow256Of2(); }
    ItemsParse(p);
    ItemsParse(bare);
    PayloadSize(p);
    HeadLayout(q);
    assert Items(q) == Items(p) && Payload(q) == Payload(p);
    ItemsBegin(q, bare);
    var s, h := Bytes(q), q.headerLength;
    assert s[MIN_LENGTH..h] == s[MIN_LENGTH..][..|Items(bare)|] == Items(bare);
    var empty := Packet(p.version, h, p.payloadLength, p.sourceID, p.sequenceNumber, h + p.payloadLength,
                        None, None, None, [], 0, false, [], None);
    ApplyItems(empty, bare);
  }

  lemma Pow256Of2()
    ensures Pow256(2) == 0x1_0000
  {
  }

  lemma ItemsBegin(q: Packet, bare: Packet)
    requires bare == q.(data := None, format := None, shape := None, payloadLength := 0)
    ensures |Items(bare)| <= |Items(q)| && Items(q)[..|Items(bare)|] == Items(bare)
  {
    hide OffsetItem, StampItem, FormatItem, ShapeItem;
  }

  /** The header and payload lengths say how long the packet is, exactly when the payload's length
      was not cut to 16 bits. */
  lemma LengthExact(p: Packet)
    requires Built(p)
    ensures |Bytes(p)| == p.headerLength + p.payloadLength
            <==> (p.data.Some? ==> WordLength(p.data.value) * |p.data.value.w| < 0x1_0000)
  {
    hide Bytes, Payload, PayloadBytes, Items, FromBE, GoodData, GoodStamp, FitsIn, FormatOf, WordLength, Pow256;
    BytesLayout(p);
    PayloadSize(p);
  }

  lemma PayloadSize(p: Packet)
    requires Built(p)
    ensures |Payload(p)| == if p.data.Some? then WordLength(p.data.value) * |p.data.value.w| else 0
  {
    hide GoodData, GoodStamp, FitsIn, Words, Pow256;
  }

  /** Reading the words back: all of them, or as many as the cut length still covers. */
  lemma PayloadReads(d: Data)
    requires GoodData(d)
    ensures var w := WordLength(d);
            var length := (w * |d.w|) % 0x1_0000;
            var r := ReadPayload(PayloadBytes(d, false), length, FormatOf(d));
            && r.Ok?
            && (w * |d.w| < 0x1_0000 ==> r.value == (d, []))
            && (w * |d.w| >= 0x1_0000 ==> r.value.0 != d)
  {
    hide FromWords, Words, Pow256, FitsIn;
    WordsCovered(WordLength(d), |d.w|);
    var s := PayloadBytes(d, false);
    assert s + [] == s && s[|s|..] == [];
    WordsRoundTrip(d.w, WordLength(d), []);
  }

  lemma WordsCovered(w: nat, m: nat)
    requires w == 2 || w == 4 || w == 8
    ensures var length := (w * m) % 0x1_0000;
            && (length / w) * w <= length <= w * m
            && (if w * m < 0x1_0000 then length / w == m && length == m * w else length / w < m)
  {
  }

  /** Packets built with the packet's own methods come back from their bytes with everything they
      hold, exactly when the caller gave NewData a positive size and a payload that is not empty and
      not too long for its 16-bit length. */
  lemma RoundTrip(p: Packet)
    requires Built(p)
    ensures var r := ReadPacket(Bytes(p));
            (r.Ok? && SameContent(p, r.value.0) && r.value.1 == []) <==> Readable(p)
  {
    hide Bytes, ParseTLV, Items, FromBE, PayloadBytes, ReadPayload, Pow256, FitsIn, GoodStamp, GoodData;
    var s, h := Bytes(p), p.headerLength;
    BytesLayout(p);
    ItemsParse(p);
    if p.data.Some? {
      PayloadReads(p.data.value);
      PayloadFormatIgnored(p.data.value);
    }
    if !(p.data.Some? && p.shape.value[0] <= 0) {
      var empty := Packet(p.version, h, p.payloadLength, p.sourceID, p.sequenceNumber, h + p.payloadLength,
                          None, None, None, [], 0, false, [], None);
      ApplyItems(empty, p);
    }
  }

  lemma PayloadFormatIgnored(d: Data)
    requires !d.Raw?
    ensures forall s: seq<byte>, n: nat :: ReadPayload(s, n, FormatOf(d).(rawfmt := FormatOf(d).rawfmt + Zeros(4))) ==
                                           ReadPayload(s, n, FormatOf(d))
  {
    hide ReadWords;
  }

  lemma ApplyItems(q: Packet, p: Packet)
    requires Built(p) && q.format.None? && q.shape.None? && q.timestamp.None?
    ensures ApplyAll(q, ItemsOf(p)) ==
            q.(offset := p.offset, explicitOffset := true, timestamp := p.timestamp,
               format := if p.data.None? then None else
                 Some(FormatOf(p.data.value).(rawfmt := FormatOf(p.data.value).rawfmt + Zeros(4))),
               shape := p.shape)
  {
    var ts := ItemsOf(p);
    assert ApplyAll(q, ts) == ApplyAll(Apply(q, ts[0]), ts[1..]);
    var a, b := Apply(q, ts[0]), ts[1..];
    if p.timestamp.Some? {
      assert b[0] == Stamp(p.timestamp.value);
      a, b := Apply(a, b[0]), b[1..];
    }
    if p.data.Some? {
      assert b[1..][1..] == [];
      assert ApplyAll(a, b) == ApplyAll(Apply(a, b[0]), b[1..]);
    }
  }
}
