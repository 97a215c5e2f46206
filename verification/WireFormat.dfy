/** The wire format of packets, byte by byte. */
module WireFormat {
  import opened Common
  import opened PacketBytes
  import opened Packets

  // ---------------------------------------------------------------------------------------------
  // The fixed header

  predicate HasMagic(s: seq<byte>) { |s| >= 16 && s[4..8] == [0x81, 0x0b, 0x00, 0xff] }

  lemma MagicBytes(s: seq<byte>)
    requires |s| >= 16
    ensures FromBE(s[4..8]) == MAGIC <==> HasMagic(s)
  {
    Fields(s, 4);
    assert s[4..8] == [s[4], s[5], s[6], s[7]];
    var a, b, c, d: int := s[4], s[5], s[6], s[7];
    assert U32(s, 4) == a * 0x100_0000 + b * 0x1_0000 + c * 0x100 + d;
  }

  /** A packet that is read has its version and lengths, the magic number, its source and its sequence number in
      these bytes of the header; and none is read without enough bytes or the magic number. */
  lemma ReadHeader(s: seq<byte>)
    ensures ReadPacket(s).Ok? ==>
              && HasMagic(s) && 16 <= s[1] as int <= |s|
              && var p := ReadPacket(s).value.0;
              && p.version == s[0] && p.headerLength == s[1] && p.payloadLength == U16(s, 2)
              && p.sourceID == U32(s, 8) && p.sequenceNumber == U32(s, 12)
              && p.packetLength == s[1] as int + U16(s, 2)
  {
    hide ParseTLV, ReadPayload, FromBE;
    if |s| >= 16 {
      MagicBytes(s);
      Fields(s, 2);
      Fields(s, 8);
      Fields(s, 12);
      if ReadPacket(s).Ok? {
        var items := ParseTLV(s[MIN_LENGTH..s[1]]);
        KeepsHeader(Packet(s[0], s[1], FromBE(s[2..4]), FromBE(s[8..12]), FromBE(s[12..16]),
                           s[1] as int + FromBE(s[2..4]), None, None, None, [], 0, false, [], None), items.value);
      }
    }
  }

  /** What the fixed header alone says. */
  function Header(s: seq<byte>): Packet
    requires |s| >= 16
  {
    Packet(s[0], s[1], U16(s, 2), U32(s, 8), U32(s, 12), s[1] as int + U16(s, 2),
           None, None, None, [], 0, false, [], None)
  }

  /** What becomes of the packet once its items are known. */
  function WithPayload(p: Packet, payload: seq<byte>): Result<(Packet, seq<byte>)> {
    if p.payloadLength <= 0 || p.format.None? then Ok((p, payload))
    else match ReadPayload(payload, p.payloadLength, p.format.value)
         case Ok(r) => Ok((p.(data := Some(r.0)), r.1))
         case Err => Err
  }

  lemma ReadWhole(s: seq<byte>, ts: seq<TLV>)
    requires HasMagic(s) && 16 <= s[1] as int <= |s| && ParseTLV(s[16..s[1]]) == Ok(ts)
    ensures ReadPacket(s) == WithPayload(ApplyAll(Header(s), ts), s[s[1]..])
  {
    hide ParseTLV, FromBE, ApplyAll, ReadPayload, U16, U32;
    assert FromBE(s[4..8]) == MAGIC && |s| >= 16 by {
      MagicBytes(s);
    }
    hide HasMagic;
    assert FromBE(s[2..4]) == U16(s, 2) && FromBE(s[8..12]) == U32(s, 8) && FromBE(s[12..16]) == U32(s, 12) by {
      Fields(s, 2);
      Fields(s, 8);
      Fields(s, 12);
    }
    KeepsHeader(Header(s), ts);
  }

  /** What is behind the fixed header: as many bytes of items as the header length says, and then the payload,
      which is only read when it is not empty and an item gives its format. */
  lemma ReadParts(head: seq<byte>, items: seq<byte>, ts: seq<TLV>, payload: seq<byte>)
    requires |head| == 16 && HasMagic(head) && head[1] as int == 16 + |items| && ParseTLV(items) == Ok(ts)
    ensures ReadPacket(head + items + payload) == WithPayload(ApplyAll(Header(head), ts), payload)
  {
    hide ParseTLV, ReadPacket, ApplyAll, WithPayload;
    var s := head + items + payload;
    assert s[..16] == head && s[16..s[1]] == items && s[s[1]..] == payload;
    assert s[4..8] == head[4..8];
    ReadWhole(s, ts);
    assert Header(s) == Header(head);
  }

  lemma {:induction false} KeepsHeader(p: Packet, ts: seq<TLV>)
    ensures var q := ApplyAll(p, ts);
            && q.version == p.version && q.headerLength == p.headerLength && q.payloadLength == p.payloadLength
            && q.sourceID == p.sourceID && q.sequenceNumber == p.sequenceNumber && q.packetLength == p.packetLength
    decreases |ts|
  {
    if ts != [] {
      KeepsHeader(Apply(p, ts[0]), ts[1..]);
    }
  }

  /** The shortest packet there is: version 1, no items and no payload, source 5, sequence number 7. */
  lemma ShortestPacket()
    ensures var s: seq<byte> := [0x01, 0x10, 0x00, 0x00, 0x81, 0x0b, 0x00, 0xff, 0, 0, 0, 5, 0, 0, 0, 7];
            ReadPacket(s) == Ok((Packet(1, 16, 0, 5, 7, 16, None, None, None, [], 0, false, [], None), []))
  {
    var s: seq<byte> := [0x01, 0x10, 0x00, 0x00, 0x81, 0x0b, 0x00, 0xff, 0, 0, 0, 5, 0, 0, 0, 7];
    MagicBytes(s);
    assert s[4..8] == [0x81, 0x0b, 0x00, 0xff];
    Fields(s, 2);
    Fields(s, 8);
    Fields(s, 12);
    hide FromBE;
    assert s[16..16] == [] && s[16..] == [] && ParseTLV([]) == Ok([]);
  }

  /** The header that Bytes writes. */
  lemma WritesHeader(p: Packet)
    requires Built(p)
    ensures var s := Bytes(p);
            && |s| >= 16 && HasMagic(s) && s[0] == p.version && s[1] == p.headerLength
            && U16(s, 2) == p.payloadLength && U32(s, 8) == p.sourceID && U32(s, 12) == p.sequenceNumber
  {
    hide Bytes, Payload, Items, GoodData, GoodStamp, FitsIn, FormatOf, FromBE;
    BytesLayout(p);
    var s := Bytes(p);
    MagicBytes(s);
    Fields(s, 2);
    Fields(s, 8);
    Fields(s, 12);
  }

  // ---------------------------------------------------------------------------------------------
  // The items

  /** Two's complement. */
  function I16(s: seq<byte>, i: nat): int
    requires i + 2 <= |s|
  {
    if s[i] < 0x80 then U16(s, i) else U16(s, i) - 0x1_0000
  }

  function I32(s: seq<byte>, i: nat): int
    requires i + 4 <= |s|
  {
    if s[i] < 0x80 then U32(s, i) else U32(s, i) - 0x1_0000_0000
  }

  lemma SignedFields(s: seq<byte>, i: nat)
    ensures i + 2 <= |s| ==> Signed(FromBE(s[i..i + 2]), 2) == I16(s, i)
    ensures i + 4 <= |s| ==> Signed(FromBE(s[i..i + 4]), 4) == I32(s, i)
  {
    Fields(s, i);
    assert Pow256(2) == 0x1_0000 && Pow256(4) == 0x1_0000_0000;
  }

  /** A tag is the last four of eight bytes, the second pair being zero. */
  lemma TagItem(item: seq<byte>)
    requires |item| >= 8 && item[0] == 0x09
    ensures ParseItem(item) == if item[2] == 0 && item[3] == 0 then Ok(Some(Tag(U32(item, 4)))) else Err
  {
    hide FromBE;
    Fields(item, 2);
    Fields(item, 4);
  }

  /** A timestamp without unit holds the upper 48 of 64 bits, in nanoseconds. */
  lemma TimestampItem(item: seq<byte>)
    requires |item| >= 8 && item[0] == 0x11
    ensures ParseItem(item) ==
            Ok(Some(Stamp(Timestamp(U16(item, 2) * 0x1_0000_0000_0000 + U32(item, 4) * 0x1_0000, -9, 1, 1))))
  {
    hide FromBE;
    Fields(item, 2);
    Fields(item, 4);
  }

  lemma TimestampExample()
    ensures var item: seq<byte> := [0x11, 1, 0, 0, 0, 0, 0, 1];
            ParseItem(item) == Ok(Some(Stamp(Timestamp(65536, -9, 1, 1))))
  {
    TimestampItem([0x11, 1, 0, 0, 0, 0, 0, 1]);
  }

  /** A counter is a signed number of two bytes and a signed count of four. */
  lemma CounterItem(item: seq<byte>)
    requires |item| >= 8 && item[0] == 0x12
    ensures ParseItem(item) == if |item| == 8 then Ok(Some(Counter(I16(item, 2), I32(item, 4)))) else Err
  {
    hide FromBE, Signed, Pow256;
    SignedFields(item, 2);
    SignedFields(item, 4);
  }

  /** A timestamp with unit: the number of bits and the exponent in one byte each, the period in two bytes above
      and two below, and the count in eight, of which only so many bits are valid. */
  lemma TimestampUnitItem(item: seq<byte>)
    requires |item| >= 8 && item[0] == 0x13
    ensures ParseItem(item) ==
            if |item| < 16 || item[2] > 64 then Err
            else Ok(Some(Stamp(Timestamp(U64(item, 8) % Pow2(item[2]),
                                         if item[3] < 0x80 then item[3] else item[3] as int - 0x100,
                                         U16(item, 4), U16(item, 6)))))
  {
    hide FromBE, Pow2;
    assert Pow256(1) == 256;
    Fields(item, 4);
    Fields(item, 6);
    Fields(item, 8);
  }

  /** A channel offset is the last four of eight bytes, the second pair being zero. */
  lemma ChannelOffsetItem(item: seq<byte>)
    requires |item| >= 8 && item[0] == 0x23
    ensures ParseItem(item) == if item[2] == 0 && item[3] == 0 then Ok(Some(ChannelOffset(U32(item, 4)))) else Err
  {
    hide FromBE;
    Fields(item, 2);
    Fields(item, 4);
  }

  /** A label is the rest of its item. */
  lemma LabelItem(item: seq<byte>)
    requires |item| >= 8 && item[0] == 0x29
    ensures ParseItem(item) == Ok(Some(Label(item[2..])))
  {
  }

  /** The positive sizes of a shape, two bytes each. */
  function SizesAt(item: seq<byte>, i: nat): seq<int>
    decreases |item| - i
  {
    if i + 2 > |item| then [] else (if I16(item, i) > 0 then [I16(item, i)] else []) + SizesAt(item, i + 2)
  }

  lemma {:induction false} SizesMean(item: seq<byte>, i: nat)
    requires i <= |item|
    ensures ParseSizes(item[i..]) == SizesAt(item, i)
    decreases |item| - i
  {
    hide FromBE, Signed;
    if i + 2 <= |item| {
      SignedFields(item, i);
      assert item[i..][..2] == item[i..i + 2] && item[i..][2..] == item[i + 2..];
      SizesMean(item, i + 2);
    }
  }

  lemma ShapeItemMeans(item: seq<byte>)
    requires |item| >= 8 && item[0] == 0x22
    ensures ParseItem(item) == if SizesAt(item, 2) == [] then Err else Ok(Some(Shape(SizesAt(item, 2))))
  {
    SizesMean(item, 2);
  }

  /** Items of another type are skipped. */
  lemma OtherItem(item: seq<byte>)
    requires |item| >= 8 && item[0] !in {0x09, 0x11, 0x12, 0x13, 0x21, 0x22, 0x23, 0x29}
    ensures ParseItem(item) == Ok(None)
  {
  }

  /** An item gives its size in units of eight bytes; what follows is parsed as the next one. */
  lemma NextItem(item: seq<byte>, rest: seq<byte>)
    requires |item| >= 8 && |item| == 8 * item[1] as int
    ensures ParseTLV(item + rest) ==
            if ParseItem(item).Err? then Err else Prepend(OptToSeq(ParseItem(item).value), ParseTLV(rest))
  {
    hide ParseItem;
    var all := item + rest;
    assert all[..8 * all[1] as int] == item && all[8 * all[1] as int..] == rest;
  }

  /** Bytes that are no items: too few, or an item without size, or one that goes over the end. */
  lemma NoItem(s: seq<byte>)
    requires s != [] && (|s| < 8 || s[1] == 0 || |s| < 8 * s[1] as int)
    ensures ParseTLV(s) == Err
  {
  }

  // ---------------------------------------------------------------------------------------------
  // Payload formats

  /** The bytes of a component. */
  function KindSize(k: Kind): nat {
    match k
    case KInvalid => 1
    case KInt8 => 1
    case KUint8 => 1
    case KInt16 => 2
    case KUint16 => 2
    case KInt32 => 4
    case KUint32 => 4
    case KInt64 => 8
    case KUint64 => 8
  }

  function SizeOf(ks: seq<Kind>): nat { if ks == [] then 0 else SizeOf(ks[..|ks| - 1]) + KindSize(ks[|ks| - 1]) }

  /** A format knows the size and the number of its components. */
  ghost predicate Consistent(f: Format) { f.nvals == |f.dtype| && f.wordlen == SizeOf(f.dtype) }

  lemma ComponentAdded(f: Format, k: Kind)
    requires Consistent(f)
    ensures Consistent(AddComponent(f, k, KindSize(k)))
  {
    assert (f.dtype + [k])[..|f.dtype|] == f.dtype;
  }

  /** The letters of the format, as Python's struct module has them. */
  function LetterKind(c: byte): Option<Kind> {
    if c == 'x' as int then Some(KInvalid)
    else if c == 'b' as int then Some(KInt8)
    else if c == 'B' as int then Some(KUint8)
    else if c == 'h' as int then Some(KInt16)
    else if c == 'H' as int then Some(KUint16)
    else if c == 'i' as int || c == 'l' as int then Some(KInt32)
    else if c == 'I' as int || c == 'L' as int then Some(KUint32)
    else if c == 'q' as int then Some(KInt64)
    else if c == 'Q' as int then Some(KUint64)
    else None
  }

  /** The byte order that a sign asks for. */
  function SignOrder(c: byte): Option<bool> {
    if c == '!' as int || c == '>' as int then Some(true) else if c == '<' as int then Some(false) else None
  }

  predicate Known(c: byte) { LetterKind(c).Some? || SignOrder(c).Some? || c == 0 || c == ' ' as int }

  predicate AllKnown(chars: seq<byte>) { forall i :: 0 <= i < |chars| ==> Known(chars[i]) }

  lemma KnownFirst(c: byte, rest: seq<byte>)
    ensures AllKnown([c] + rest) <==> Known(c) && AllKnown(rest)
  {
    hide Known;
    if AllKnown([c] + rest) {
      assert ([c] + rest)[0] == c;
      forall i | 0 <= i < |rest| ensures Known(rest[i]) {
        assert ([c] + rest)[i + 1] == rest[i];
      }
    }
  }

  function LetterKinds(chars: seq<byte>): seq<Kind> {
    if chars == [] then [] else OptToSeq(LetterKind(chars[0])) + LetterKinds(chars[1..])
  }

  /** The byte order of the last sign. */
  function LastOrder(chars: seq<byte>, before: Option<bool>): Option<bool> {
    if chars == [] then before
    else if SignOrder(chars[|chars| - 1]).Some? then SignOrder(chars[|chars| - 1])
    else LastOrder(chars[..|chars| - 1], before)
  }

  lemma {:induction false} LastOrderFirst(c: byte, rest: seq<byte>, before: Option<bool>)
    ensures LastOrder([c] + rest, before) ==
            LastOrder(rest, if SignOrder(c).Some? then SignOrder(c) else before)
  {
    hide SignOrder;
    var all := [c] + rest;
    if rest == [] {
      assert all[..0] == [];
    } else {
      assert all[..|all| - 1] == [c] + rest[..|rest| - 1];
      LastOrderFirst(c, rest[..|rest| - 1], before);
    }
  }

  /** What a character makes of a format. */
  function AfterChar(f: Format, c: byte): Format {
    if LetterKind(c).Some? then AddComponent(f, LetterKind(c).value, KindSize(LetterKind(c).value))
    else if SignOrder(c).Some? then f.(bigEndian := SignOrder(c))
    else f
  }

  lemma FormatStep(chars: seq<byte>, f: Format)
    requires chars != []
    ensures ParseFormat(chars, f) == if Known(chars[0]) then ParseFormat(chars[1..], AfterChar(f, chars[0])) else Err
  {
    hide AddComponent;
  }

  /** A format is read exactly when all its characters are known: its components are those of the letters in
      order, its byte order is that of the last sign, and it knows the size and number of its components. */
  lemma {:induction false} FormatLetters(chars: seq<byte>, f: Format)
    requires Consistent(f)
    ensures ParseFormat(chars, f).Ok? <==> AllKnown(chars)
    ensures ParseFormat(chars, f).Ok? ==>
              var r := ParseFormat(chars, f).value;
              && Consistent(r) && r.dtype == f.dtype + LetterKinds(chars)
              && r.bigEndian == LastOrder(chars, f.bigEndian) && r.rawfmt == f.rawfmt
    decreases |chars|
  {
    hide LetterKind, SignOrder, Known, KindSize;
    if chars == [] {
      assert ParseFormat(chars, f) == Ok(f);
    } else {
      var c, rest := chars[0], chars[1..];
      hide ParseFormat, AllKnown;
      FormatStep(chars, f);
      assert chars == [c] + rest;
      LastOrderFirst(c, rest, f.bigEndian);
      AfterCharConsistent(f, c);
      hide Consistent, AfterChar, LastOrder;
      FormatLetters(rest, AfterChar(f, c));
      KnownFirst(c, rest);
      assert f.dtype + OptToSeq(LetterKind(c)) + LetterKinds(rest) == f.dtype + LetterKinds(chars);
    }
  }

  lemma AfterCharConsistent(f: Format, c: byte)
    requires Consistent(f)
    ensures var g := AfterChar(f, c);
            && Consistent(g) && g.dtype == f.dtype + OptToSeq(LetterKind(c)) && g.rawfmt == f.rawfmt
            && (Known(c) ==> g.bigEndian == if SignOrder(c).Some? then SignOrder(c) else f.bigEndian)
  {
    if LetterKind(c).Some? {
      ComponentAdded(f, LetterKind(c).value);
    } else {
      assert f.dtype + [] == f.dtype;
    }
  }

  // ---------------------------------------------------------------------------------------------
  // Payloads

  /** Words come out the same whether they were written in network order or in the host's. */
  lemma WordsInEitherOrder(data: seq<int>, w: nat, rest: seq<byte>)
    requires w > 0 && forall i :: 0 <= i < |data| ==> FitsIn(data[i], w)
    ensures ReadWords(NetworkWords(data, w) + rest, w, |data|, true) == Ok((data, rest))
    ensures ReadWords(Words(data, w) + rest, w, |data|, false) == Ok((data, rest))
  {
    hide FromWords, Words, NetworkWords, SwapWords, FitsIn;
    var n := |data| * w;
    var a, b := NetworkWords(data, w) + rest, Words(data, w) + rest;
    assert a[..n] == NetworkWords(data, w) && a[n..] == rest && b[n..] == rest;
    SwapOrders(data, w);
    WordsRoundTrip(data, w, []);
    assert Words(data, w) + [] == Words(data, w);
    WordsRoundTrip(data, w, rest);
  }

  /** What Bytes writes for a payload. */
  lemma PayloadOrders(d: Data)
    requires !d.Raw?
    ensures PayloadBytes(d, true) == NetworkWords(d.w, WordLength(d))
    ensures PayloadBytes(d, false) == Words(d.w, WordLength(d))
  {
    SwapOrders(d.w, WordLength(d));
  }

  /** A whole packet: source 5, sequence number 7, and two 16-bit numbers in network order. */
  lemma DataPacket()
    ensures var head: seq<byte> := [1, 32, 0, 4, 0x81, 0x0b, 0x00, 0xff, 0, 0, 0, 5, 0, 0, 0, 7];
            var format: seq<byte> := [0x21, 1, '!' as int, 'h' as int, 0, 0, 0, 0];
            var shape: seq<byte> := [0x22, 1, 0, 1, 0, 0, 0, 0];
            var data: seq<byte> := [0x12, 0x34, 0xff, 0xfe];
            ReadPacket(head + (format + shape) + data) ==
            Ok((Packet(1, 32, 4, 5, 7, 36, Some(Format(format[2..], Some(true), 2, 1, [KInt16])), Some([1]), None, [],
                       0, false, [], Some(Words16([0x1234, -2]))), []))
  {
    var head: seq<byte> := [1, 32, 0, 4, 0x81, 0x0b, 0x00, 0xff, 0, 0, 0, 5, 0, 0, 0, 7];
    var format: seq<byte> := [0x21, 1, '!' as int, 'h' as int, 0, 0, 0, 0];
    var shape: seq<byte> := [0x22, 1, 0, 1, 0, 0, 0, 0];
    var data: seq<byte> := [0x12, 0x34, 0xff, 0xfe];
    var f := Format(format[2..], Some(true), 2, 1, [KInt16]);
    hide ParseItem, FromBE, ReadPayload, ParseTLV, ReadPacket, ApplyAll, Header, HasMagic, U16, U32;
    ItemsExample();
    HeaderExample();
    DataExample(f);
    DataBehindItems(head, format + shape, f, [1], data, Words16([0x1234, -2]));
  }

  lemma DataBehindItems(head: seq<byte>, items: seq<byte>, f: Format, sizes: seq<int>, payload: seq<byte>, d: Data)
    requires |head| == 16 && HasMagic(head) && head[1] as int == 16 + |items| && U16(head, 2) > 0
    requires ParseTLV(items) == Ok([PayloadFormat(f), Shape(sizes)])
    requires ReadPayload(payload, U16(head, 2), f) == Ok((d, []))
    ensures ReadPacket(head + items + payload) ==
            Ok((Header(head).(format := Some(f), shape := Some(sizes), data := Some(d)), []))
  {
    hide ReadPayload, ParseTLV, ReadPacket, ApplyAll, HasMagic, U16, U32;
    ReadParts(head, items, [PayloadFormat(f), Shape(sizes)], payload);
    ApplyTwo(Header(head), PayloadFormat(f), Shape(sizes));
  }

  lemma HeaderExample()
    ensures var head: seq<byte> := [1, 32, 0, 4, 0x81, 0x0b, 0x00, 0xff, 0, 0, 0, 5, 0, 0, 0, 7];
            && HasMagic(head) && U16(head, 2) == 4
            && Header(head) == Packet(1, 32, 4, 5, 7, 36, None, None, None, [], 0, false, [], None)
  {
    var head: seq<byte> := [1, 32, 0, 4, 0x81, 0x0b, 0x00, 0xff, 0, 0, 0, 5, 0, 0, 0, 7];
    assert head[4..8] == [0x81, 0x0b, 0x00, 0xff];
  }

  lemma ApplyTwo(p: Packet, a: TLV, b: TLV)
    ensures ApplyAll(p, [a, b]) == Apply(Apply(p, a), b)
  {
    var q := Apply(p, a);
    hide Apply;
    assert [a, b][1..] == [b] && [b][1..] == [];
    assert ApplyAll(Apply(q, b), []) == Apply(q, b);
    assert ApplyAll(q, [b]) == Apply(q, b);
  }

  lemma ItemsExample()
    ensures var format: seq<byte> := [0x21, 1, '!' as int, 'h' as int, 0, 0, 0, 0];
            var shape: seq<byte> := [0x22, 1, 0, 1, 0, 0, 0, 0];
            ParseTLV(format + shape) ==
            Ok([PayloadFormat(Format(format[2..], Some(true), 2, 1, [KInt16])), Shape([1])])
  {
    var format: seq<byte> := [0x21, 1, '!' as int, 'h' as int, 0, 0, 0, 0];
    var shape: seq<byte> := [0x22, 1, 0, 1, 0, 0, 0, 0];
    FormatExample();
    ShapeExample();
    hide ParseItem, ParseTLV;
    NextItem(format, shape);
    ParseOne(shape);
    var f := Format(format[2..], Some(true), 2, 1, [KInt16]);
    assert OptToSeq(Some(PayloadFormat(f))) + OptToSeq(Some(Shape([1]))) == [PayloadFormat(f), Shape([1])];
  }

  lemma FormatExample()
    ensures var item: seq<byte> := [0x21, 1, '!' as int, 'h' as int, 0, 0, 0, 0];
            ParseItem(item) == Ok(Some(PayloadFormat(Format(item[2..], Some(true), 2, 1, [KInt16]))))
  {
    var item: seq<byte> := [0x21, 1, '!' as int, 'h' as int, 0, 0, 0, 0];
    var f0 := Format(item[2..], None, 0, 0, []);
    var f1 := f0.(bigEndian := Some(true));
    var f2 := f1.(wordlen := 2, nvals := 1, dtype := [KInt16]);
    assert ParseFormat([0], f2) == Ok(f2) && ParseFormat([0, 0], f2) == Ok(f2);
    assert ParseFormat([0, 0, 0], f2) == Ok(f2) && ParseFormat([0, 0, 0, 0], f2) == Ok(f2);
    assert item[3..][1..] == [0, 0, 0, 0] && AddComponent(f1, KInt16, 2) == f2;
    assert item[2..][1..] == item[3..];
    assert ParseFormat(item[3..], f1) == Ok(f2);
  }

  lemma ShapeExample()
    ensures ParseItem([0x22, 1, 0, 1, 0, 0, 0, 0]) == Ok(Some(Shape([1])))
  {
    var item: seq<byte> := [0x22, 1, 0, 1, 0, 0, 0, 0];
    assert SizesAt(item, 8) == [] && SizesAt(item, 6) == [] && SizesAt(item, 4) == [];
    assert SizesAt(item, 2) == [1];
    ShapeItemMeans(item);
  }

  lemma DataExample(f: Format)
    requires f.dtype == [KInt16] && f.bigEndian == Some(true)
    ensures ReadPayload([0x12, 0x34, 0xff, 0xfe], 4, f) == Ok((Words16([0x1234, -2]), []))
  {
    var s: seq<byte> := [0x12, 0x34, 0xff, 0xfe];
    var words := [0x1234, -2];
    assert Pow256(2) == 0x1_0000;
    assert BE(0x1234, 2) == [0x12, 0x34] && BE(-2, 2) == [0xff, 0xfe];
    assert words[1..] == [-2] && words[1..][1..] == [];
    assert NetworkWords(words, 2) == s;
    assert s + [] == s;
    WordsInEitherOrder(words, 2, []);
  }
}
