/** r3_asn.c: tags of BACnet data (ANSI/ASHRAE 135, clause 20.2.1), and skipping an element of any depth. */
module Asn {
  type Byte = b: nat | b < 256
  type Tag = t: nat | t < 0x1_0000
  type Size = n: nat | n < 0x1_0000_0000

  // ----- tags (r3_asn.c:35-91)

  /** The high byte is there exactly when the high nibble of the low byte says so. */
  predicate Wide(tag: Tag) { tag % 256 / 16 == 15 <==> tag / 256 != 0 }

  /** The documented form: the low three bits are free for the length. */
  predicate Plain(tag: Tag) { tag % 8 == 0 && Wide(tag) }

  function Short(len: Size): nat { if len >= 5 then 5 else len }

  /** Bitwise or of three bits. */
  function Or3(a: nat, b: nat): (r: nat)
    requires a < 8 && b < 8
    ensures r < 8 && (a == 0 ==> r == b)
  {
    (if a / 4 == 1 || b / 4 == 1 then 4 else 0) + (if a / 2 % 2 == 1 || b / 2 % 2 == 1 then 2 else 0)
    + (if a % 2 == 1 || b % 2 == 1 then 1 else 0)
  }

  lemma OrIsBitwise(a: bv3, b: bv3)
    ensures Or3(a as nat, b as nat) == (a | b) as nat
  {
    ThreeBits(a);
    ThreeBits(b);
    ThreeBits(a | b);
  }

  lemma ThreeBits(a: bv3)
    ensures a as nat == (if a & 4 == 0 then 0 else 4) + (if a & 2 == 0 then 0 else 2) + (if a & 1 == 0 then 0 else 1)
  {
    assert a == 0 || a == 1 || a == 2 || a == 3 || a == 4 || a == 5 || a == 6 || a == 7;
  }

  /** The tag with the length, or the mark of a longer one, in its low three bits. */
  function Marked(tag: Tag, len: Size): Tag { tag - tag % 8 + Or3(tag % 8, Short(len)) }

  /** What r3_encode_tag writes. */
  function TagBytes(tag: Tag, len: Size): seq<Byte> { TagHead(Marked(tag, len)) + LengthBytes(len) }

  function TagHead(m: Tag): (h: seq<Byte>)
    ensures 1 <= |h| <= 2 && h[0] == m % 256 && (|h| == 2 <==> m / 256 != 0) && (|h| == 2 ==> h[1] == m / 256)
  {
    [m % 256] + (if m / 256 != 0 then [m / 256] else [])
  }

  /** The bits or'ed in say the length: it fits in, is marked as longer and is read back, or it is 0 and the tag is
      that of an opening or closing. */
  predicate Carried(tag: Tag, len: Size) {
    var low := Or3(tag % 8, Short(len));
    Wide(tag) && (if low >= 6 then len == 0 else low == Short(len) && len != 254 && len != 255)
  }

  function LengthBytes(len: Size): seq<Byte> {
    if len < 5 then []
    else if len > 0xFFFF then [0xFF, len / 0x100_0000, len / 0x1_0000 % 256, len / 256 % 256, len % 256]
    else if len > 0xFF then [0xFE, len / 256, len % 256]
    else [len]
  }

  function Short16(hi: nat, lo: nat): (n: Size)
    requires hi < 256 && lo < 256
    ensures n < 0x1_0000
  {
    hi * 256 + lo
  }

  function Long32(a: nat, b: nat, c: nat, d: nat): Size
    requires a < 256 && b < 256 && c < 256 && d < 256
  {
    a * 0x100_0000 + b * 0x1_0000 + c * 256 + d
  }

  /** What r3_decode_tag makes of the bytes at a place: tag, length and the place after. NoTag where they run out. */
  datatype Decoded = Decoded(tag: Tag, len: Size, next: nat) | NoTag

  function DecodeTag(s: seq<Byte>, at: nat): Decoded {
    if at >= |s| then NoTag
    else
      var b := s[at];
      var long := b / 16 == 15;
      if long && at + 1 >= |s| then NoTag
      else
        var tag: Tag := if long then Short16(s[at + 1], b) else b;
        var i := if long then at + 2 else at + 1;
        if b / 2 % 4 == 3 then Decoded(tag, 0, i)
        else if b % 8 != 5 then Decoded(tag, b % 8, i)
        else
          var l := DecodeLength(s, i);
          if l.NoLength? then NoTag else Decoded(tag, l.len, l.next)
  }

  datatype Length = Length(len: Size, next: nat) | NoLength

  function DecodeLength(s: seq<Byte>, i: nat): Length {
    if i >= |s| then NoLength
    else if s[i] < 254 then Length(s[i], i + 1)
    else if s[i] == 254 then
      if i + 3 > |s| then NoLength else Length(Short16(s[i + 1], s[i + 2]), i + 3)
    else
      if i + 5 > |s| then NoLength
      else Length(Long32(s[i + 1], s[i + 2], s[i + 3], s[i + 4]), i + 5)
  }

  /** s holds t from place i on. */
  predicate HasAt(s: seq<Byte>, i: nat, t: seq<Byte>) {
    i + |t| <= |s| && forall k :: 0 <= k < |t| ==> s[i + k] == t[k]
  }

  lemma HasParts(s: seq<Byte>, i: nat, t: seq<Byte>, u: seq<Byte>)
    ensures HasAt(s, i, t + u) <==> HasAt(s, i, t) && HasAt(s, i + |t|, u)
  {
    var w := t + u;
    if HasAt(s, i, w) {
      forall k | 0 <= k < |t| ensures s[i + k] == t[k] { assert w[k] == t[k]; }
      forall k | 0 <= k < |u| ensures s[i + |t| + k] == u[k] { assert w[|t| + k] == u[k] && s[i + (|t| + k)] == u[k]; }
    }
    if HasAt(s, i, t) && HasAt(s, i + |t|, u) {
      forall k | 0 <= k < |w| ensures s[i + k] == w[k] {
        if k >= |t| { assert u[k - |t|] == w[k] && s[i + |t| + (k - |t|)] == u[k - |t|]; }
      }
    }
  }

  lemma FourBytes(len: Size)
    ensures Long32(len / 0x100_0000, len / 0x1_0000 % 256, len / 256 % 256, len % 256) == len
  {
    var q := len / 256;
    var r := q / 256;
    assert len / 0x1_0000 == r && len / 0x100_0000 == r / 256;
    assert len == 256 * q + len % 256 && q == 256 * r + q % 256 && r == 256 * (r / 256) + r % 256;
  }

  lemma TwoBytes(len: Size)
    requires len <= 0xFFFF
    ensures Short16(len / 256, len % 256) == len
  {}

  /** The number bytes spell, the most significant first. */
  function Number(s: seq<Byte>): nat {
    if s == [] then 0 else 256 * Number(s[..|s| - 1]) + s[|s| - 1]
  }

  /** The layout of the standard (clause 20.2.1.3.1): a length below 5 is in the three low bits, which are 5 for a
      longer one; this follows in one byte, in two behind 254 or in four behind 255, the most significant first. Only
      for 254 and 255 themselves does the standard ask for two bytes where this writes one. */
  lemma LengthLayout(tag: Tag, len: Size)
    requires Plain(tag)
    ensures TagBytes(tag, len)[0] == tag % 256 + (if len < 5 then len else 5)
    ensures var l := LengthBytes(len);
      if len < 5 then l == [] else if len < 0x100 then l == [len] else
      |l| == (if len < 0x1_0000 then 3 else 5) && l[0] == (if |l| == 3 then 254 else 255) && Number(l[1..]) == len
  {
    FirstByte(tag, len);
    LowByte(tag);
    hide Marked, Or3;
    if len > 0xFFFF {
      Spells(len / 0x100_0000, len / 0x1_0000 % 256, len / 256 % 256, len % 256);
      FourBytes(len);
      assert LengthBytes(len)[1..] == [len / 0x100_0000, len / 0x1_0000 % 256, len / 256 % 256, len % 256];
    } else if len > 0xFF {
      Pair(len / 256, len % 256);
      assert LengthBytes(len)[1..] == [len / 256, len % 256];
    }
  }

  lemma Pair(a: Byte, b: Byte)
    ensures Number([a, b]) == 256 * a + b
  {
    assert [a, b][..1] == [a] && [a][..0] == [] && Number([a]) == a;
  }

  lemma Spells(a: Byte, b: Byte, c: Byte, d: Byte)
    ensures Number([a, b, c, d]) == Long32(a, b, c, d)
  {
    Pair(a, b);
    assert [a, b, c, d][..3] == [a, b, c] && [a, b, c][..2] == [a, b];
  }

  lemma LengthRoundTrip(s: seq<Byte>, i: nat, len: Size)
    requires 5 <= len && HasAt(s, i, LengthBytes(len))
    ensures DecodeLength(s, i) == Length(len, i + |LengthBytes(len)|) <==> len != 254 && len != 255
  {
    hide Long32, Short16;
    var l := LengthBytes(len);
    assert s[i + 0] == l[0];
    if len > 0xFFFF {
      FourBytes(len);
      assert s[i + 1] == l[1] && s[i + 2] == l[2] && s[i + 3] == l[3] && s[i + 4] == l[4];
    } else if len > 0xFF {
      TwoBytes(len);
      assert s[i + 1] == l[1] && s[i + 2] == l[2];
    }
  }

  /** The bits of the first byte. */
  lemma FirstByte(tag: Tag, len: Size)
    ensures var m := Marked(tag, len); var b := m % 256; var low := Or3(tag % 8, Short(len));
      && b % 8 == low && (b / 2 % 4 == 3 <==> low >= 6) && m / 256 == tag / 256 && b / 16 == tag % 256 / 16
      && b / 8 == tag % 256 / 8 && b % 16 == tag % 256 / 8 % 2 * 8 + low
      && (Plain(tag) ==> low == Short(len) && low <= 5)
  {
    LowByte(tag);
    var q, low, h := tag % 256 / 8, Or3(tag % 8, Short(len)), tag / 256;
    assert Marked(tag, len) == 256 * h + (8 * q + low);
    hide Or3, Marked;
    Digits(h, 8 * q + low);
    Bits(q, low);
    Bits(q, tag % 8);
  }

  lemma LowByte(tag: Tag)
    ensures var q := tag % 256 / 8;
      q < 32 && tag % 256 == 8 * q + tag % 8 && tag == 256 * (tag / 256) + (8 * q + tag % 8)
  {
    assert tag % 8 == tag % 256 % 8;
  }

  lemma Digits(h: nat, b: nat)
    requires b < 256
    ensures (256 * h + b) % 256 == b && (256 * h + b) / 256 == h
  {}

  lemma Bits(q: nat, s: nat)
    requires q < 32 && s < 8
    ensures (8 * q + s) % 8 == s && ((8 * q + s) / 2 % 4 == 3 <==> s >= 6) && (8 * q + s) / 16 == q / 2
    ensures (8 * q + s) / 8 == q && (8 * q + s) % 16 == q % 2 * 8 + s
  {
    assert (8 * q + s) / 2 == 4 * q + s / 2;
  }

  /** r3_decode_tag inverts r3_encode_tag, up to the bits or'ed into the tag, exactly when the tag has a high byte if
      its nibble says so and the length is carried: 254 and 255 never are, since they are written as one byte, which
      the decoder takes for the mark of a longer form. */
  lemma TagRoundTripIff(s: seq<Byte>, at: nat, tag: Tag, len: Size)
    requires HasAt(s, at, TagBytes(tag, len))
    ensures DecodeTag(s, at) == Decoded(Marked(tag, len), len, at + |TagBytes(tag, len)|) <==> Carried(tag, len)
  {
    var m := Marked(tag, len);
    var head := TagHead(m);
    HasParts(s, at, head, LengthBytes(len));
    FirstByte(tag, len);
    assert s[at + 0] == head[0];
    if |head| > 1 { assert s[at + 1] == head[1]; }
    if len >= 5 {
      LengthRoundTrip(s, at + |head|, len);
      FirstLengthByte(s, at + |head|, len);
    }
    hide LengthBytes, Marked, HasAt, Or3, DecodeLength;
    if m / 256 == 0 && m % 256 / 16 == 15 {
      assert !Wide(tag);
      if DecodeTag(s, at).Decoded? { assert DecodeTag(s, at).next >= at + 2; }
    }
  }

  lemma FirstLengthByte(s: seq<Byte>, i: nat, len: Size)
    requires 5 <= len && HasAt(s, i, LengthBytes(len))
    ensures i < |s| && s[i] != 0
  {
    assert s[i + 0] == LengthBytes(len)[0];
  }

  /** For a tag of the documented form that is to say: exactly when the length is not 254 or 255. */
  lemma PlainRoundTripIff(tag: Tag, len: Size)
    requires Plain(tag)
    ensures Carried(tag, len) <==> len != 254 && len != 255
    ensures Marked(tag, len) == tag + Short(len)
  {}

  method EncodeLength(buf: array<Byte>, at: nat, len: Size) returns (next: nat)
    requires at + |LengthBytes(len)| <= buf.Length
    modifies buf
    ensures next == at + |LengthBytes(len)| && HasAt(buf[..], at, LengthBytes(len))
    ensures forall k :: 0 <= k < buf.Length && !(at <= k < next) ==> buf[k] == old(buf[k])
  {
    next := at;
    if len >= 5 {
      if len > 0xFFFF {
        buf[next] := 0xFF;
        buf[next + 1] := len / 0x100_0000;
        buf[next + 2] := len / 0x1_0000 % 256;
        buf[next + 3] := len / 256 % 256;
        next := next + 4;
      } else if len > 0xFF {
        buf[next] := 0xFE;
        buf[next + 1] := len / 256;
        next := next + 2;
      }
      buf[next] := len % 256;
      next := next + 1;
    }
  }

  /** r3_encode_tag: writes the bytes of the tag at a place and returns the place after. */
  method EncodeTag(buf: array<Byte>, at: nat, tag: Tag, len: Size) returns (next: nat)
    requires at + |TagBytes(tag, len)| <= buf.Length
    modifies buf
    ensures next == at + |TagBytes(tag, len)| && HasAt(buf[..], at, TagBytes(tag, len))
    ensures forall k :: 0 <= k < buf.Length && !(at <= k < next) ==> buf[k] == old(buf[k])
  {
    hide LengthBytes, Marked;
    var marked := Marked(tag, len);
    buf[at] := marked % 256;
    next := at + 1;
    if marked / 256 != 0 {
      buf[next] := marked / 256;
      next := next + 1;
    }
    assert HasAt(buf[..], at, TagHead(marked));
    hide TagHead;
    next := EncodeLength(buf, next, len);
    assert HasAt(buf[..], at, TagHead(marked));
    HasParts(buf[..], at, TagHead(marked), LengthBytes(len));
  }

  // ----- elements

  datatype Element =
    // anything with contents: a tag that is not the boolean one
    | Primitive(tag: Tag, contents: seq<Byte>)
    // an application boolean has its value where others have their length
    | Boolean(value: nat)
    // opening tag, elements, closing tag, without the class bit; the high nibble 15 brings a second byte
    | Constructed(high: nat, more: Byte, children: Elements)
    // the same with the class bit: what the standard and the encoders of the repository write. Identifiers from 15
    // on have a second byte in the standard (`wide`) and none as r3_encode_constructed writes them
    | Context(id: Byte, wide: bool, children: Elements)

  datatype Elements = Nil | Cons(head: Element, tail: Elements)

  predicate Legal(e: Element) {
    match e
    case Primitive(tag, contents) => Plain(tag) && tag != 0x10 && |contents| < 0x1_0000_0000
    case Boolean(value) => value < 6
    case Constructed(high, _, children) => high < 16 && LegalAll(children)
    case Context(id, wide, children) => (wide ==> id >= 15) && LegalAll(children)
  }

  predicate LegalAll(es: Elements) { es.Nil? || (Legal(es.head) && LegalAll(es.tail)) }

  function Open(high: nat, more: Byte): seq<Byte>
    requires high < 16
  {
    [16 * high + 6] + (if high == 15 then [more] else [])
  }

  function Close(high: nat, more: Byte): seq<Byte>
    requires high < 16
  {
    [16 * high + 7] + (if high == 15 then [more] else [])
  }

  /** The context tag with identifier id and the bits of an opening (6) or closing (7). */
  function ContextTag(id: Byte, wide: bool, bits: nat): (t: seq<Byte>)
    requires bits < 8
    ensures |t| == if wide then 2 else 1
  {
    [16 * (if id < 15 then id else 15) + 8 + bits] + (if wide then [id] else [])
  }

  function Bytes(e: Element): seq<Byte>
    requires Legal(e)
  {
    match e
    case Primitive(tag, contents) => TagBytes(tag, |contents|) + contents
    case Boolean(value) => [0x10 + value]
    case Constructed(high, more, children) => Open(high, more) + (AllBytes(children) + Close(high, more))
    case Context(id, wide, children) =>
      ContextTag(id, wide, 6) + (AllBytes(children) + ContextTag(id, wide, 7))
  }

  function AllBytes(es: Elements): seq<Byte>
    requires LegalAll(es)
  {
    if es.Nil? then [] else Bytes(es.head) + AllBytes(es.tail)
  }

  /** No element begins like a closing tag, and only those without the class bit like an opening one. */
  lemma NotClosing(e: Element)
    requires Legal(e)
    ensures Bytes(e) != [] && Bytes(e)[0] % 16 != 7
    ensures Bytes(e)[0] % 16 == 6 <==> e.Constructed?
  {
    match e {
      case Primitive(tag, contents) => FirstNibble(tag, |contents|);
      case Boolean(_) =>
      case Constructed(high, more, _) => assert Bytes(e)[0] == Open(high, more)[0];
      case Context(id, wide, _) => assert Bytes(e)[0] == ContextTag(id, wide, 6)[0];
    }
  }

  lemma FirstNibble(tag: Tag, len: Size)
    requires Plain(tag)
    ensures TagBytes(tag, len)[0] % 16 != 6 && TagBytes(tag, len)[0] % 16 != 7
  {
    FirstByte(tag, len);
    hide Marked, LengthBytes, Or3;
  }

  // ----- skipping (r3_asn.c:92-126)

  /** Where r3_asn_next gets: past something, outside the bytes, or nowhere, turning round in its loop for ever. */
  datatype Outcome = Past(next: nat) | Overrun | Endless

  /** From the first byte of anything that is not taken for an opening or closing tag. */
  function SkipContents(s: seq<Byte>, at: nat): Outcome
    requires at < |s|
  {
    var b := s[at];
    if b / 8 == 2 then Past(at + 1)
    else if b / 16 == 15 && at + 1 >= |s| then Overrun
    else
      var i := if b / 16 == 15 then at + 2 else at + 1;
      if b % 8 == 5 then
        var l := DecodeLength(s, i);
        if l.NoLength? then Overrun else Past(l.next + l.len)
      else Past(i + b % 8)
  }

  function Room(s: seq<Byte>, at: nat): nat { if at < |s| then |s| - at else 0 }

  /** r3_asn_next, on any bytes. */
  function Skip(s: seq<Byte>, at: nat): Outcome
    decreases Room(s, at), 0
  {
    if at >= |s| then Overrun
    else if s[at] % 16 == 7 then Past(at)
    else if s[at] % 16 == 6 then SkipTo(s, if s[at] / 16 == 15 then at + 2 else at + 1, s[at] + 1)
    else SkipContents(s, at)
  }

  /** Its loop: one element after the other up to the closing byte. */
  function SkipTo(s: seq<Byte>, i: nat, close: Byte): Outcome
    decreases Room(s, i), 1
  {
    if i >= |s| then Overrun
    else if s[i] == close then Past(if close / 16 == 15 then i + 2 else i + 1)
    else
      match Skip(s, i)
      case Past(j) => if j <= i then Endless else SkipTo(s, j, close)
      case o => o
  }

  /** r3_asn_next, on any bytes from which it comes back. */
  method Next(s: seq<Byte>, at: nat) returns (next: nat)
    requires Skip(s, at).Past?
    ensures Skip(s, at) == Past(next)
    decreases Room(s, at)
  {
    if s[at] % 16 == 7 {
      next := at;
    } else if s[at] % 16 == 6 {
      var tag := s[at];
      next := at + 1;
      if tag / 16 == 15 { next := next + 1; }
      while s[next] != tag + 1
        invariant SkipTo(s, next, tag + 1) == Skip(s, at) && at < next < |s|
        decreases Room(s, next)
      {
        next := Next(s, next);
      }
      next := next + 1;
      if (tag + 1) / 16 == 15 { next := next + 1; }
    } else {
      next := PastContents(s, at);
    }
  }

  /** The last branch of r3_asn_next. */
  method PastContents(s: seq<Byte>, at: nat) returns (next: nat)
    requires at < |s| && SkipContents(s, at).Past?
    ensures SkipContents(s, at) == Past(next)
  {
    hide DecodeLength;
    var tag := s[at];
    var length: Size := tag % 8;
    next := at + 1;
    if tag / 8 != 2 {
      if tag / 16 == 15 { next := next + 1; }
      if length == 5 { length, next := ReadLength(s, next); }
      next := next + length;
    }
  }

  /** The length behind a tag that does not hold it (r3_asn.c:112-120). */
  method ReadLength(s: seq<Byte>, i: nat) returns (len: Size, next: nat)
    requires DecodeLength(s, i).Length?
    ensures DecodeLength(s, i) == Length(len, next)
  {
    hide Short16, Long32;
    len := s[i];
    next := i + 1;
    if len == 0xFE {
      len := Short16(s[next], s[next + 1]);
      next := next + 2;
    } else if len > 0xFE {
      len := Long32(s[next], s[next + 1], s[next + 2], s[next + 3]);
      next := next + 4;
    }
  }

  /** Lengths that are written as one byte and read as the mark of more: right only if the contents begin with
      just the bytes that make up for it. */
  predicate LuckyLength(contents: seq<Byte>) {
    && (|contents| == 254 ==> Short16(contents[0], contents[1]) == 252)
    && (|contents| == 255 ==> Long32(contents[0], contents[1], contents[2], contents[3]) == 251)
  }

  lemma LuckyLengthIff(s: seq<Byte>, i: nat, contents: seq<Byte>)
    requires 5 <= |contents| < 0x1_0000_0000 && HasAt(s, i, LengthBytes(|contents|) + contents)
    ensures var l := DecodeLength(s, i);
      l.Length? && (l.next + l.len == i + |LengthBytes(|contents|)| + |contents| <==> LuckyLength(contents))
  {
    var len := |contents|;
    HasParts(s, i, LengthBytes(len), contents);
    LengthRoundTrip(s, i, len);
    if len == 254 || len == 255 {
      assert LengthBytes(len) == [len];
      assert s[i + 0] == LengthBytes(len)[0];
      assert s[i + 1 + 0] == contents[0] && s[i + 1 + 1] == contents[1];
      assert s[i + 1 + 2] == contents[2] && s[i + 1 + 3] == contents[3];
    }
  }

  lemma PrimitiveSkipIff(s: seq<Byte>, at: nat, tag: Tag, contents: seq<Byte>)
    requires Plain(tag) && tag != 0x10 && |contents| < 0x1_0000_0000
    requires HasAt(s, at, TagBytes(tag, |contents|) + contents)
    ensures at < |s|
    ensures Skip(s, at) == Past(at + |TagBytes(tag, |contents|)| + |contents|) <==> LuckyLength(contents)
  {
    var len := |contents|;
    var m := Marked(tag, len);
    var head := TagHead(m);
    assert TagBytes(tag, len) + contents == head + (LengthBytes(len) + contents);
    HasParts(s, at, head, LengthBytes(len) + contents);
    FirstByte(tag, len);
    assert s[at + 0] == head[0];
    if len >= 5 { LuckyLengthIff(s, at + |head|, contents); }
    hide HasAt, DecodeLength, LengthBytes;
  }

  /** How much lies between the tags of a context element that the code skips rightly. */
  function LuckySize(id: Byte, wide: bool): nat { if id < 15 then 5 else if wide then 4 else 6 }

  /** A context tag has 8 in its low nibble, so an opening one has 14: the code takes it for a tag with six bytes of
      contents, and skips the element, whatever is in it, exactly if that happens to end where the element does. */
  lemma ContextSkipIff(s: seq<Byte>, at: nat, id: Byte, wide: bool, contents: seq<Byte>)
    requires (wide ==> id >= 15) && HasAt(s, at, ContextTag(id, wide, 6) + (contents + ContextTag(id, wide, 7)))
    ensures at < |s|
    ensures Skip(s, at) == Past(at + 2 * |ContextTag(id, wide, 6)| + |contents|) <==> |contents| == LuckySize(id, wide)
  {
    var all := ContextTag(id, wide, 6) + (contents + ContextTag(id, wide, 7));
    assert s[at + 0] == all[0];
  }

  /** Nothing in the element throws the code off. */
  predicate Sound(e: Element)
    requires Legal(e)
  {
    match e
    case Primitive(_, contents) => LuckyLength(contents)
    case Boolean(_) => true
    case Constructed(_, _, children) => SoundAll(children)
    case Context(id, wide, children) => |AllBytes(children)| == LuckySize(id, wide)
  }

  predicate SoundAll(es: Elements)
    requires LegalAll(es)
  {
    es.Nil? || (Sound(es.head) && SoundAll(es.tail))
  }

  /** Elements as the encoders write them, at any depth: skipped rightly exactly when they are sound. */
  lemma SkipIff(s: seq<Byte>, at: nat, e: Element)
    requires Legal(e) && HasAt(s, at, Bytes(e)) && !e.Constructed?
    ensures Skip(s, at) == Past(at + |Bytes(e)|) <==> Sound(e)
  {
    match e {
      case Primitive(tag, contents) => PrimitiveSkipIff(s, at, tag, contents);
      case Boolean(value) => assert s[at + 0] == Bytes(e)[0];
      case Context(id, wide, children) => ContextSkipIff(s, at, id, wide, AllBytes(children));
    }
  }

  /** And with elements that have no class bit around and between them: the skip of a sound element ends right
      behind it, at any depth. */
  lemma OpenAt(s: seq<Byte>, at: nat, e: Element)
    requires Legal(e) && e.Constructed? && HasAt(s, at, Bytes(e))
    ensures var open, close := Open(e.high, e.more), Close(e.high, e.more);
      && HasAt(s, at + |open|, AllBytes(e.children) + close)
      && |Bytes(e)| == |open| + |AllBytes(e.children)| + |close|
      && Skip(s, at) == SkipTo(s, at + |open|, 16 * e.high + 7)
  {
    var all := AllBytes(e.children) + Close(e.high, e.more);
    HasParts(s, at, Open(e.high, e.more), all);
    assert s[at + 0] == Bytes(e)[0];
  }

  lemma {:induction false} SoundIsSkipped(s: seq<Byte>, at: nat, e: Element)
    requires Legal(e) && HasAt(s, at, Bytes(e)) && Sound(e)
    ensures Skip(s, at) == Past(at + |Bytes(e)|)
    decreases e
  {
    if e.Constructed? {
      OpenAt(s, at, e);
      hide Bytes, AllBytes, Skip, SkipTo, Open, Close, HasAt;
      SoundAreSkipped(s, at + |Open(e.high, e.more)|, e.high, e.more, e.children);
    } else {
      SkipIff(s, at, e);
    }
  }

  // One turn of the loop, and its end.
  lemma SkipToTurn(s: seq<Byte>, i: nat, close: Byte, j: nat)
    requires i < |s| && s[i] != close && Skip(s, i) == Past(j)
    ensures SkipTo(s, i, close) == if j <= i then Endless else SkipTo(s, j, close)
  {}

  lemma SkipToEnd(s: seq<Byte>, i: nat, close: Byte)
    requires i < |s| && s[i] == close
    ensures SkipTo(s, i, close) == Past(if close / 16 == 15 then i + 2 else i + 1)
  {}

  /** What the first of several elements contributes. */
  lemma FirstOfAll(s: seq<Byte>, i: nat, high: nat, more: Byte, es: Elements)
    requires high < 16 && LegalAll(es) && es.Cons? && HasAt(s, i, AllBytes(es) + Close(high, more))
    ensures HasAt(s, i, Bytes(es.head)) && HasAt(s, i + |Bytes(es.head)|, AllBytes(es.tail) + Close(high, more))
    ensures |AllBytes(es)| == |Bytes(es.head)| + |AllBytes(es.tail)| && |Bytes(es.head)| > 0
    ensures i < |s| && s[i] % 16 != 7
  {
    var first, rest, close := Bytes(es.head), AllBytes(es.tail), Close(high, more);
    assert (first + rest) + close == first + (rest + close);
    HasParts(s, i, first, rest + close);
    NotClosing(es.head);
    assert s[i + 0] == first[0];
  }

  lemma NoneOfAll(s: seq<Byte>, i: nat, high: nat, more: Byte, es: Elements)
    requires high < 16 && es.Nil? && HasAt(s, i, AllBytes(es) + Close(high, more))
    ensures AllBytes(es) == [] && i < |s| && s[i] == 16 * high + 7
    ensures |Close(high, more)| == if (16 * high + 7) / 16 == 15 then 2 else 1
  {
    assert s[i + 0] == (AllBytes(es) + Close(high, more))[0];
  }

  lemma {:induction false} SoundAreSkipped(s: seq<Byte>, i: nat, high: nat, more: Byte, es: Elements)
    requires high < 16 && LegalAll(es) && SoundAll(es) && HasAt(s, i, AllBytes(es) + Close(high, more))
    ensures SkipTo(s, i, 16 * high + 7) == Past(i + |AllBytes(es)| + |Close(high, more)|)
    decreases es
  {
    hide Bytes, AllBytes, Skip, SkipTo, Close, HasAt, Legal, Sound;
    if es.Nil? {
      NoneOfAll(s, i, high, more, es);
      SkipToEnd(s, i, 16 * high + 7);
    } else {
      FirstOfAll(s, i, high, more, es);
      var n := |Bytes(es.head)|;
      SoundIsSkipped(s, i, es.head);
      SkipToTurn(s, i, 16 * high + 7, i + n);
      SoundAreSkipped(s, i + n, high, more, es.tail);
    }
  }

  // ----- inputs that go wrong

  /** A list in a list, both with context tags: the skip ends one byte behind the element. */
  lemma NestedContextFails()
    ensures var e := Context(2, false, Cons(Context(1, false, Cons(Primitive(0x08, [5]), Nil)), Nil));
      Legal(e) && Bytes(e) == [0x2E, 0x1E, 0x09, 5, 0x1F, 0x2F] && Skip(Bytes(e), 0) == Past(7)
  {
    var inner := Context(1, false, Cons(Primitive(0x08, [5]), Nil));
    assert Bytes(Primitive(0x08, [5])) == [0x09, 5];
    assert AllBytes(inner.children) == [0x09, 5];
    assert Bytes(inner) == [0x1E, 0x09, 5, 0x1F];
    assert AllBytes(Cons(inner, Nil)) == Bytes(inner);
  }

  /** Opening tag of element 2, of context element 1, of element 3, four bytes of contents, and the closing tags. */
  function EndlessElement(): Element {
    var inner := Constructed(3, 0, Cons(Primitive(0x20, [1, 2, 3, 4]), Nil));
    Constructed(2, 0, Cons(Context(1, false, Cons(inner, Nil)), Nil))
  }

  const ENDLESS: seq<Byte> := [0x26, 0x1E, 0x36, 0x24, 1, 2, 3, 4, 0x37, 0x1F, 0x27]

  lemma EndlessBytes()
    ensures Legal(EndlessElement()) && Bytes(EndlessElement()) == ENDLESS
  {
    var p := Primitive(0x20, [1, 2, 3, 4]);
    assert Bytes(p) == [0x24, 1, 2, 3, 4];
    hide TagBytes;
    var inner := Constructed(3, 0, Cons(p, Nil));
    assert AllBytes(inner.children) == Bytes(p);
    assert Bytes(inner) == [0x36, 0x24, 1, 2, 3, 4, 0x37];
    var context := Context(1, false, Cons(inner, Nil));
    assert AllBytes(context.children) == Bytes(inner);
    assert Bytes(context) == [0x1E, 0x36, 0x24, 1, 2, 3, 4, 0x37, 0x1F];
    assert AllBytes(Cons(context, Nil)) == Bytes(context);
  }

  /** A legal element on which r3_asn_next never comes back: the six bytes end at a closing tag of another element,
      which it does not move past. */
  lemma SkipCanBeEndless()
    ensures Legal(EndlessElement()) && Skip(Bytes(EndlessElement()), 0) == Endless
  {
    EndlessBytes();
    hide EndlessElement, Bytes, Legal;
    EndlessSteps();
    hide SkipTo;
    SkipToTurn(ENDLESS, 1, 0x27, 8);
    SkipToTurn(ENDLESS, 8, 0x27, 8);
  }

  lemma EndlessSteps()
    ensures Skip(ENDLESS, 1) == Past(8) && Skip(ENDLESS, 8) == Past(8)
  {
    hide SkipTo, DecodeLength;
    SixContents(ENDLESS, 1);
    assert ENDLESS[8] == 0x37;
  }

  /** The first byte of a context element with a short identifier. */
  lemma SixContents(s: seq<Byte>, at: nat)
    requires at < |s| && s[at] == 0x1E
    ensures Skip(s, at) == Past(at + 7)
  {}

  const LUCKY: seq<Byte> := [0x26, 0x1E, 0x23, 1, 2, 3, 0x1F, 0x11, 0x27]

  lemma LuckySteps()
    ensures Skip(LUCKY, 1) == Past(8)
  {
    hide SkipTo, DecodeLength, Skip;
    SixContents(LUCKY, 1);
  }

  function LuckyElement(): Element {
    Constructed(2, 0, Cons(Context(1, false, Cons(Primitive(0x20, [1, 2, 3]), Nil)), Cons(Boolean(1), Nil)))
  }

  lemma LuckyBytes()
    ensures Legal(LuckyElement()) && !Sound(LuckyElement()) && Bytes(LuckyElement()) == LUCKY
  {
    var p := Primitive(0x20, [1, 2, 3]);
    assert Bytes(p) == [0x23, 1, 2, 3];
    hide TagBytes;
    var context := Context(1, false, Cons(p, Nil));
    assert AllBytes(context.children) == Bytes(p);
    assert Bytes(context) == [0x1E, 0x23, 1, 2, 3, 0x1F];
    assert AllBytes(Cons(Boolean(1), Nil)) == [0x11];
  }

  /** Around elements without the class bit soundness is more than is needed: here the six bytes end behind the
      next element, and the walk is back in step. */
  lemma SkipCanBeLucky()
    ensures Legal(LuckyElement()) && !Sound(LuckyElement())
    ensures Skip(Bytes(LuckyElement()), 0) == Past(|Bytes(LuckyElement())|)
  {
    LuckyBytes();
    hide LuckyElement, Bytes, Legal, Sound;
    LuckySteps();
    hide SkipTo;
    SkipToTurn(LUCKY, 1, 0x27, 8);
    SkipToEnd(LUCKY, 8, 0x27);
  }

  /** A length of 254 comes back as one of 0, with the first two bytes of the contents gone. */
  lemma LengthMisses()
    ensures TagBytes(0x60, 254) == [0x65, 254]
    ensures DecodeTag(TagBytes(0x60, 254) + [0, 0], 0) == Decoded(0x65, 0, 4)
  {
    var s: seq<Byte> := [0x65, 254, 0, 0];
    assert LengthBytes(254) == [254] && Marked(0x60, 254) == 0x65;
    assert TagBytes(0x60, 254) + [0, 0] == s;
    hide TagBytes;
    assert DecodeLength(s, 1) == Length(0, 4);
    hide DecodeLength;
  }

  /** r3_decode_tag on the opening tag of a context element: right exactly when the identifier fits the nibble or its
      second byte is there. */
  lemma ContextTagIff(s: seq<Byte>, at: nat, id: Byte, wide: bool)
    requires (wide ==> id >= 15) && HasAt(s, at, ContextTag(id, wide, 6))
    ensures var tag := if id < 15 then 16 * id + 14 else 256 * id + 254;
      DecodeTag(s, at) == Decoded(tag, 0, at + |ContextTag(id, wide, 6)|) <==> id < 15 || wide
  {
    assert s[at + 0] == ContextTag(id, wide, 6)[0];
    if wide { assert s[at + 1] == ContextTag(id, wide, 6)[1]; }
  }
}
