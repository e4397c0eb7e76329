/** lzjb2.c: decompression of the RFS stream format.

    A stream is a sequence of tokens. Each token starts with one or two flag bits and carries data bytes.
    Flag bits are collected eight to a byte, and a flag byte stands in the stream exactly where the decoder
    first needs a bit from it, which may be between the two flags of one token.
 */
module Lzjb2 {
  import opened Bits

  type Byte = x: int | 0 <= x < 256

  // LZ1_DEPTH, LZ2_DEPTH and LZ1_LEN_EXT
  const DEPTH1: nat := 2048
  const DEPTH2: nat := 64
  const LEN_EXT: nat := 34

  /** Short: 6-bit offset, 2-bit length. Long: 11-bit offset, 5-bit length with an optional extension byte. */
  datatype Token =
    | Literal(x: Byte)
    | Short(offset: nat, len: nat)
    | Long(offset: nat, len: nat)

  datatype Item = Flag(b: bool) | Data(x: Byte)

  // ----- what a stream means

  /** Copies `len` bytes from `offset` back, one at a time: the source may run into what is being written. */
  function Copied(out: seq<Byte>, offset: nat, len: nat): (r: seq<Byte>)
    requires 1 <= offset <= |out|
    ensures |r| == |out| + len && out <= r
    ensures forall i :: |out| <= i < |r| ==> r[i] == r[i - offset]
    decreases len
  {
    if len == 0 then out else Copied(out + [out[|out| - offset]], offset, len - 1)
  }

  predicate Fits(t: Token, out: nat) {
    match t
    case Literal(_) => true
    case Short(offset, len) => 1 <= offset <= DEPTH2 && 2 <= len <= 5 && offset <= out
    case Long(offset, len) => 1 <= offset <= DEPTH1 && 3 <= len <= LEN_EXT + 255 && offset <= out
  }

  function Size(t: Token): nat {
    if t.Literal? then 1 else t.len
  }

  /** Every match reaches back no further than the output produced before it. */
  predicate Valid(ts: seq<Token>, out: nat) {
    ts == [] || (Fits(ts[0], out) && Valid(ts[1..], out + Size(ts[0])))
  }

  function Apply(t: Token, out: seq<Byte>): (r: seq<Byte>)
    requires Fits(t, |out|)
    ensures |r| == |out| + Size(t)
  {
    match t
    case Literal(x) => out + [x]
    case Short(offset, len) => Copied(out, offset, len)
    case Long(offset, len) => Copied(out, offset, len)
  }

  /** The LZ77 expansion of the tokens after the output `out`. */
  function Expand(ts: seq<Token>, out: seq<Byte>): (r: seq<Byte>)
    requires Valid(ts, |out|)
    ensures |r| >= |out|
    decreases |ts|
  {
    if ts == [] then out else Expand(ts[1..], Apply(ts[0], out))
  }

  // ----- how a stream is laid out

  function LowByte(w: nat): Byte { w % 256 }

  function HighByte(w: nat): Byte
    requires w < 65536
  {
    w / 256
  }

  function LongWord(offset: nat, len: nat): (w: nat)
    requires 1 <= offset <= DEPTH1 && 3 <= len
    ensures w < 65536
  {
    ((if len < LEN_EXT then len else LEN_EXT) - 3) * DEPTH1 + (offset - 1)
  }

  function TokenItems(t: Token): seq<Item>
    requires Fits(t, if t.Literal? then 0 else t.offset)
  {
    match t
    case Literal(x) => [Flag(false), Data(x)]
    case Short(offset, len) => [Flag(true), Flag(true), Data((len - 2) * DEPTH2 + (offset - 1))]
    case Long(offset, len) =>
      var w := LongWord(offset, len);
      [Flag(true), Flag(false), Data(LowByte(w)), Data(HighByte(w))] +
      (if len >= LEN_EXT then [Data(len - LEN_EXT)] else [])
  }

  function Items(ts: seq<Token>, out: nat): seq<Item>
    requires Valid(ts, out)
    decreases |ts|
  {
    if ts == [] then [] else TokenItems(ts[0]) + Items(ts[1..], out + Size(ts[0]))
  }

  /** Bit `k` of a byte, bit 0 lowest. */
  predicate BitAt(m: nat, k: nat) {
    if k == 0 then m % 2 == 1 else BitAt(m / 2, k - 1)
  }

  function Flags(s: seq<Item>): seq<bool> {
    if s == [] then [] else if s[0].Flag? then [s[0].b] + Flags(s[1..]) else Flags(s[1..])
  }

  /** From bit `k` on, the flag byte `m` holds the next flags; bits after the last flag may be anything. */
  ghost predicate Agrees(m: nat, k: nat, flags: seq<bool>) {
    forall j :: 0 <= j < |flags| && k + j < 8 ==> BitAt(m, k + j) == flags[j]
  }

  /** `bytes` is a layout of the items, when the first `used` bits of the current flag byte are used up. */
  ghost predicate Encodes(bytes: seq<Byte>, s: seq<Item>, used: nat)
    requires used <= 8
    decreases |s|
  {
    if s == [] then bytes == []
    else if s[0].Data? then bytes != [] && bytes[0] == s[0].x && Encodes(bytes[1..], s[1..], used)
    else if used == 8 then bytes != [] && Agrees(bytes[0], 0, Flags(s)) && Encodes(bytes[1..], s[1..], 1)
    else Encodes(bytes, s[1..], used + 1)
  }

  // ----- the format in its bytes

  // A short match is one byte, its offset less one in six bits and its length less two in two. A long match is two
  // bytes, low byte first, its offset less one in eleven bits and its length less three in five; if these are all ones
  // a third byte says how much longer than 34 it is.

  function ShortOf(b: Byte): Token { Short(b % 64 + 1, b / 64 + 2) }

  function LongOf(lo: Byte, hi: Byte, ext: Byte): Token {
    Long((lo + 256 * hi) % 2048 + 1, if hi / 8 < 31 then hi / 8 + 3 else 34 + ext)
  }

  /** Every byte is a short match, laid out as this byte. */
  lemma ShortBytes(b: Byte)
    ensures var t := ShortOf(b); Fits(t, t.offset) && TokenItems(t) == [Flag(true), Flag(true), Data(b)]
  {}

  /** Every two or three bytes are a long match, and the third is there exactly when the five bits are all ones. */
  lemma LongBytes(lo: Byte, hi: Byte, ext: Byte)
    ensures var t := LongOf(lo, hi, ext);
      && Fits(t, t.offset)
      && TokenItems(t) == [Flag(true), Flag(false), Data(lo), Data(hi)] + (if hi / 8 == 31 then [Data(ext)] else [])
  {
    var w := lo + 256 * hi;
    assert w / 2048 == hi / 8 && w % 256 == lo && w / 256 == hi;
  }

  /** The matches that fit are those of some bytes which reach back no further than the output. */
  lemma FitsIff(t: Token, out: nat)
    ensures t.Short? ==> (Fits(t, out) <==> t.offset <= out && exists b: Byte :: ShortOf(b) == t)
    ensures t.Long? ==>
      (Fits(t, out) <==> t.offset <= out && exists lo: Byte, hi: Byte, ext: Byte :: LongOf(lo, hi, ext) == t)
  {
    if t.Short? && Fits(t, out) { assert ShortOf((t.len - 2) * 64 + (t.offset - 1)) == t; }
    if t.Long? && Fits(t, out) {
      var d, n := t.offset - 1, if t.len < 34 then t.len - 3 else 31;
      LongOfParts(d, n, if t.len < 34 then 0 else t.len - 34);
    }
  }

  lemma LongOfParts(d: nat, n: nat, ext: Byte)
    requires d < 2048 && n < 32
    ensures LongOf(d % 256, 8 * n + d / 256, ext) == Long(d + 1, if n < 31 then n + 3 else 34 + ext)
  {
    assert (8 * n + d / 256) / 8 == n && d % 256 + 256 * (8 * n + d / 256) == 2048 * n + d;
  }

  // ----- the decoder

  /** The decoder stands in front of the items `s`: at byte `pos` of the stream, with `bitOffset` bits of the
      flag byte `copyMap` used up. */
  ghost predicate At(src: array<Byte>, pos: nat, end: nat, bitOffset: nat, copyMap: nat, s: seq<Item>)
    reads src
  {
    && pos <= end <= src.Length && bitOffset <= 8
    && Encodes(src[pos..end], s, bitOffset)
    && Agrees(copyMap, bitOffset, Flags(s))
  }

  /** stream_bit_test: the next flag, fetching a flag byte if the current one is used up. */
  method StreamBitTest(src: array<Byte>, pos: nat, bitOffset: nat, copyMap: nat, ghost end: nat, ghost s: seq<Item>)
      returns (bit: bool, pos': nat, bitOffset': nat, copyMap': nat)
    requires At(src, pos, end, bitOffset, copyMap, s) && s != [] && s[0].Flag?
    ensures bit == s[0].b
    ensures At(src, pos', end, bitOffset', copyMap', s[1..])
  {
    pos', bitOffset', copyMap' := pos, bitOffset, copyMap;
    if bitOffset' == 8 {
      bitOffset' := bitOffset' - 8;
      copyMap' := src[pos'];
      pos' := pos' + 1;
      assert src[pos..end][1..] == src[pos'..end];
    }
    assert Agrees(copyMap', bitOffset', Flags(s));
    bit := BitAt(copyMap', bitOffset');
    assert Flags(s) == [s[0].b] + Flags(s[1..]);
    assert bit == Flags(s)[0];
    ghost var k := bitOffset';
    bitOffset' := bitOffset' + 1;
    forall j | 0 <= j < |Flags(s[1..])| && bitOffset' + j < 8
      ensures BitAt(copyMap', bitOffset' + j) == Flags(s[1..])[j]
    {
      assert BitAt(copyMap', k + (j + 1)) == Flags(s)[j + 1];
    }
  }

  /** The data item the decoder stands in front of is the next byte of the stream. */
  lemma Advance(src: array<Byte>, pos: nat, end: nat, bitOffset: nat, copyMap: nat, s: seq<Item>)
    requires At(src, pos, end, bitOffset, copyMap, s) && s != [] && s[0].Data?
    ensures pos < end && src[pos] == s[0].x && At(src, pos + 1, end, bitOffset, copyMap, s[1..])
  {
    assert src[pos..end][1..] == src[pos + 1..end];
  }

  /** _memmove_x64: a forward byte copy. */
  method MemMove(dst: array<Byte>, to: nat, from: nat, mlen: nat)
    requires from < to && to + mlen <= dst.Length
    modifies dst
    ensures dst[..to + mlen] == Copied(old(dst[..to]), to - from, mlen)
    ensures dst[to + mlen..] == old(dst[to + mlen..])
  {
    ghost var before := dst[..to];
    ghost var want := Copied(before, to - from, mlen);
    var i := 0;
    while i < mlen
      invariant 0 <= i <= mlen
      invariant dst[..to + i] == want[..to + i]
      invariant dst[to + mlen..] == old(dst[to + mlen..])
    {
      assert dst[from + i] == want[from + i] by { assert dst[..to + i][from + i] == want[..to + i][from + i]; }
      dst[to + i] := dst[from + i];
      assert dst[..to + i + 1] == dst[..to + i] + [dst[to + i]];
      i := i + 1;
    }
    assert want[..to + mlen] == want;
  }

  lemma TokensStartWithFlags(ts: seq<Token>, out: nat)
    requires Valid(ts, out) && ts != []
    ensures var s := Items(ts, out); |s| >= 2 && s[0].Flag? && s[0].b == !ts[0].Literal?
    ensures var s := Items(ts, out); ts[0].Literal? ==> s[1] == Data(ts[0].x) && s[2..] == Items(ts[1..], out + 1)
    ensures var s := Items(ts, out); !ts[0].Literal? ==>
      |s| >= 3 && s[1] == Flag(ts[0].Short?) && s[2].Data?
  {}

  lemma {:induction false} NoBytesNoData(s: seq<Item>, used: nat, i: nat)
    requires used <= 8 && i < |s| && s[i].Data?
    ensures !Encodes([], s, used)
    decreases |s|
  {
    if i > 0 && used < 8 && s[0].Flag? {
      NoBytesNoData(s[1..], used + 1, i - 1);
    }
  }

  /** A layout with bytes left has tokens left, and one without has none. */
  lemma EmptyMeansDone(bytes: seq<Byte>, ts: seq<Token>, out: nat, used: nat)
    requires used <= 8 && Valid(ts, out) && Encodes(bytes, Items(ts, out), used)
    ensures bytes == [] <==> ts == []
  {
    var s := Items(ts, out);
    if ts != [] {
      TokensStartWithFlags(ts, out);
      NoBytesNoData(s, used, if ts[0].Literal? then 1 else 2);
    }
  }

  lemma ShortItems(ts: seq<Token>, out: nat)
    requires Valid(ts, out) && ts != [] && ts[0].Short?
    ensures var s := Items(ts, out); var t := ts[0];
      && s[2] == Data((t.len - 2) * DEPTH2 + (t.offset - 1))
      && s[3..] == Items(ts[1..], out + t.len)
      && s[2].x % 64 + 1 == t.offset && s[2].x / 64 + 2 == t.len
  {}

  lemma WordParts(offset: nat, len: nat)
    requires 1 <= offset <= DEPTH1 && 3 <= len
    ensures var w := LongWord(offset, len);
      && LowByte(w) + 256 * HighByte(w) == w
      && w % 2048 + 1 == offset && w / 2048 + 3 == if len < LEN_EXT then len else LEN_EXT
  {}

  lemma LongItems(ts: seq<Token>, out: nat)
    requires Valid(ts, out) && ts != [] && ts[0].Long?
    ensures var s := Items(ts, out); var t := ts[0]; var w := LongWord(t.offset, t.len);
      && |s| >= 4 && s[2] == Data(LowByte(w)) && s[3] == Data(HighByte(w))
      && s[2].x + 256 * s[3].x == w
      && w % 2048 + 1 == t.offset
      && w / 2048 + 3 == (if t.len < LEN_EXT then t.len else LEN_EXT)
      && (t.len < LEN_EXT ==> s[4..] == Items(ts[1..], out + t.len))
      && (t.len >= LEN_EXT ==> |s| >= 5 && s[4] == Data(t.len - LEN_EXT) && s[5..] == Items(ts[1..], out + t.len))
  {
    var t := ts[0];
    WordParts(t.offset, t.len);
    hide LongWord, LowByte, HighByte;
    var rest := Items(ts[1..], out + t.len);
    assert Items(ts, out) == TokenItems(t) + rest;
  }

  /** Length and offset of a short match (lzjb2.c:67-69). */
  method ReadShort(src: array<Byte>, pos: nat, bitOffset: nat, copyMap: nat,
      ghost end: nat, ghost ts: seq<Token>, ghost out: nat)
      returns (offset: nat, mlen: nat, pos': nat)
    requires Valid(ts, out) && ts != [] && ts[0].Short?
    requires |Items(ts, out)| >= 2 && At(src, pos, end, bitOffset, copyMap, Items(ts, out)[2..])
    ensures offset == ts[0].offset && mlen == ts[0].len
    ensures At(src, pos', end, bitOffset, copyMap, Items(ts[1..], out + mlen))
  {
    ghost var s := Items(ts, out);
    ShortItems(ts, out);
    assert s[2..][0] == s[2] && s[2..][1..] == s[3..];
    Advance(src, pos, end, bitOffset, copyMap, s[2..]);
    var data := src[pos];
    pos' := pos + 1;
    offset := data % DEPTH2 + 1;
    mlen := data / DEPTH2 + 2;
  }

  /** Length and offset of a long match (lzjb2.c:71-76). */
  method ReadLong(src: array<Byte>, pos: nat, bitOffset: nat, copyMap: nat,
      ghost end: nat, ghost ts: seq<Token>, ghost out: nat)
      returns (offset: nat, mlen: nat, pos': nat)
    requires Valid(ts, out) && ts != [] && ts[0].Long?
    requires |Items(ts, out)| >= 2 && At(src, pos, end, bitOffset, copyMap, Items(ts, out)[2..])
    ensures offset == ts[0].offset && mlen == ts[0].len
    ensures At(src, pos', end, bitOffset, copyMap, Items(ts[1..], out + mlen))
  {
    ghost var s := Items(ts, out);
    LongItems(ts, out);
    assert s[2..][0] == s[2] && s[2..][1..] == s[3..];
    Advance(src, pos, end, bitOffset, copyMap, s[2..]);
    assert s[3..][0] == s[3] && s[3..][1..] == s[4..];
    Advance(src, pos + 1, end, bitOffset, copyMap, s[3..]);
    var data: int := src[pos] as int + 256 * src[pos + 1] as int;
    pos' := pos + 2;
    offset := data % DEPTH1 + 1;
    mlen := data / DEPTH1 + 3;
    if mlen == LEN_EXT {
      assert s[4..][0] == s[4] && s[4..][1..] == s[5..];
      Advance(src, pos', end, bitOffset, copyMap, s[4..]);
      mlen := mlen + src[pos'];
      pos' := pos' + 1;
    }
  }

  /** The parameters of a match whose first flag has been read: the branch of lzjb2.c:66-77. */
  method ReadMatch(src: array<Byte>, pos: nat, bitOffset: nat, copyMap: nat,
      ghost end: nat, ghost ts: seq<Token>, ghost out: nat)
      returns (offset: nat, mlen: nat, pos': nat, bitOffset': nat, copyMap': nat)
    requires Valid(ts, out) && ts != [] && !ts[0].Literal?
    requires Items(ts, out) != [] && At(src, pos, end, bitOffset, copyMap, Items(ts, out)[1..])
    ensures offset == ts[0].offset && mlen == ts[0].len
    ensures At(src, pos', end, bitOffset', copyMap', Items(ts[1..], out + mlen))
  {
    ghost var s := Items(ts, out);
    TokensStartWithFlags(ts, out);
    assert s[1..][0] == s[1] && s[1..][1..] == s[2..];
    var bit;
    bit, pos', bitOffset', copyMap' := StreamBitTest(src, pos, bitOffset, copyMap, end, s[1..]);
    if bit {
      offset, mlen, pos' := ReadShort(src, pos', bitOffset', copyMap', end, ts, out);
    } else {
      offset, mlen, pos' := ReadLong(src, pos', bitOffset', copyMap', end, ts, out);
    }
  }

  /** The literal branch: one byte from the stream to the output. */
  method PutLiteral(dst: array<Byte>, d: nat, x: Byte)
    requires d < dst.Length
    modifies dst
    ensures dst[..d + 1] == old(dst[..d]) + [x]
    ensures dst[d + 1..] == old(dst[d + 1..])
  {
    dst[d] := x;
  }

  /** The byte of a literal whose flag has been read. */
  method ReadLiteral(src: array<Byte>, pos: nat, bitOffset: nat, copyMap: nat,
      ghost end: nat, ghost ts: seq<Token>, ghost out: nat)
      returns (x: Byte, pos': nat)
    requires Valid(ts, out) && ts != [] && ts[0].Literal?
    requires Items(ts, out) != [] && At(src, pos, end, bitOffset, copyMap, Items(ts, out)[1..])
    ensures x == ts[0].x && At(src, pos', end, bitOffset, copyMap, Items(ts[1..], out + 1))
  {
    ghost var s := Items(ts, out);
    TokensStartWithFlags(ts, out);
    assert s[1..][0] == s[1] && s[1..][1..] == s[2..];
    Advance(src, pos, end, bitOffset, copyMap, s[1..]);
    x, pos' := src[pos], pos + 1;
  }

  /** One round of the loop of lzjb2_decompress: decodes the next token. */
  method Round(dst: array<Byte>, src: array<Byte>, d: nat, pos: nat, bitOffset: nat, copyMap: nat,
               ghost end: nat, ghost ts: seq<Token>)
      returns (d': nat, pos': nat, bitOffset': nat, copyMap': nat)
    requires dst != src && d <= dst.Length && Valid(ts, d) && ts != []
    requires At(src, pos, end, bitOffset, copyMap, Items(ts, d))
    requires d + Size(ts[0]) <= dst.Length
    modifies dst
    ensures d' == d + Size(ts[0]) && dst[..d'] == Apply(ts[0], old(dst[..d])) && dst[d'..] == old(dst[d'..])
    ensures At(src, pos', end, bitOffset', copyMap', Items(ts[1..], d'))
  {
    d' := d;
    ghost var s := Items(ts, d);
    TokensStartWithFlags(ts, d);
    var bit;
    bit, pos', bitOffset', copyMap' := StreamBitTest(src, pos, bitOffset, copyMap, end, s);
    if bit {
      var offset, mlen;
      offset, mlen, pos', bitOffset', copyMap' := ReadMatch(src, pos', bitOffset', copyMap', end, ts, d);
      if mlen > 0 {
        MemMove(dst, d', d' - offset, mlen);
        d' := d' + mlen;
      } else {
        assert false; // the branch for stored runs is never taken
      }
    } else {
      var x;
      x, pos' := ReadLiteral(src, pos', bitOffset', copyMap', end, ts, d);
      PutLiteral(dst, d', x);
      d' := d' + 1;
    }
  }

  lemma ExpandStep(ts: seq<Token>, out: seq<Byte>)
    requires Valid(ts, |out|) && ts != []
    ensures Valid(ts[1..], |out| + Size(ts[0])) && Expand(ts[1..], Apply(ts[0], out)) == Expand(ts, out)
    ensures |out| + Size(ts[0]) <= |Expand(ts, out)|
  {}

  lemma DoneIff(src: array<Byte>, pos: nat, end: nat, bitOffset: nat, copyMap: nat, ts: seq<Token>, out: nat)
    requires Valid(ts, out) && At(src, pos, end, bitOffset, copyMap, Items(ts, out))
    ensures pos == end <==> ts == []
  {
    EmptyMeansDone(src[pos..end], ts, out, bitOffset);
  }

  lemma SameTail(a: seq<Byte>, b: seq<Byte>, d: nat, k: nat)
    requires |a| == |b| && d + k <= |a| && a[d..] == b[d..]
    ensures a[d + k..] == b[d + k..]
  {
    assert a[d..][k..] == a[d + k..] && b[d..][k..] == b[d + k..];
  }

  /** lzjb2_decompress on a layout of valid tokens, into a buffer with room for their expansion.
      It produces exactly the expansion, touches nothing behind it and uses exactly `sLen` bytes. */
  method Decompress(dst: array<Byte>, src: array<Byte>, sLen: nat, ghost tokens: seq<Token>)
      returns (end: nat, ghost consumed: nat)
    requires dst != src && sLen <= src.Length
    requires Valid(tokens, 0) && Encodes(src[..sLen], Items(tokens, 0), 8)
    requires |Expand(tokens, [])| <= dst.Length
    modifies dst
    ensures end <= dst.Length && dst[..end] == Expand(tokens, [])
    ensures dst[end..] == old(dst[end..])
    ensures consumed == sLen
  {
    var d: nat, pos: nat := 0, 0;
    var bitOffset: nat, copyMap: nat := 8, 0;
    ghost var left := tokens;
    ghost var before := dst[..];
    assert src[0..sLen] == src[..sLen];
    DoneIff(src, pos, sLen, bitOffset, copyMap, left, d);
    while pos < sLen
      invariant d <= dst.Length && Valid(left, d) && Expand(left, dst[..d]) == Expand(tokens, [])
      invariant At(src, pos, sLen, bitOffset, copyMap, Items(left, d))
      invariant pos == sLen <==> left == []
      invariant dst[d..] == before[d..]
      decreases |left|
    {
      ExpandStep(left, dst[..d]);
      ghost var size := Size(left[0]);
      SameTail(dst[..], before, d, size);
      d, pos, bitOffset, copyMap := Round(dst, src, d, pos, bitOffset, copyMap, sLen, left);
      left := left[1..];
      DoneIff(src, pos, sLen, bitOffset, copyMap, left, d);
    }
    end, consumed := d, pos;
  }

  // ----- every output has a stream

  function Literals(data: seq<Byte>): (ts: seq<Token>)
    ensures |ts| == |data|
  {
    if data == [] then [] else [Literal(data[0])] + Literals(data[1..])
  }

  lemma {:induction false} LiteralsExpand(data: seq<Byte>, out: seq<Byte>)
    ensures Valid(Literals(data), |out|) && Expand(Literals(data), out) == out + data
  {
    if data != [] {
      LiteralsExpand(data[1..], out + [data[0]]);
      assert out + data == out + [data[0]] + data[1..];
    }
  }

  lemma Pow2Of8()
    ensures Pow2(8) == 256
  {
    assert Pow2(4) == 16;
    assert Pow2(5) == 32 && Pow2(6) == 64 && Pow2(7) == 128;
  }

  /** The flag byte of `n` bits whose low bits are the first flags and whose other bits are clear. */
  function FlagByte(flags: seq<bool>, n: nat): (m: nat)
    ensures m < Pow2(n)
  {
    if n == 0 then 0
    else if flags == [] then 0
    else (if flags[0] then 1 else 0) + 2 * FlagByte(flags[1..], n - 1)
  }

  lemma {:induction false} ZeroHasNoBits(j: nat)
    ensures !BitAt(0, j)
  {
    if j > 0 { ZeroHasNoBits(j - 1); }
  }

  lemma {:induction false} FlagByteAgrees(flags: seq<bool>, n: nat, j: nat)
    requires j < n
    ensures BitAt(FlagByte(flags, n), j) <==> j < |flags| && flags[j]
    decreases n
  {
    if flags == [] {
      ZeroHasNoBits(j);
    } else if j > 0 {
      assert FlagByte(flags, n) / 2 == FlagByte(flags[1..], n - 1);
      FlagByteAgrees(flags[1..], n - 1, j - 1);
    }
  }

  /** The layout with unused flag bits clear. */
  function Layout(s: seq<Item>, used: nat): (bytes: seq<Byte>)
    requires used <= 8
    decreases |s|
  {
    if s == [] then []
    else if s[0].Data? then [s[0].x] + Layout(s[1..], used)
    else if used == 8 then
      (Pow2Of8(); [FlagByte(Flags(s), 8)]) + Layout(s[1..], 1)
    else Layout(s[1..], used + 1)
  }

  /** Every list of valid tokens has a stream. */
  lemma {:induction false} LayoutEncodes(s: seq<Item>, used: nat)
    requires used <= 8
    ensures Encodes(Layout(s, used), s, used)
    decreases |s|
  {
    if s != [] {
      var rest := if s[0].Data? then used else if used == 8 then 1 else used + 1;
      LayoutEncodes(s[1..], rest);
      assert s[0].Flag? && used == 8 ==> Layout(s, used)[1..] == Layout(s[1..], 1);
      if s[0].Flag? && used == 8 {
        Pow2Of8();
        forall j | 0 <= j < |Flags(s)| && j < 8 ensures BitAt(Layout(s, used)[0], 0 + j) == Flags(s)[j] {
          FlagByteAgrees(Flags(s), 8, j);
        }
      }
    }
  }

  // ----- one stream, one list of tokens

  /** The same bytes, read as s and as u, the first `used` bits of flag byte m being used up. */
  ghost predicate Readings(bytes: seq<Byte>, s: seq<Item>, u: seq<Item>, used: nat, m: nat) {
    && used <= 8 && Encodes(bytes, s, used) && Encodes(bytes, u, used)
    && Agrees(m, used, Flags(s)) && Agrees(m, used, Flags(u))
  }

  lemma FlagsGoOn(s: seq<Item>, m: nat, k: nat)
    requires k < 8 && s != [] && s[0].Flag? && Agrees(m, k, Flags(s))
    ensures s[0].b == BitAt(m, k) && Agrees(m, k + 1, Flags(s[1..]))
  {
    assert Flags(s) == [s[0].b] + Flags(s[1..]);
    assert Flags(s)[0] == BitAt(m, k + 0);
    forall j | 0 <= j < |Flags(s[1..])| && k + 1 + j < 8 ensures BitAt(m, k + 1 + j) == Flags(s[1..])[j] {
      assert BitAt(m, k + (j + 1)) == Flags(s)[j + 1];
    }
  }

  lemma SameFlag(bytes: seq<Byte>, s: seq<Item>, u: seq<Item>, used: nat, m: nat)
      returns (bytes': seq<Byte>, used': nat, m': nat)
    requires Readings(bytes, s, u, used, m) && s != [] && u != [] && s[0].Flag? && u[0].Flag?
    ensures s[0] == u[0] && Readings(bytes', s[1..], u[1..], used', m')
  {
    bytes', used', m' := bytes, used + 1, m;
    if used == 8 { bytes', used', m' := bytes[1..], 1, bytes[0]; }
    assert Agrees(m', used' - 1, Flags(s)) && Agrees(m', used' - 1, Flags(u));
    FlagsGoOn(s, m', used' - 1);
    FlagsGoOn(u, m', used' - 1);
  }

  lemma SameData(bytes: seq<Byte>, s: seq<Item>, u: seq<Item>, used: nat, m: nat)
    requires Readings(bytes, s, u, used, m) && s != [] && u != [] && s[0].Data? && u[0].Data?
    ensures bytes != [] && s[0] == u[0] && Readings(bytes[1..], s[1..], u[1..], used, m)
  {}

  lemma SameToken(bytes: seq<Byte>, ts: seq<Token>, us: seq<Token>, out: nat, used: nat, m: nat)
      returns (bytes': seq<Byte>, used': nat, m': nat)
    requires Valid(ts, out) && Valid(us, out) && ts != [] && us != []
    requires Readings(bytes, Items(ts, out), Items(us, out), used, m)
    ensures ts[0] == us[0]
    ensures Readings(bytes', Items(ts[1..], out + Size(ts[0])), Items(us[1..], out + Size(ts[0])), used', m')
  {
    var s, u := Items(ts, out), Items(us, out);
    TokensStartWithFlags(ts, out);
    TokensStartWithFlags(us, out);
    hide Readings, Items, TokenItems;
    bytes', used', m' := SameFlag(bytes, s, u, used, m);
    assert s[1..][1..] == s[2..] && u[1..][1..] == u[2..];
    if ts[0].Literal? {
      SameData(bytes', s[1..], u[1..], used', m');
      bytes' := bytes'[1..];
    } else {
      bytes', used', m' := SameFlag(bytes', s[1..], u[1..], used', m');
      assert s[2..][1..] == s[3..] && u[2..][1..] == u[3..];
      SameData(bytes', s[2..], u[2..], used', m');
      bytes' := bytes'[1..];
      if ts[0].Short? {
        ShortItems(ts, out);
        ShortItems(us, out);
      } else {
        bytes' := SameLong(bytes', ts, us, out, used', m');
      }
    }
  }

  lemma SameLong(bytes: seq<Byte>, ts: seq<Token>, us: seq<Token>, out: nat, used: nat, m: nat)
      returns (bytes': seq<Byte>)
    requires Valid(ts, out) && Valid(us, out) && ts != [] && us != [] && ts[0].Long? && us[0].Long?
    requires var s, u := Items(ts, out), Items(us, out);
      |s| >= 3 && |u| >= 3 && s[2] == u[2] && Readings(bytes, s[3..], u[3..], used, m)
    ensures ts[0] == us[0]
    ensures Readings(bytes', Items(ts[1..], out + Size(ts[0])), Items(us[1..], out + Size(ts[0])), used, m)
  {
    var s, u := Items(ts, out), Items(us, out);
    LongItems(ts, out);
    LongItems(us, out);
    hide Readings, Items, TokenItems, LongWord, LowByte, HighByte;
    assert s[3..][1..] == s[4..] && u[3..][1..] == u[4..];
    SameData(bytes, s[3..], u[3..], used, m);
    bytes' := bytes[1..];
    if ts[0].len >= LEN_EXT {
      assert s[4..][1..] == s[5..] && u[4..][1..] == u[5..];
      SameData(bytes', s[4..], u[4..], used, m);
      bytes' := bytes'[1..];
    }
  }

  /** A stream is the layout of one list of tokens at most. */
  lemma {:induction false} OneReading(bytes: seq<Byte>, ts: seq<Token>, us: seq<Token>, out: nat, used: nat, m: nat)
    requires Valid(ts, out) && Valid(us, out) && Readings(bytes, Items(ts, out), Items(us, out), used, m)
    ensures ts == us
    decreases |ts|
  {
    EmptyMeansDone(bytes, ts, out, used);
    EmptyMeansDone(bytes, us, out, used);
    hide Readings, Items;
    if ts != [] {
      var bytes', used', m' := SameToken(bytes, ts, us, out, used, m);
      OneReading(bytes', ts[1..], us[1..], out + Size(ts[0]), used', m');
      assert ts == [ts[0]] + ts[1..] && us == [us[0]] + us[1..];
    }
  }
}
