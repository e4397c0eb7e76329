/** malloc.c: a heap tiled by block headers, allocation at its end, and a collector that merges free blocks
    a few at a time. The collector runs between allocations. */
module Malloc {
  /** One header word: the size of the block, header included, and its free bit. */
  datatype Header = Header(size: nat, free: bool)

  type Memory = map<nat, Header>

  const HEADER: nat := 4 // sizeof (R3MemoryBlock), and the alignment of a pointer

  // ----- tilings

  /** Headers in memory cut [from, to) into exactly the blocks `bs`. */
  ghost predicate Tiles(mem: Memory, from: nat, to: nat, bs: seq<Header>)
    decreases |bs|
  {
    if bs == [] then from == to
    else
      && from in mem && mem[from] == bs[0]
      && bs[0].size >= HEADER && bs[0].size % HEADER == 0
      && Tiles(mem, from + bs[0].size, to, bs[1..])
  }

  function Total(bs: seq<Header>): nat {
    if bs == [] then 0 else bs[0].size + Total(bs[1..])
  }

  lemma {:induction false} TotalAppend(a: seq<Header>, b: seq<Header>)
    ensures Total(a + b) == Total(a) + Total(b)
  {
    if a == [] {
      assert a + b == b;
    } else {
      TotalAppend(a[1..], b);
      assert (a + b)[1..] == a[1..] + b;
    }
  }

  lemma {:induction false} TilesEnd(mem: Memory, from: nat, to: nat, bs: seq<Header>)
    requires Tiles(mem, from, to, bs)
    ensures to == from + Total(bs)
    decreases |bs|
  {
    if bs != [] {
      TilesEnd(mem, from + bs[0].size, to, bs[1..]);
    }
  }

  /** A tiling is a tiling of the first part followed by one of the second part. */
  lemma {:induction false} TilesSplit(mem: Memory, from: nat, to: nat, a: seq<Header>, b: seq<Header>)
    ensures Tiles(mem, from, to, a + b) <==> Tiles(mem, from, from + Total(a), a) && Tiles(mem, from + Total(a), to, b)
    decreases |a|
  {
    if a == [] {
      assert a + b == b;
    } else {
      TilesSplit(mem, from + a[0].size, to, a[1..], b);
      assert (a + b)[1..] == a[1..] + b;
    }
  }

  /** A tiling only depends on the memory it covers. */
  lemma {:induction false} TilesFrame(mem: Memory, mem': Memory, from: nat, to: nat, bs: seq<Header>)
    requires Tiles(mem, from, to, bs)
    requires forall a :: from <= a < to && a in mem ==> a in mem' && mem'[a] == mem[a]
    ensures Tiles(mem', from, to, bs)
    decreases |bs|
  {
    if bs != [] {
      TilesEnd(mem, from, to, bs);
      TilesFrame(mem, mem', from + bs[0].size, to, bs[1..]);
    }
  }

  lemma {:induction false} TotalIsAligned(mem: Memory, from: nat, to: nat, bs: seq<Header>)
    requires Tiles(mem, from, to, bs)
    ensures Total(bs) % HEADER == 0
    decreases |bs|
  {
    if bs != [] {
      TotalIsAligned(mem, from + bs[0].size, to, bs[1..]);
    }
  }

  // ----- live blocks

  function LiveOne(at: nat, h: Header): seq<(nat, nat)> { if h.free then [] else [(at, h.size)] }

  /** Header address and size of every block in use, in address order. */
  function Live(at: nat, bs: seq<Header>): seq<(nat, nat)>
    decreases |bs|
  {
    if bs == [] then []
    else LiveOne(at, bs[0]) + Live(at + bs[0].size, bs[1..])
  }

  lemma LiveCons(at: nat, h: Header, rest: seq<Header>)
    ensures Live(at, [h] + rest) == LiveOne(at, h) + Live(at + h.size, rest)
    ensures Total([h] + rest) == h.size + Total(rest)
  {
    assert ([h] + rest)[1..] == rest;
  }

  lemma {:induction false} LiveAppend(at: nat, a: seq<Header>, b: seq<Header>)
    ensures Live(at, a + b) == Live(at, a) + Live(at + Total(a), b)
    decreases |a|
  {
    if a == [] {
      assert a + b == b;
    } else {
      LiveAppendCons(at, a[0], a[1..], b) by { LiveAppend(at + a[0].size, a[1..], b); }
      assert a == [a[0]] + a[1..];
    }
  }

  lemma LiveAppendCons(at: nat, h: Header, a: seq<Header>, b: seq<Header>)
    requires Live(at + h.size, a + b) == Live(at + h.size, a) + Live(at + h.size + Total(a), b)
    ensures Live(at, [h] + a + b) == Live(at, [h] + a) + Live(at + Total([h] + a), b)
  {
    hide Live, Total, LiveOne;
    assert [h] + a + b == [h] + (a + b);
    LiveCons(at, h, a + b);
    LiveCons(at, h, a);
  }

  /** Blocks as (address, size) pairs inside [from, to), in order and without overlap. */
  ghost predicate Disjoint(from: nat, to: nat, l: seq<(nat, nat)>) {
    && (forall i :: 0 <= i < |l| ==> from <= l[i].0 && l[i].0 + l[i].1 <= to && l[i].1 >= HEADER)
    && (forall i, j :: 0 <= i < j < |l| ==> l[i].0 + l[i].1 <= l[j].0)
  }

  lemma DisjointCons(from: nat, size: nat, to: nat, l: seq<(nat, nat)>)
    requires size >= HEADER && from + size <= to && Disjoint(from + size, to, l)
    ensures Disjoint(from, to, [(from, size)] + l)
  {
    var l' := [(from, size)] + l;
    forall i | 0 <= i < |l'| ensures from <= l'[i].0 && l'[i].0 + l'[i].1 <= to && l'[i].1 >= HEADER {
      assert i > 0 ==> l'[i] == l[i - 1];
    }
    forall i, j | 0 <= i < j < |l'| ensures l'[i].0 + l'[i].1 <= l'[j].0 {
      assert l'[j] == l[j - 1] && (i > 0 ==> l'[i] == l[i - 1]);
    }
  }

  /** Live blocks lie inside the heap and never overlap. */
  lemma {:induction false} LiveBlocksDisjoint(mem: Memory, from: nat, to: nat, bs: seq<Header>)
    requires Tiles(mem, from, to, bs)
    ensures Disjoint(from, to, Live(from, bs))
    decreases |bs|
  {
    if bs != [] {
      TilesEnd(mem, from, to, bs);
      var rest := Live(from + bs[0].size, bs[1..]);
      LiveBlocksDisjoint(mem, from + bs[0].size, to, bs[1..]);
      DisjointCons(from, bs[0].size, to, rest);
      assert bs[0].free ==> Live(from, bs) == rest;
      assert Disjoint(from + bs[0].size, to, rest) ==> Disjoint(from, to, rest);
    }
  }

  // ----- what the collector does, on the sequence of blocks and the index of first_free_block

  function Joined(bs: seq<Header>, k: nat): (r: seq<Header>)
    requires k + 1 < |bs|
    ensures |r| == |bs| - 1 && r[k] == Header(bs[k].size + bs[k + 1].size, true)
    ensures r[..k] == bs[..k] && r[k + 1..] == bs[k + 2..]
  {
    bs[..k] + [Header(bs[k].size + bs[k + 1].size, true)] + bs[k + 2..]
  }

  function Merge(bs: seq<Header>, k: nat, count: nat): (r: (seq<Header>, nat))
    requires k < |bs| && count > 0
    decreases count
  {
    if k + 1 == |bs| then (bs[..k], 0)
    else if !bs[k + 1].free then (bs, k + 2)
    else if count == 1 then (Joined(bs, k), k)
    else Merge(Joined(bs, k), k, count - 1)
  }

  lemma MergeCases(bs: seq<Header>, k: nat, count: nat)
    requires k < |bs| && count > 0
    ensures k + 1 == |bs| ==> Merge(bs, k, count) == (bs[..k], 0)
    ensures k + 1 < |bs| && !bs[k + 1].free ==> Merge(bs, k, count) == (bs, k + 2)
    ensures k + 1 < |bs| && bs[k + 1].free ==>
      Merge(bs, k, count) == if count > 1 then Merge(Joined(bs, k), k, count - 1) else (Joined(bs, k), k)
  {}

  function Collect(bs: seq<Header>, k: nat): (r: (seq<Header>, nat)) {
    if k >= |bs| then (bs, 0)
    else if !bs[k].free then (bs, k + 1)
    else Merge(bs, k, 5)
  }

  // ----- the heap

  predicate PowerOfTwo(n: nat) {
    n == 1 || (n > 1 && n % 2 == 0 && PowerOfTwo(n / 2))
  }

  /** The masks of the source: x & (a - 1) and x & ~(a - 1) for a power of two a. */
  function Mask(x: nat, a: nat): nat requires a > 0 { x % a }
  function Unmask(x: nat, a: nat): (r: nat)
    requires a > 0
    ensures r == x / a * a
  {
    x - x % a
  }

  function Effective(align: nat): nat {
    if align < HEADER then HEADER else align
  }

  /** The size of the block that holds `size` bytes. */
  function BlockSize(align: nat, size: nat): nat
    requires align > 0
  {
    Unmask(size + align - 1, align) + HEADER
  }

  /** What is left free in front of the header so that the bytes behind it are aligned. */
  function Padding(align: nat, last: nat): int
    requires align > 0
  {
    align - HEADER - Mask(last, align)
  }

  lemma MultipleOf4(k: int, a: int)
    requires a % 4 == 0
    ensures (k * a) % 4 == 0
  {
    var b := a / 4;
    assert k * a == 4 * (k * b);
  }

  lemma MultipleMod(k: int, a: int)
    requires a > 0
    ensures (k * a) % a == 0
  {
    ModUnique(k * a, a, k, 0);
  }

  lemma AtLeastOne(n: int, a: int)
    requires n >= 1 && a > 0
    ensures n * a >= a
  {
    assert (n - 1) * a >= 0;
  }

  lemma ModUnique(x: int, a: int, q: int, r: int)
    requires a > 0 && 0 <= r < a && x == q * a + r
    ensures x % a == r && x / a == q
  {
    var q', r' := x / a, x % a;
    assert x == q' * a + r';
    assert (q' - q) * a == r - r';
    if q' > q {
      AtLeastOne(q' - q, a);
    } else if q' < q {
      AtLeastOne(q - q', a);
    }
  }

  lemma {:induction false} PowerIsMultipleOf4(n: nat)
    requires PowerOfTwo(n) && n >= 4
    ensures n % 4 == 0
  {
    assert PowerOfTwo(n / 2) && PowerOfTwo(n / 2 / 2) by {
      assert n / 2 > 1;
    }
  }

  lemma MultiplesOf4(x: int, y: int, r: int, a: int)
    requires x % 4 == 0 && y % 4 == 0 && a % 4 == 0 && r == x - y && r < a
    ensures r % 4 == 0 && r <= a - 4
  {}

  lemma RemainderOf4(x: nat, a: nat)
    requires a > 0 && a % 4 == 0 && x % 4 == 0
    ensures (x % a) % 4 == 0 && x % a <= a - 4
  {
    var y, r := x / a * a, x % a;
    assert r == x - y;
    MultipleOf4(x / a, a);
    MultiplesOf4(x, y, r, a);
  }

  lemma QuotientPositive(x: nat, a: nat)
    requires x >= a > 0
    ensures x / a >= 1
  {}

  lemma BlockSizeIsMultiple(align: nat, size: nat)
    requires align > 0
    ensures var data := BlockSize(align, size) - HEADER; data % align == 0 && size <= data < size + align
  {
    var x := size + align - 1;
    MultipleMod(x / align, align);
    assert Unmask(x, align) == x / align * align == x - x % align;
  }

  /** The data of a block are the least multiple of the alignment that holds the request. */
  lemma BlockSizeHolds(align: nat, size: nat)
    requires align >= HEADER && align % 4 == 0
    ensures var data := BlockSize(align, size) - HEADER; data % align == 0 && size <= data < size + align
    ensures BlockSize(align, size) % HEADER == 0 && (size > 0 ==> BlockSize(align, size) >= align + HEADER)
  {
    BlockSizeIsMultiple(align, size);
    var x := size + align - 1;
    MultipleOf4(x / align, align);
    if size > 0 {
      QuotientPositive(x, align);
      AtLeastOne(x / align, align);
    }
  }

  lemma OneMore(q: int, a: int)
    ensures q * a + a == (q + 1) * a
  {}

  /** Where an allocation puts its block, when the heap ends at `last`. */
  lemma Placement(align: nat, last: nat)
    requires align % 4 == 0 && align >= HEADER && last % HEADER == 0
    ensures var head := Padding(align, last);
      && 0 <= head <= align - HEADER && head % HEADER == 0
      && (last + head + HEADER) % align == 0
      && ((last + HEADER) % align == 0 <==> head == 0)
  {
    RemainderOf4(last, align);
    var q, r := last / align, last % align;
    assert last == q * align + r;
    OneMore(q, align);
    assert last + Padding(align, last) + HEADER == (q + 1) * align;
    MultipleMod(q + 1, align);
    if r != align - HEADER {
      ModUnique(last + HEADER, align, q, r + HEADER);
    }
  }

  /** A word that is no block header may hold anything. */
  lemma {:induction false} TilesOffBoundary(mem: Memory, from: nat, to: nat, bs: seq<Header>, a: nat, h: Header)
    requires Tiles(mem, from, to, bs)
    requires forall k :: 0 <= k < |bs| ==> from + Total(bs[..k]) != a
    ensures Tiles(mem[a := h], from, to, bs)
    decreases |bs|
  {
    if bs != [] {
      assert from + Total(bs[..0]) != a;
      forall k | 0 <= k < |bs[1..]| ensures from + bs[0].size + Total(bs[1..][..k]) != a {
        assert from + Total(bs[..k + 1]) != a;
        assert bs[..k + 1][1..] == bs[1..][..k];
      }
      TilesOffBoundary(mem, from + bs[0].size, to, bs[1..], a, h);
    }
  }

  lemma {:induction false} TotalPrefix(bs: seq<Header>, i: nat, j: nat)
    requires i <= j <= |bs|
    ensures Total(bs[..i]) <= Total(bs[..j])
    ensures i < j ==> Total(bs[..i]) + bs[i].size <= Total(bs[..j])
  {
    TotalAppend(bs[..i], bs[i..j]);
    assert bs[..i] + bs[i..j] == bs[..j];
  }

  lemma TilesCut(mem: Memory, from: nat, to: nat, bs: seq<Header>, k: nat)
    requires k < |bs|
    ensures var at := from + Total(bs[..k]);
      Tiles(mem, from, to, bs) <==>
        && Tiles(mem, from, at, bs[..k])
        && at in mem && mem[at] == bs[k] && bs[k].size >= HEADER && bs[k].size % HEADER == 0
        && Tiles(mem, at + bs[k].size, to, bs[k + 1..])
  {
    assert bs == bs[..k] + bs[k..] && bs[k..][1..] == bs[k + 1..];
    TilesSplit(mem, from, to, bs[..k], bs[k..]);
  }

  /** The header of block `k` replaced by one of the same size. */
  lemma TilesUpdate(mem: Memory, from: nat, to: nat, bs: seq<Header>, k: nat, h: Header)
    requires Tiles(mem, from, to, bs) && k < |bs| && h.size == bs[k].size
    ensures Tiles(mem[from + Total(bs[..k]) := h], from, to, bs[k := h])
  {
    var at := from + Total(bs[..k]);
    var mem' := mem[at := h];
    assert bs[k := h][..k] == bs[..k] && bs[k := h][k + 1..] == bs[k + 1..];
    TilesCut(mem, from, to, bs, k);
    TilesFrame(mem, mem', from, at, bs[..k]);
    TilesFrame(mem, mem', at + h.size, to, bs[k + 1..]);
    TilesCut(mem', from, to, bs[k := h], k);
  }

  lemma TilesFirst(mem: Memory, from: nat, to: nat, bs: seq<Header>)
    requires Tiles(mem, from, to, bs) && bs != []
    ensures bs[0].size >= HEADER && bs[0].size % HEADER == 0 && Tiles(mem, from + bs[0].size, to, bs[1..])
  {}

  /** Block `k` swallows the one behind it: only the header of block `k` is written. */
  lemma TilesJoin(mem: Memory, from: nat, to: nat, bs: seq<Header>, k: nat)
    requires Tiles(mem, from, to, bs) && k + 1 < |bs|
    ensures Tiles(mem[from + Total(bs[..k]) := Header(bs[k].size + bs[k + 1].size, true)], from, to, Joined(bs, k))
  {
    hide Tiles, Total, Joined;
    var at := from + Total(bs[..k]);
    var mem' := mem[at := Header(bs[k].size + bs[k + 1].size, true)];
    TilesCut(mem, from, to, bs, k);
    TilesFirst(mem, at + bs[k].size, to, bs[k + 1..]);
    assert bs[k + 1..][1..] == bs[k + 2..];
    TilesFrame(mem, mem', from, at, bs[..k]);
    TilesFrame(mem, mem', at + bs[k].size + bs[k + 1].size, to, bs[k + 2..]);
    TilesCut(mem', from, to, Joined(bs, k), k);
  }

  lemma TilesAt(mem: Memory, from: nat, to: nat, bs: seq<Header>, k: nat)
    requires Tiles(mem, from, to, bs) && k <= |bs|
    ensures var at := from + Total(bs[..k]); at <= to && (at == to <==> k == |bs|) && Tiles(mem, from, at, bs[..k])
    ensures var at := from + Total(bs[..k]);
      k < |bs| ==>
        && at in mem && mem[at] == bs[k] && bs[..k + 1] == bs[..k] + [bs[k]]
        && Total(bs[..k + 1]) == Total(bs[..k]) + bs[k].size
  {
    assert bs == bs[..k] + bs[k..];
    TilesSplit(mem, from, to, bs[..k], bs[k..]);
    TilesEnd(mem, from + Total(bs[..k]), to, bs[k..]);
    if k < |bs| {
      assert bs[..k + 1] == bs[..k] + [bs[k]];
      TotalAppend(bs[..k], [bs[k]]);
      assert [bs[k]][1..] == [];
    }
  }

  /** The blocks an allocation appends: padding if there is any, then the block itself. */
  function Appended(head: nat, size: nat): (r: seq<Header>) {
    (if head > 0 then [Header(head, true)] else []) + [Header(size, false)]
  }

  /** Writing the headers of the appended blocks extends the tiling and adds one live block. */
  lemma TilesAppend(mem: Memory, from: nat, last: nat, bs: seq<Header>, head: nat, size: nat, mem': Memory)
    requires Tiles(mem, from, last, bs)
    requires head % HEADER == 0 && size % HEADER == 0 && size >= HEADER
    requires mem' == if head > 0 then mem[last + head := Header(size, false)][last := Header(head, true)]
                     else mem[last + head := Header(size, false)]
    ensures Tiles(mem', from, last + head + size, bs + Appended(head, size))
    ensures Live(from, bs + Appended(head, size)) == Live(from, bs) + [(last + head, size)]
  {
    var h := [Header(size, false)];
    assert h[1..] == [];
    assert Tiles(mem', last + head, last + head + size, h);
    assert Live(last + head, h) == [(last + head, size)];
    if head > 0 {
      assert Appended(head, size)[1..] == h;
    } else {
      assert Appended(head, size) == h;
    }
    TilesEnd(mem, from, last, bs);
    TilesFrame(mem, mem', from, last, bs);
    TilesSplit(mem', from, last + head + size, bs, Appended(head, size));
    LiveAppend(from, bs, Appended(head, size));
  }

  lemma HeapEndAligned(mem: Memory, from: nat, to: nat, bs: seq<Header>)
    requires Tiles(mem, from, to, bs) && from % HEADER == 0
    ensures to % HEADER == 0
  {
    hide Tiles, Total;
    TotalIsAligned(mem, from, to, bs);
    TilesEnd(mem, from, to, bs);
  }

  /** The collector at block `k`: the next header is the end of the heap or block `k` + 1. */
  lemma NextBlock(mem: Memory, from: nat, to: nat, bs: seq<Header>, k: nat)
    requires Tiles(mem, from, to, bs) && k < |bs|
    ensures var at := from + Total(bs[..k]); var next := at + bs[k].size;
      && at in mem && mem[at] == bs[k] && Tiles(mem, from, at, bs[..k])
      && (next == to <==> k + 1 == |bs|)
      && (k + 1 < |bs| ==> next in mem && mem[next] == bs[k + 1] && next + bs[k + 1].size == from + Total(bs[..k + 2]))
  {
    TilesAt(mem, from, to, bs, k);
    TilesAt(mem, from, to, bs, k + 1);
  }

  class Heap {
    const base: nat
    var mem: Memory
    var lastBlock: nat
    var firstFree: nat

    /** The blocks between the base and `lastBlock`, and which of them `firstFree` is. */
    ghost var blocks: seq<Header>
    ghost var index: nat

    ghost predicate Valid()
      reads this
    {
      && base % HEADER == 0
      && Tiles(mem, base, lastBlock, blocks)
      && index <= |blocks| && firstFree == base + Total(blocks[..index])
    }

    constructor (base: nat)
      requires base % HEADER == 0
      ensures Valid() && this.base == base && lastBlock == base && blocks == [] && index == 0
    {
      this.base := base;
      mem := map[];
      lastBlock, firstFree := base, base;
      blocks, index := [], 0;
    }

    /** aligned_alloc. The block it appends has aligned data, but the pointer it returns ignores the padding
        (malloc.c:167): it is the aligned data of the new block exactly when there is no padding, and
        otherwise the new header lies inside the memory the caller believes to own. */
    method AlignedAlloc(align: nat, size: nat) returns (p: nat)
      requires Valid() && PowerOfTwo(align)
      modifies this`mem, this`lastBlock, this`blocks
      ensures Valid()
      ensures var a := Effective(align); var head := Padding(a, old(lastBlock)); var hdr := old(lastBlock) + head;
        && head >= 0
        && blocks == old(blocks) + Appended(head, BlockSize(a, size))
        && Live(base, blocks) == old(Live(base, blocks)) + [(hdr, BlockSize(a, size))]
        && (hdr + HEADER) % a == 0 && BlockSize(a, size) >= size + HEADER
        && p == hdr - head + HEADER && (p % a == 0 <==> head == 0)
        && (head > 0 && size > 0 ==> p <= hdr < p + BlockSize(a, size) - HEADER)
    {
      var a := if align < HEADER then HEADER else align;
      PowerIsMultipleOf4(if align < HEADER then 4 else align);
      HeapEndAligned(mem, base, lastBlock, blocks);
      Placement(a, lastBlock);
      BlockSizeHolds(a, size);
      ghost var mem0 := mem;
      var size' := Unmask(size + a - 1, a) + HEADER;
      var addr := lastBlock;
      var head := a - HEADER - Mask(addr, a);
      assert a == Effective(align) && size' == BlockSize(a, size) && head == Padding(a, addr);
      hide Tiles, Total, Live, PowerOfTwo, Mask, Unmask, BlockSize, Padding, Effective;
      lastBlock := addr + head + size';
      mem := mem[addr + head := Header(size', false)];
      if head > 0 {
        mem := mem[addr := Header(head, true)];
      }
      TilesAppend(mem0, base, addr, blocks, head, size', mem);
      assert (blocks + Appended(head, size'))[..index] == blocks[..index];
      blocks := blocks + Appended(head, size');
      p := addr + HEADER;
    }

    /** malloc: the alignment of a pointer needs no padding, so the pointer is the data of the new block. */
    method Malloc(size: nat) returns (p: nat)
      requires Valid()
      modifies this`mem, this`lastBlock, this`blocks
      ensures Valid()
      ensures p >= HEADER && p % HEADER == 0
      ensures Live(base, blocks) == old(Live(base, blocks)) + [(p - HEADER, BlockSize(HEADER, size))]
      ensures BlockSize(HEADER, size) >= size + HEADER
    {
      assert PowerOfTwo(2);
      HeapEndAligned(mem, base, lastBlock, blocks);
      p := AlignedAlloc(HEADER, size);
    }

    /** free: sets the free bit of the header in front of the data, and nothing else. */
    method Free(data: nat, ghost k: nat)
      requires Valid()
      requires k < |blocks| && data == base + Total(blocks[..k]) + HEADER
      modifies this`mem, this`blocks
      ensures Valid() && blocks == old(blocks)[k := Header(old(blocks)[k].size, true)]
    {
      TilesAt(mem, base, lastBlock, blocks, k);
      var block := data - HEADER;
      ghost var bs := blocks;
      TilesUpdate(mem, base, lastBlock, blocks, k, Header(blocks[k].size, true));
      mem := mem[block := mem[block].(free := true)];
      blocks := blocks[k := Header(bs[k].size, true)];
      TotalKeepsSizes(bs, blocks, index);
    }

    /** The owner of a live block stores any word anywhere behind its header: no header is hit. */
    method Store(a: nat, w: Header, ghost k: nat)
      requires Valid()
      requires k < |blocks| && var at := base + Total(blocks[..k]); at < a < at + blocks[k].size
      modifies this`mem
      ensures Valid()
    {
      forall j | 0 <= j < |blocks| ensures base + Total(blocks[..j]) != a {
        if j <= k {
          TotalPrefix(blocks, j, k);
        } else {
          TotalPrefix(blocks, k, j);
        }
      }
      TilesOffBoundary(mem, base, lastBlock, blocks, a, w);
      mem := mem[a := w];
    }

    /** The block at `firstFree` swallows the next one: `block->size += next_block->size`. */
    method Join(block: nat, next: nat)
      requires Valid() && index + 1 < |blocks| && blocks[index].free
      requires block == firstFree && next == block + blocks[index].size
      modifies this`mem, this`blocks
      ensures Valid() && blocks == Joined(old(blocks), index)
      ensures block in mem && mem[block].size == blocks[index].size
    {
      NextBlock(mem, base, lastBlock, blocks, index);
      TilesJoin(mem, base, lastBlock, blocks, index);
      mem := mem[block := mem[block].(size := mem[block].size + mem[next].size)];
      ghost var bs := blocks;
      blocks := Joined(bs, index);
      assert blocks[..index] == bs[..index];
    }

    /** The block behind the free one is in use: the scan goes on behind that. */
    method StepOver(next: nat)
      requires Valid() && index + 1 < |blocks| && next == firstFree + blocks[index].size
      modifies this`firstFree, this`index
      ensures Valid() && index == old(index) + 2
    {
      NextBlock(mem, base, lastBlock, blocks, index);
      firstFree := next + mem[next].size;
      index := index + 2;
    }

    /** The free block at `firstFree` is the last one: the heap ends in front of it, and the scan starts over. */
    method Truncate(block: nat)
      requires Valid() && index < |blocks| && block == firstFree
      modifies this`lastBlock, this`firstFree, this`blocks, this`index
      ensures Valid() && blocks == old(blocks[..index]) && index == 0
    {
      NextBlock(mem, base, lastBlock, blocks, index);
      lastBlock := block;
      firstFree := base;
      blocks, index := blocks[..index], 0;
    }

    /** The loop of r3_mem_garbage (malloc.c:64-77): merges at most five blocks into a free one. */
    method Coalesce()
      requires Valid() && index < |blocks| && blocks[index].free
      modifies this
      ensures Valid()
      ensures blocks == Merge(old(blocks), old(index), 5).0 && index == Merge(old(blocks), old(index), 5).1
    {
      hide Tiles, Total, Merge;
      NextBlock(mem, base, lastBlock, blocks, index);
      var block := firstFree;
      var next := block + mem[block].size;
      ghost var bs, k := blocks, index;
      var count := 5;
      while count > 0
        invariant 0 <= count <= 5
        invariant Valid() && index == k < |blocks| && blocks[k].free
        invariant block == firstFree && next == block + blocks[k].size
        invariant Merge(bs, k, 5) == if count > 0 then Merge(blocks, k, count) else (blocks, k)
      {
        NextBlock(mem, base, lastBlock, blocks, k);
        MergeCases(blocks, k, count);
        if next == lastBlock {
          Truncate(block);
          return;
        }
        if !mem[next].free {
          StepOver(next);
          return;
        }
        Join(block, next);
        next := block + mem[block].size;
        count := count - 1;
      }
    }

    /** r3_mem_garbage. */
    method Garbage()
      requires Valid()
      modifies this
      ensures Valid()
      ensures blocks == Collect(old(blocks), old(index)).0 && index == Collect(old(blocks), old(index)).1
    {
      TilesAt(mem, base, lastBlock, blocks, index);
      var block := firstFree;
      if block >= lastBlock {
        firstFree := base;
        index := 0;
      } else if !mem[block].free {
        firstFree := block + mem[block].size;
        index := index + 1;
      } else {
        Coalesce();
      }
    }
  }

  lemma EightIsPower()
    ensures PowerOfTwo(8)
  {
    assert PowerOfTwo(4);
  }

  /** On a fresh heap that begins on the alignment, already the first pointer misses it. */
  method FirstPointerIsOff(base: nat, size: nat) returns (p: nat)
    requires base % 8 == 0
    ensures p % 8 == 4
  {
    hide Tiles, Total, Live, PowerOfTwo, BlockSize, Padding, Appended, Effective;
    var heap := new Heap(base);
    EightIsPower();
    p := heap.AlignedAlloc(8, size);
    assert p == base + HEADER;
  }

  lemma {:induction false} TotalKeepsSizes(a: seq<Header>, b: seq<Header>, k: nat)
    requires |a| == |b| && k <= |a| && forall i :: 0 <= i < |a| ==> a[i].size == b[i].size
    ensures Total(a[..k]) == Total(b[..k])
    decreases k
  {
    if k > 0 {
      TotalKeepsSizes(a[1..], b[1..], k - 1);
      assert a[..k][1..] == a[1..][..k - 1] && b[..k][1..] == b[1..][..k - 1];
    }
  }

  // ----- how much one call merges

  /** j free blocks lie behind block k, and that is as many as may be merged or as there are. */
  ghost predicate FreeBehind(bs: seq<Header>, k: nat, j: nat, count: nat) {
    && k + j < |bs| && j <= count && (forall i :: k <= i <= k + j ==> bs[i].free)
    && (j == count || k + j + 1 == |bs| || !bs[k + j + 1].free)
  }

  lemma TotalOfOne(h: Header)
    ensures Total([h]) == h.size
  {
    assert [h][1..] == [];
  }

  lemma JoinedSlices(bs: seq<Header>, k: nat, j: nat)
    requires 0 < j && k + j < |bs|
    ensures var b := Joined(bs, k); b[k + j..] == bs[k + j + 1..] && Total(b[k..k + j]) == Total(bs[k..k + j + 1])
  {
    var b := Joined(bs, k);
    assert b == bs[..k] + [b[k]] + bs[k + 2..];
    assert b[k + j..] == bs[k + 2..][j - 1..] == bs[k + j + 1..];
    assert bs[k..k + j + 1] == [bs[k], bs[k + 1]] + bs[k + 2..k + j + 1];
    assert b[k..k + j] == [b[k]] + bs[k + 2..k + j + 1];
    TotalAppend([bs[k], bs[k + 1]], bs[k + 2..k + j + 1]);
    TotalAppend([b[k]], bs[k + 2..k + j + 1]);
    TotalAppend([bs[k]], [bs[k + 1]]);
    assert [bs[k]] + [bs[k + 1]] == [bs[k], bs[k + 1]];
    TotalOfOne(bs[k]);
    TotalOfOne(bs[k + 1]);
    TotalOfOne(b[k]);
  }

  lemma JoinedBehind(bs: seq<Header>, k: nat, j: nat, count: nat)
    requires 0 < j && FreeBehind(bs, k, j, count)
    ensures FreeBehind(Joined(bs, k), k, j - 1, count - 1)
  {
    var b := Joined(bs, k);
    hide Joined;
    forall i | k < i < |b| ensures b[i] == bs[i + 1] {
      assert b[i] == b[k + 1..][i - k - 1] == bs[k + 2..][i - k - 1];
    }
  }

  lemma {:induction false} MergeTakes(bs: seq<Header>, k: nat, j: nat, count: nat)
    requires count > 0 && FreeBehind(bs, k, j, count)
    ensures Merge(bs, k, count) ==
            if j < count && k + j + 1 == |bs| then (bs[..k], 0)
            else (bs[..k] + [Header(Total(bs[k..k + j + 1]), true)] + bs[k + j + 1..], if j == count then k else k + 2)
    decreases count
  {
    assert bs[k] == Header(bs[k].size, true);
    if j == 0 {
      assert bs[k..k + 1] == [bs[k]];
      TotalOfOne(bs[k]);
      assert bs == bs[..k] + [bs[k]] + bs[k + 1..];
    } else {
      var b := Joined(bs, k);
      JoinedSlices(bs, k, j);
      hide Joined, Total, FreeBehind;
      if count > 1 {
        JoinedBehind(bs, k, j, count);
        MergeTakes(b, k, j - 1, count - 1);
      } else {
        assert b[k..k + 1] == [b[k]];
        TotalOfOne(b[k]);
        assert b == bs[..k] + [b[k]] + b[k + 1..];
      }
    }
  }

  /** One call makes one block of a free block and the free ones behind it, at most five of them; a tail of at most
      five free blocks goes off the heap. */
  lemma CollectMergesFive(bs: seq<Header>, k: nat, j: nat)
    requires FreeBehind(bs, k, j, 5)
    ensures Collect(bs, k) ==
            if j < 5 && k + j + 1 == |bs| then (bs[..k], 0)
            else (bs[..k] + [Header(Total(bs[k..k + j + 1]), true)] + bs[k + j + 1..], if j == 5 then k else k + 2)
  {
    MergeTakes(bs, k, j, 5);
  }

  // ----- the collector never touches a live block

  lemma LiveSplit(at: nat, bs: seq<Header>, k: nat)
    requires k < |bs|
    ensures Live(at, bs) == Live(at, bs[..k]) + LiveOne(at + Total(bs[..k]), bs[k])
                            + Live(at + Total(bs[..k]) + bs[k].size, bs[k + 1..])
  {
    assert bs == bs[..k] + bs[k..] && bs[k..][1..] == bs[k + 1..];
    LiveAppend(at, bs[..k], bs[k..]);
  }

  lemma JoinKeepsLive(at: nat, bs: seq<Header>, k: nat)
    requires k + 1 < |bs| && bs[k].free && bs[k + 1].free
    ensures Live(at, Joined(bs, k)) == Live(at, bs)
  {
    hide *;
    var here := at + Total(bs[..k]);
    LiveSplit(at, Joined(bs, k), k);
    LiveSplit(at, bs, k);
    FreeFirst(here + bs[k].size, bs[k + 1..]);
    assert bs[k + 1..][1..] == bs[k + 2..];
    FreeIsNotLive(here, bs[k]);
    FreeIsNotLive(here, Joined(bs, k)[k]);
  }

  lemma FreeIsNotLive(at: nat, h: Header)
    requires h.free
    ensures LiveOne(at, h) == []
  {}

  lemma FreeFirst(at: nat, bs: seq<Header>)
    requires bs != [] && bs[0].free
    ensures Live(at, bs) == Live(at + bs[0].size, bs[1..])
  {}

  lemma {:induction false} MergeKeepsLive(at: nat, bs: seq<Header>, k: nat, count: nat)
    requires k < |bs| && count > 0 && bs[k].free
    ensures Live(at, Merge(bs, k, count).0) == Live(at, bs)
    decreases count
  {
    if k + 1 == |bs| {
      assert bs == bs[..k] + [bs[k]] && [bs[k]][1..] == [];
      LiveAppend(at, bs[..k], [bs[k]]);
    } else if bs[k + 1].free {
      JoinKeepsLive(at, bs, k);
      if count > 1 {
        MergeKeepsLive(at, Joined(bs, k), k, count - 1);
      }
    }
  }

  /** A call of the collector leaves every live block where and as large as it was. */
  lemma CollectKeepsLive(at: nat, bs: seq<Header>, k: nat)
    ensures Live(at, Collect(bs, k).0) == Live(at, bs)
  {
    if k < |bs| && bs[k].free {
      MergeKeepsLive(at, bs, k, 5);
    }
  }

  // ----- the collector gets everything done

  ghost predicate FreePair(bs: seq<Header>, i: int) {
    0 <= i < |bs| - 1 && bs[i].free && bs[i + 1].free
  }

  /** Nothing left to collect: no two free blocks side by side and none at the end. */
  ghost predicate Compact(bs: seq<Header>) {
    && (forall i :: !FreePair(bs, i))
    && (bs != [] ==> !bs[|bs| - 1].free)
  }

  /** Nothing left to collect in front of block `k`. */
  ghost predicate Clean(bs: seq<Header>, k: nat) {
    k <= |bs| && Compact(bs[..k])
  }

  /** Calls that may still be needed. */
  ghost function Rank(bs: seq<Header>, k: nat): int {
    if Compact(bs) then 0
    else if Clean(bs, k) then 1 + 2 * |bs| - k
    else 4 * |bs| + 3 - k
  }

  lemma CleanStepsOver(bs: seq<Header>, k: nat)
    requires Clean(bs, k) && k + 1 < |bs| && !bs[k + 1].free
    ensures Clean(bs, k + 2)
  {
    assert k > 0 ==> bs[..k][k - 1] == bs[k - 1];
    var front := bs[..k + 2];
    forall i ensures !FreePair(front, i) {
      assert !FreePair(bs[..k], i);
    }
  }

  /** How one round of merging moves the scan: it truncates and starts over, or steps over a live block, or stays. */
  lemma {:induction false} MergeProgress(bs: seq<Header>, k: nat, count: nat)
    requires k < |bs| && count > 0 && bs[k].free
    ensures var (bs', k') := Merge(bs, k, count);
      && (Clean(bs, k) ==> Clean(bs', k'))
      && (|| (k' == 0 && bs' == bs[..k])
          || (k' == k + 2 <= |bs'| && |bs'| <= |bs|)
          || (k' == k < |bs'| && |bs'| == |bs| - count))
    decreases count
  {
    if k + 1 < |bs| && !bs[k + 1].free {
      if Clean(bs, k) {
        CleanStepsOver(bs, k);
      }
    } else if k + 1 < |bs| {
      assert Joined(bs, k)[..k] == bs[..k];
      if count > 1 {
        MergeProgress(Joined(bs, k), k, count - 1);
      }
    }
  }

  lemma CleanStep(bs: seq<Header>, k: nat)
    requires Clean(bs, k) && k < |bs| && !bs[k].free
    ensures Clean(bs, k + 1)
  {
    var front := bs[..k + 1];
    forall i ensures !FreePair(front, i) {
      assert !FreePair(bs[..k], i);
    }
  }

  /** Each call that finds work left comes closer to having none. */
  lemma CollectProgress(bs: seq<Header>, k: nat)
    requires k <= |bs| && !Compact(bs)
    ensures var (bs', k') := Collect(bs, k); k' <= |bs'| && 0 <= Rank(bs', k') < Rank(bs, k)
  {
    assert bs[..|bs|] == bs && bs[..0] == [];
    if k < |bs| {
      if bs[k].free {
        MergeProgress(bs, k, 5);
        assert bs[..k][..0] == [];
      } else if Clean(bs, k) {
        CleanStep(bs, k);
      }
    }
  }

  /** Once everything is collected the collector only moves its scan. */
  lemma CollectKeepsCompact(bs: seq<Header>, k: nat)
    requires k <= |bs| && Compact(bs)
    ensures var (bs', k') := Collect(bs, k); bs' == bs && k' <= |bs'|
  {
    if k < |bs| && bs[k].free {
      assert k + 1 < |bs| && !FreePair(bs, k);
    }
  }

  /** `n` calls of the collector with no allocation and no free between them. */
  function Collects(bs: seq<Header>, k: nat, n: nat): (seq<Header>, nat)
    decreases n
  {
    if n == 0 then (bs, k) else var (bs', k') := Collect(bs, k); Collects(bs', k', n - 1)
  }

  lemma {:induction false} RankBoundsCalls(bs: seq<Header>, k: nat, n: nat)
    requires k <= |bs| && Rank(bs, k) <= n
    ensures Compact(Collects(bs, k, n).0)
    decreases n
  {
    if n > 0 {
      var (bs', k') := Collect(bs, k);
      if Compact(bs) {
        CollectKeepsCompact(bs, k);
      } else {
        CollectProgress(bs, k);
      }
      RankBoundsCalls(bs', k', n - 1);
    }
  }

  lemma {:induction false} CollectsKeepLive(at: nat, bs: seq<Header>, k: nat, n: nat)
    ensures Live(at, Collects(bs, k, n).0) == Live(at, bs)
    decreases n
  {
    if n > 0 {
      CollectKeepsLive(at, bs, k);
      CollectsKeepLive(at, Collect(bs, k).0, Collect(bs, k).1, n - 1);
    }
  }

  /** From any heap and any position of the scan, 4n + 3 calls of the collector on n blocks leave no two free
      blocks side by side and none at the end, although each call merges at most five; live blocks stay put. */
  lemma CollectorFinishes(at: nat, bs: seq<Header>, k: nat, n: nat)
    requires k <= |bs| && n >= 4 * |bs| + 3
    ensures Compact(Collects(bs, k, n).0)
    ensures Live(at, Collects(bs, k, n).0) == Live(at, bs)
  {
    RankBoundsCalls(bs, k, n);
    CollectsKeepLive(at, bs, k, n);
  }

  // ----- whole runs

  /** What the methods of `Heap` do to the sequence of blocks and the index of the scan. */
  datatype Op = Alloc(align: nat, size: nat) | Release(k: nat) | Scan

  ghost predicate Step(base: nat, s: (seq<Header>, nat), op: Op, s': (seq<Header>, nat)) {
    match op
    case Alloc(align, size) =>
      && PowerOfTwo(align)
      && var a := Effective(align); var head := Padding(a, base + Total(s.0));
         head >= 0 && s' == (s.0 + Appended(head, BlockSize(a, size)), s.1)
    case Release(k) => k < |s.0| && s' == (s.0[k := Header(s.0[k].size, true)], s.1)
    case Scan => s' == Collect(s.0, s.1)
  }

  /** Block (a, size) is released by this step. */
  ghost predicate Releases(base: nat, s: (seq<Header>, nat), op: Op, b: (nat, nat)) {
    op.Release? && op.k < |s.0| && base + Total(s.0[..op.k]) == b.0
  }

  lemma {:induction false} ReleaseKeepsOthers(at: nat, bs: seq<Header>, k: nat, b: (nat, nat))
    requires k < |bs| && b in Live(at, bs) && at + Total(bs[..k]) != b.0
    ensures b in Live(at, bs[k := Header(bs[k].size, true)])
    decreases k
  {
    var h := Header(bs[k].size, true);
    if k == 0 {
      assert bs[k := h][1..] == bs[1..];
      assert bs[..0] == [];
    } else {
      assert bs[k := h][1..] == bs[1..][k - 1 := h];
      assert bs[..k][1..] == bs[1..][..k - 1];
      if b in Live(at + bs[0].size, bs[1..]) {
        ReleaseKeepsOthers(at + bs[0].size, bs[1..], k - 1, b);
      }
    }
  }

  lemma StepKeepsLive(base: nat, s: (seq<Header>, nat), op: Op, s': (seq<Header>, nat), b: (nat, nat))
    requires Step(base, s, op, s') && b in Live(base, s.0) && !Releases(base, s, op, b)
    ensures b in Live(base, s'.0)
  {
    match op
    case Alloc(align, size) =>
      var a := Effective(align);
      LiveAppend(base, s.0, Appended(Padding(a, base + Total(s.0)), BlockSize(a, size)));
    case Release(k) => ReleaseKeepsOthers(base, s.0, k, b);
    case Scan => CollectKeepsLive(base, s.0, s.1);
  }

  /** In every run of allocations, releases and collector calls a block in use keeps its address and size
      until it is released. */
  lemma {:induction false} LiveUntilReleased(base: nat, r: seq<(seq<Header>, nat)>, ops: seq<Op>, b: (nat, nat), i: nat)
    requires |r| == |ops| + 1 && i < |r|
    requires forall j :: 0 <= j < |ops| ==> Step(base, r[j], ops[j], r[j + 1])
    requires b in Live(base, r[0].0)
    requires forall j :: 0 <= j < i ==> !Releases(base, r[j], ops[j], b)
    ensures b in Live(base, r[i].0)
    decreases i
  {
    if i > 0 {
      LiveUntilReleased(base, r, ops, b, i - 1);
      StepKeepsLive(base, r[i - 1], ops[i - 1], r[i], b);
    }
  }
}
