/** The extent free-list of the file system (r3_fs.c:93-256): what the list says, on values. */
module Extents {
  /** Blocks [offset, offset + size) of the volume. */
  datatype Ext = Ext(offset: nat, size: nat)
  {
    function End(): nat { offset + size }
  }

  predicate In(e: Ext, b: nat) { e.offset <= b < e.End() }

  predicate Free(s: seq<Ext>, b: nat) { exists i :: 0 <= i < |s| && In(s[i], b) }

  /** Sorted, no empty extent, none overlapping or touching the next. */
  predicate Good(s: seq<Ext>) {
    && (forall i :: 0 <= i < |s| ==> s[i].size > 0)
    && (forall i, j :: 0 <= i < j < |s| ==> s[i].End() < s[j].offset)
  }

  // ----- the list of a set of blocks is unique

  lemma StartIsFirst(s: seq<Ext>, b: nat)
    requires Good(s) && |s| > 0 && Free(s, b)
    ensures s[0].offset <= b
  {
    var i :| 0 <= i < |s| && In(s[i], b);
    if i > 0 { assert s[0].End() < s[i].offset; }
  }

  lemma SameHead(s: seq<Ext>, t: seq<Ext>)
    requires Good(s) && Good(t) && |s| > 0 && |t| > 0
    requires forall b: nat :: Free(s, b) ==> Free(t, b)
    requires forall b: nat :: Free(t, b) ==> Free(s, b)
    ensures s[0].offset == t[0].offset
  {
    assert In(s[0], s[0].offset) && In(t[0], t[0].offset);
    assert Free(s, s[0].offset) && Free(t, t[0].offset);
    StartIsFirst(t, s[0].offset);
    StartIsFirst(s, t[0].offset);
  }

  lemma GapAfterHead(s: seq<Ext>)
    requires Good(s) && |s| > 0
    ensures !Free(s, s[0].End())
  {
    forall i | 0 <= i < |s| ensures !In(s[i], s[0].End()) {
      if i > 0 { assert s[0].End() < s[i].offset; }
    }
  }

  lemma HeadNotLonger(s: seq<Ext>, t: seq<Ext>)
    requires Good(s) && Good(t) && |s| > 0 && |t| > 0 && s[0].offset == t[0].offset
    requires forall b: nat :: Free(t, b) ==> Free(s, b)
    ensures t[0].End() <= s[0].End()
  {
    GapAfterHead(s);
    if s[0].End() < t[0].End() {
      assert In(t[0], s[0].End());
      assert false;
    }
  }

  lemma TailBlocks(s: seq<Ext>, b: nat)
    requires Good(s) && |s| > 0
    ensures Free(s[1..], b) <==> Free(s, b) && !In(s[0], b)
  {
    var t := s[1..];
    if Free(t, b) {
      var i :| 0 <= i < |t| && In(t[i], b);
      assert s[i + 1] == t[i] && s[0].End() < s[i + 1].offset;
    }
    if Free(s, b) && !In(s[0], b) {
      var i :| 0 <= i < |s| && In(s[i], b);
      assert t[i - 1] == s[i];
    }
  }

  lemma HeadIsFree(s: seq<Ext>)
    requires Good(s) && |s| > 0
    ensures Free(s, s[0].offset)
  {
    assert In(s[0], s[0].offset);
  }

  /** Two well-formed lists over the same blocks are the same list. */
  lemma {:induction false} Canonical(s: seq<Ext>, t: seq<Ext>)
    requires Good(s) && Good(t)
    requires forall b: nat :: Free(s, b) ==> Free(t, b)
    requires forall b: nat :: Free(t, b) ==> Free(s, b)
    ensures s == t
  {
    if s == [] {
      if t != [] { HeadIsFree(t); }
    } else if t == [] {
      HeadIsFree(s);
    } else {
      SameHead(s, t);
      HeadNotLonger(s, t);
      HeadNotLonger(t, s);
      var s', t' := s[1..], t[1..];
      forall b: nat ensures (Free(s', b) ==> Free(t', b)) && (Free(t', b) ==> Free(s', b)) {
        TailBlocks(s, b);
        TailBlocks(t, b);
      }
      Canonical(s', t');
      assert s == [s[0]] + s' && t == [t[0]] + t';
    }
  }

  // ----- taking blocks out of one extent

  /** Blocks [from, from + n) leave extent i: nothing, its front, its back, its middle or all of it. */
  function Cut(s: seq<Ext>, i: nat, from: nat, n: nat): seq<Ext>
    requires i < |s| && s[i].offset <= from && from + n <= s[i].End()
  {
    var before := Ext(s[i].offset, from - s[i].offset);
    var after := Ext(from + n, s[i].End() - (from + n));
    s[..i] + (if before.size > 0 then [before] else []) + (if after.size > 0 then [after] else []) + s[i + 1..]
  }

  lemma CutGood(s: seq<Ext>, i: nat, from: nat, n: nat)
    requires Good(s) && i < |s| && s[i].offset <= from && from + n <= s[i].End()
    requires n > 0 || from == s[i].offset || from == s[i].End()
    ensures Good(Cut(s, i, from, n))
  {
    var t := Cut(s, i, from, n);
    var d := |t| - |s|;
    forall j | 0 <= j < |t|
      ensures t[j].size > 0
      ensures j < i ==> t[j] == s[j]
      ensures j > i + d ==> t[j] == s[j - d]
      ensures i <= j <= i + d ==> s[i].offset <= t[j].offset && t[j].End() <= s[i].End()
    {}
  }

  lemma FreeConcat(s: seq<Ext>, t: seq<Ext>, b: nat)
    ensures Free(s + t, b) <==> Free(s, b) || Free(t, b)
  {
    var u := s + t;
    if Free(s, b) { var i :| 0 <= i < |s| && In(s[i], b); assert u[i] == s[i]; }
    if Free(t, b) { var i :| 0 <= i < |t| && In(t[i], b); assert u[|s| + i] == t[i]; }
  }

  lemma FreeOne(e: Ext, b: nat)
    ensures Free([e], b) <==> In(e, b)
  {
    if In(e, b) { assert In([e][0], b); }
  }

  /** The blocks of a list, seen from extent i. */
  lemma FreeAround(s: seq<Ext>, i: nat, b: nat)
    requires Good(s) && i < |s|
    ensures Free(s, b) <==> Free(s[..i], b) || In(s[i], b) || Free(s[i + 1..], b)
    ensures Free(s[..i], b) ==> b < s[i].offset
    ensures Free(s[i + 1..], b) ==> s[i].End() < b
  {
    assert s == s[..i] + [s[i]] + s[i + 1..];
    FreeConcat(s[..i] + [s[i]], s[i + 1..], b);
    FreeConcat(s[..i], [s[i]], b);
    FreeOne(s[i], b);
    if Free(s[i + 1..], b) {
      var k :| 0 <= k < |s[i + 1..]| && In(s[i + 1..][k], b);
      assert s[i].End() < s[i + 1 + k].offset;
    }
  }

  lemma CutBlocks(s: seq<Ext>, i: nat, from: nat, n: nat, b: nat)
    requires Good(s) && i < |s| && s[i].offset <= from && from + n <= s[i].End()
    ensures Free(Cut(s, i, from, n), b) <==> Free(s, b) && !(from <= b < from + n)
  {
    hide Good, Free;
    FreeAround(s, i, b);
    var before := Ext(s[i].offset, from - s[i].offset);
    var after := Ext(from + n, s[i].End() - (from + n));
    var p := if before.size > 0 then [before] else [];
    var q := if after.size > 0 then [after] else [];
    FreeConcat(s[..i] + p + q, s[i + 1..], b);
    FreeConcat(s[..i] + p, q, b);
    FreeConcat(s[..i], p, b);
    FreeOne(before, b);
    FreeOne(after, b);
    FreeNone(b);
  }

  lemma FreeNone(b: nat)
    ensures !Free([], b)
  {}

  // ----- allocation (r3_fs.c:93-134)

  /** The first extent that starts at or after offset. */
  function AtOrAfter(s: seq<Ext>, offset: nat, from: nat := 0): (i: nat)
    requires from <= |s|
    ensures from <= i <= |s|
    ensures forall j :: from <= j < i ==> s[j].offset < offset
    ensures i < |s| ==> offset <= s[i].offset
    decreases |s| - from
  {
    if from < |s| && s[from].offset < offset then AtOrAfter(s, offset, from + 1) else from
  }

  /** The first extent of at least size blocks. */
  function FirstFit(s: seq<Ext>, size: nat, from: nat := 0): (i: nat)
    requires from <= |s|
    ensures from <= i <= |s|
    ensures forall j :: from <= j < i ==> s[j].size < size
    ensures i < |s| ==> size <= s[i].size
    decreases |s| - from
  {
    if from < |s| && s[from].size < size then FirstFit(s, size, from + 1) else from
  }

  /** Where the blocks are, how many were taken, how many the caller is told, and the list left. */
  datatype Allocated = Allocated(at: nat, taken: nat, told: nat, rest: seq<Ext>)

  /** Extent i without its first n blocks. */
  function DropFront(s: seq<Ext>, i: nat, n: nat): seq<Ext>
    requires i < |s| && n <= s[i].size
  {
    if n == s[i].size then s[..i] + s[i + 1..] else s[i := Ext(s[i].offset + n, s[i].size - n)]
  }

  /** told is what *actual_size holds before the call; the second search leaves it alone. */
  function Alloc(s: seq<Ext>, offset: nat, size: nat, told: nat): Allocated {
    var i := AtOrAfter(s, offset);
    if i < |s| && s[i].offset == offset then
      var n := if s[i].size <= size then s[i].size else size;
      Allocated(offset, n, n, DropFront(s, i, n))
    else
      var j := FirstFit(s, size);
      if j < |s| then Allocated(s[j].offset, size, told, DropFront(s, j, size))
      else Allocated(0, 0, 0, s)
  }

  /** An extent starts exactly at offset. */
  predicate StartsAt(s: seq<Ext>, offset: nat) { exists i :: 0 <= i < |s| && s[i].offset == offset }

  predicate Fits(s: seq<Ext>, size: nat) { exists i :: 0 <= i < |s| && size <= s[i].size }

  lemma DropFrontIsCut(s: seq<Ext>, i: nat, n: nat)
    requires i < |s| && n <= s[i].size
    ensures DropFront(s, i, n) == Cut(s, i, s[i].offset, n)
  {
    var t := DropFront(s, i, n);
    if n < s[i].size { assert t == s[..i] + [t[i]] + s[i + 1..]; }
  }

  lemma SeekFindsStart(s: seq<Ext>, offset: nat)
    requires Good(s)
    ensures StartsAt(s, offset) <==> var i := AtOrAfter(s, offset); i < |s| && s[i].offset == offset
  {
    var i := AtOrAfter(s, offset);
    forall k | i < k < |s| ensures s[k].offset > offset {
      assert s[i].End() < s[k].offset;
    }
  }

  /** What an allocation takes was free, and exactly that leaves the list, which stays well formed. */
  lemma AllocTakesFreeBlocks(s: seq<Ext>, offset: nat, size: nat, told: nat)
    requires Good(s)
    ensures var r := Alloc(s, offset, size, told);
      && Good(r.rest)
      && (forall b: nat :: r.at <= b < r.at + r.taken ==> Free(s, b))
      && (forall b: nat :: Free(r.rest, b) <==> Free(s, b) && !(r.at <= b < r.at + r.taken))
  {
    var r := Alloc(s, offset, size, told);
    var i := AtOrAfter(s, offset);
    var j := if i < |s| && s[i].offset == offset then i else FirstFit(s, size);
    if j < |s| {
      DropFrontIsCut(s, j, r.taken);
      CutGood(s, j, r.at, r.taken);
      forall b: nat ensures Free(r.rest, b) <==> Free(s, b) && !(r.at <= b < r.at + r.taken) {
        CutBlocks(s, j, r.at, r.taken, b);
      }
      forall b: nat | r.at <= b < r.at + r.taken ensures Free(s, b) {
        assert In(s[j], b);
      }
    }
  }

  /** Extent j is large enough, and those before it are not. */
  predicate IsFirstFit(s: seq<Ext>, j: nat, size: nat) {
    j < |s| && size <= s[j].size && forall i :: 0 <= i < j ==> s[i].size < size
  }

  /** How much an allocation takes and where, and when the caller is told so. */
  lemma AllocTakes(s: seq<Ext>, offset: nat, size: nat, told: nat)
    requires Good(s) && size > 0
    ensures var r := Alloc(s, offset, size, told);
      && (r.taken > 0 <==> StartsAt(s, offset) || Fits(s, size))
      && (StartsAt(s, offset) ==> r.at == offset && 0 < r.taken <= size)
      && (StartsAt(s, offset) && r.taken < size ==> !Free(s, offset + r.taken))
      && (!StartsAt(s, offset) && Fits(s, size) ==> r.taken == size && StartsAt(s, r.at))
      && (r.told == r.taken <==> StartsAt(s, offset) || !Fits(s, size) || told == size)
      && (!StartsAt(s, offset) && Fits(s, size) ==> exists j: nat :: IsFirstFit(s, j, size) && s[j].offset == r.at)
  {
    SeekFindsStart(s, offset);
    var i := AtOrAfter(s, offset);
    if i < |s| && s[i].offset == offset {
      assert StartsAt(s, offset);
      FreeAround(s, i, s[i].End());
      if Free(s[..i], s[i].End()) || Free(s[i + 1..], s[i].End()) { assert false; }
    } else {
      var j := FirstFit(s, size);
      if Fits(s, size) {
        var k :| 0 <= k < |s| && size <= s[k].size;
        assert IsFirstFit(s, j, size);
      }
    }
  }

  // ----- cropping (r3_fs.c:138-178)

  /** The first extent that holds offset or ends there. */
  function Around(s: seq<Ext>, offset: nat, from: nat := 0): (i: nat)
    requires from <= |s|
    ensures from <= i <= |s|
    ensures forall j :: from <= j < i ==> !(s[j].offset <= offset <= s[j].End())
    ensures i < |s| ==> s[i].offset <= offset <= s[i].End()
    decreases |s| - from
  {
    if from < |s| && !(s[from].offset <= offset <= s[from].End()) then Around(s, offset, from + 1) else from
  }

  /** The answer (0: done, 1: not found), *actual_size afterwards, and the list left. */
  datatype Cropped = Cropped(answer: nat, told: nat, rest: seq<Ext>)

  function Crop(s: seq<Ext>, offset: nat, size: nat): Cropped {
    var i := Around(s, offset);
    if i == |s| then Cropped(1, size, s)
    else if offset == s[i].offset then
      var n := if s[i].size <= size then s[i].size else size;
      Cropped(0, n, DropFront(s, i, n))
    else
      var front := Ext(s[i].offset, offset - s[i].offset);
      if s[i].End() == offset + size then Cropped(0, size, s[i := front])
      else if s[i].End() > offset + size then
        Cropped(0, size, s[..i] + [front, Ext(offset + size, s[i].End() - (offset + size))] + s[i + 1..])
      else Cropped(0, s[i].size - front.size, s[i := front])
  }

  /** An extent stops exactly before offset. */
  predicate EndsAt(s: seq<Ext>, offset: nat) { exists i :: 0 <= i < |s| && s[i].End() == offset }

  /** Offset is a block inside an extent and not its first. */
  predicate Inside(s: seq<Ext>, offset: nat) { exists i :: 0 <= i < |s| && s[i].offset < offset < s[i].End() }

  lemma CropIsCut(s: seq<Ext>, offset: nat, size: nat)
    ensures var r, i := Crop(s, offset, size), Around(s, offset);
            i < |s| ==> offset + r.told <= s[i].End() && r.rest == Cut(s, i, offset, r.told)
  {
    var r, i := Crop(s, offset, size), Around(s, offset);
    if i < |s| {
      if offset == s[i].offset {
        DropFrontIsCut(s, i, r.told);
      } else if |r.rest| == |s| {
        assert r.rest == s[..i] + [r.rest[i]] + s[i + 1..];
      }
    }
  }

  lemma AroundHits(s: seq<Ext>, offset: nat)
    requires Good(s)
    ensures Around(s, offset) < |s| <==> Free(s, offset) || EndsAt(s, offset)
  {
    hide Good;
    var i := Around(s, offset);
    if i < |s| {
      assert if offset < s[i].End() then In(s[i], offset) else s[i].End() == offset;
    }
  }

  lemma AroundTells(s: seq<Ext>, offset: nat)
    requires Good(s) && Around(s, offset) < |s|
    ensures var e := s[Around(s, offset)];
      && (Free(s, offset) <==> offset < e.End())
      && (EndsAt(s, offset) <==> offset == e.End())
      && (Inside(s, offset) <==> e.offset < offset < e.End())
      && !Free(s, e.End())
  {
    var i := Around(s, offset);
    FreeAround(s, i, offset);
    FreeAround(s, i, s[i].End());
    forall k | 0 <= k < |s| && k != i ensures s[k].End() < s[i].offset || s[i].End() < s[k].offset {}
  }

  lemma AroundFinds(s: seq<Ext>, offset: nat)
    requires Good(s)
    ensures var i := Around(s, offset);
      && (i < |s| <==> Free(s, offset) || EndsAt(s, offset))
      && (i < |s| ==> (Free(s, offset) <==> offset < s[i].End()) && (EndsAt(s, offset) <==> offset == s[i].End()))
      && (i < |s| ==> (Inside(s, offset) <==> s[i].offset < offset < s[i].End()) && !Free(s, s[i].End()))
  {
    AroundHits(s, offset);
    if Around(s, offset) < |s| { AroundTells(s, offset); }
  }

  /** What a crop takes is the free run from offset, as far as it goes and no more than size. */
  lemma CropTakes(s: seq<Ext>, offset: nat, size: nat)
    requires Good(s)
    ensures var r := Crop(s, offset, size);
      && (r.answer == 0 <==> Free(s, offset) || EndsAt(s, offset))
      && (r.answer != 0 ==> r == Cropped(1, size, s))
      && (r.answer == 0 ==>
            && r.told <= size
            && (forall b: nat :: offset <= b < offset + r.told ==> Free(s, b))
            && (r.told < size ==> !Free(s, offset + r.told))
            && (forall b: nat :: Free(r.rest, b) <==> Free(s, b) && !(offset <= b < offset + r.told)))
  {
    var r, i := Crop(s, offset, size), Around(s, offset);
    AroundFinds(s, offset);
    if i < |s| {
      CropIsCut(s, offset, size);
      forall b: nat ensures Free(r.rest, b) <==> Free(s, b) && !(offset <= b < offset + r.told) {
        CutBlocks(s, i, offset, r.told, b);
      }
      forall b: nat | offset <= b < offset + r.told ensures Free(s, b) {
        assert In(s[i], b);
      }
    }
  }

  /** The list stays well formed unless a crop of nothing falls inside an extent and splits it in two. */
  lemma CropGoodIff(s: seq<Ext>, offset: nat, size: nat)
    requires Good(s)
    ensures Good(Crop(s, offset, size).rest) <==> !(size == 0 && Inside(s, offset))
  {
    var r, i := Crop(s, offset, size), Around(s, offset);
    AroundFinds(s, offset);
    if i < |s| {
      CropIsCut(s, offset, size);
      if size == 0 && s[i].offset < offset < s[i].End() {
        assert r.rest[i].End() == r.rest[i + 1].offset;
      } else {
        CutGood(s, i, offset, r.told);
      }
    }
  }

  /** The answer tells whether offset was free, unless an extent ends exactly there: then it says 0 either way. */
  lemma CropAnswerIff(s: seq<Ext>, offset: nat, size: nat)
    requires Good(s)
    ensures (Crop(s, offset, size).answer == 0 <==> Free(s, offset)) <==> !EndsAt(s, offset)
  {
    AroundFinds(s, offset);
  }

  // ----- release (r3_fs.c:185-226)

  /** Where release stops: an extent that ends at offset, starts at offset + n, or lies beyond. */
  function Beside(s: seq<Ext>, offset: nat, n: nat, from: nat := 0): (i: nat)
    requires from <= |s|
    ensures from <= i <= |s|
    ensures forall j :: from <= j < i ==> s[j].End() != offset && s[j].offset != offset + n && s[j].offset <= offset
    ensures i < |s| ==> s[i].End() == offset || s[i].offset == offset + n || s[i].offset > offset
    decreases |s| - from
  {
    if from < |s| && s[from].End() != offset && s[from].offset != offset + n && s[from].offset <= offset
    then Beside(s, offset, n, from + 1)
    else from
  }

  /** The guard of the branch that joins two neighbours: the blocks fill the whole gap between them. */
  predicate Bridges(s: seq<Ext>, offset: nat, n: nat) {
    var i := Beside(s, offset, n);
    i + 1 < |s| && s[i].End() == offset && offset + n == s[i + 1].offset
  }

  datatype Released = Released(answer: nat, rest: seq<Ext>)

  /** Joining two neighbours leaves the second one, freed, in the list: it is never unlinked. */
  function Release(s: seq<Ext>, offset: nat, n: nat): Released {
    var i := Beside(s, offset, n);
    if i < |s| && s[i].End() == offset then
      var more := if Bridges(s, offset, n) then s[i + 1].size else 0;
      Released(0, s[i := Ext(s[i].offset, s[i].size + n + more)])
    else if i < |s| && s[i].offset == offset + n then
      Released(0, s[i := Ext(offset, n + s[i].size)])
    else
      Released(1, s[..i] + [Ext(offset, n)] + s[i..])
  }

  /** None of the blocks is free yet. */
  ghost predicate Held(s: seq<Ext>, offset: nat, n: nat) {
    forall b: nat :: offset <= b < offset + n ==> !Free(s, b)
  }

  lemma BesideGaps(s: seq<Ext>, offset: nat, n: nat)
    requires Good(s) && n > 0 && Held(s, offset, n)
    ensures var i := Beside(s, offset, n);
      && (forall j :: 0 <= j < i ==> s[j].End() < offset)
      && (forall j :: i < j < |s| ==> s[j].offset >= offset + n)
      && (forall j :: i + 1 < j < |s| ==> s[j].offset > offset + n)
      && (i < |s| && s[i].End() != offset ==> s[i].offset >= offset + n)
  {
    var i := Beside(s, offset, n);
    forall j | 0 <= j < |s| ensures s[j].End() <= offset || s[j].offset >= offset + n {
      if !(s[j].End() <= offset || s[j].offset >= offset + n) {
        var b := if s[j].offset < offset then offset else s[j].offset;
        assert In(s[j], b) && offset <= b < offset + n;
        assert Free(s, b);
      }
    }
    forall j | i + 1 < j < |s| ensures s[j].offset > offset + n {
      assert s[i].End() < s[i + 1].offset && s[i + 1].End() < s[j].offset;
    }
  }

  /** Extents i to j of the list replaced by one. */
  function Paste(s: seq<Ext>, i: nat, j: nat, e: Ext): seq<Ext>
    requires i <= j <= |s|
  {
    s[..i] + [e] + s[j..]
  }

  lemma PasteGood(s: seq<Ext>, i: nat, j: nat, e: Ext)
    requires Good(s) && i <= j <= |s| && e.size > 0
    ensures Good(Paste(s, i, j, e)) <==>
      && (forall k :: 0 <= k < i ==> s[k].End() < e.offset)
      && (forall k :: j <= k < |s| ==> e.End() < s[k].offset)
  {
    var t := Paste(s, i, j, e);
    var d := j - i - 1;
    forall k | 0 <= k < |t| ensures t[k] == if k < i then s[k] else if k == i then e else s[k + d] {}
    if Good(t) {
      forall k | 0 <= k < i ensures s[k].End() < e.offset { assert t[k].End() < t[i].offset; }
      forall k | j <= k < |s| ensures e.End() < s[k].offset { assert t[i].End() < t[k - d].offset; }
    }
  }

  lemma PasteBlocks(s: seq<Ext>, i: nat, j: nat, e: Ext, b: nat)
    requires i <= j <= |s|
    ensures Free(Paste(s, i, j, e), b) <==> Free(s[..i], b) || In(e, b) || Free(s[j..], b)
  {
    FreeConcat(s[..i] + [e], s[j..], b);
    FreeConcat(s[..i], [e], b);
    FreeOne(e, b);
  }

  /** The extent release leaves behind, and where the list goes on after it. */
  function Merged(s: seq<Ext>, offset: nat, n: nat): (r: (Ext, nat))
    ensures Beside(s, offset, n) <= r.1 <= |s|
  {
    var i := Beside(s, offset, n);
    if i < |s| && s[i].End() == offset then
      (Ext(s[i].offset, s[i].size + n + if Bridges(s, offset, n) then s[i + 1].size else 0), i + 1)
    else if i < |s| && s[i].offset == offset + n then (Ext(offset, n + s[i].size), i + 1)
    else (Ext(offset, n), i)
  }

  lemma SetIsPaste(s: seq<Ext>, i: nat, e: Ext)
    requires i < |s|
    ensures s[i := e] == Paste(s, i, i + 1, e)
  {
    var t := s[..i] + [e] + s[i + 1..];
    assert |t| == |s|;
    forall k | 0 <= k < |s| ensures s[i := e][k] == t[k] {}
  }

  lemma ReleaseIsPaste(s: seq<Ext>, offset: nat, n: nat)
    ensures var m := Merged(s, offset, n);
            Release(s, offset, n).rest == Paste(s, Beside(s, offset, n), m.1, m.0)
  {
    var i, m := Beside(s, offset, n), Merged(s, offset, n);
    if m.1 == i + 1 { SetIsPaste(s, i, m.0); }
  }

  lemma MergedNotEmpty(s: seq<Ext>, offset: nat, n: nat)
    requires n > 0
    ensures Merged(s, offset, n).0.size > 0
  {}

  lemma BridgedOverlaps(s: seq<Ext>, offset: nat, n: nat)
    requires Bridges(s, offset, n)
    ensures var i, m := Beside(s, offset, n), Merged(s, offset, n);
      i + 1 < |s| && m.1 == i + 1 && m.0.End() >= s[i + 1].offset
  {}

  lemma MergedFits(s: seq<Ext>, offset: nat, n: nat)
    requires Good(s) && n > 0 && Held(s, offset, n) && !Bridges(s, offset, n)
    ensures var i, m := Beside(s, offset, n), Merged(s, offset, n);
      && (forall k :: 0 <= k < i ==> s[k].End() < m.0.offset)
      && (forall k :: m.1 <= k < |s| ==> m.0.End() < s[k].offset)
  {
    BesideGaps(s, offset, n);
    hide Held, Free;
  }

  /** Release keeps the list well formed exactly when it does not have to join two neighbours. */
  lemma ReleaseGoodIff(s: seq<Ext>, offset: nat, n: nat)
    requires Good(s) && n > 0 && Held(s, offset, n)
    ensures Good(Release(s, offset, n).rest) <==> !Bridges(s, offset, n)
  {
    hide Held, Good, Paste, Release, Bridges, Merged;
    ReleaseIsPaste(s, offset, n);
    MergedNotEmpty(s, offset, n);
    var i, m := Beside(s, offset, n), Merged(s, offset, n);
    PasteGood(s, i, m.1, m.0);
    if Bridges(s, offset, n) { BridgedOverlaps(s, offset, n); } else { MergedFits(s, offset, n); }
  }

  lemma FreeFrom(s: seq<Ext>, i: nat, b: nat)
    requires i < |s|
    ensures Free(s[i..], b) <==> In(s[i], b) || Free(s[i + 1..], b)
  {
    assert s[i..] == [s[i]] + s[i + 1..];
    FreeConcat([s[i]], s[i + 1..], b);
    FreeOne(s[i], b);
  }

  lemma MergedBlocks(s: seq<Ext>, offset: nat, n: nat, b: nat)
    ensures var m := Merged(s, offset, n);
      In(m.0, b) || Free(s[m.1..], b) <==> offset <= b < offset + n || Free(s[Beside(s, offset, n)..], b)
  {
    hide Free;
    var i := Beside(s, offset, n);
    if i < |s| {
      FreeFrom(s, i, b);
      if i + 1 < |s| { FreeFrom(s, i + 1, b); }
    }
  }

  /** Either way the blocks of the list are the old ones and the released ones. */
  lemma ReleaseAdds(s: seq<Ext>, offset: nat, n: nat, b: nat)
    ensures Free(Release(s, offset, n).rest, b) <==> Free(s, b) || offset <= b < offset + n
  {
    hide Free;
    var i, m := Beside(s, offset, n), Merged(s, offset, n);
    ReleaseIsPaste(s, offset, n);
    PasteBlocks(s, i, m.1, m.0, b);
    MergedBlocks(s, offset, n, b);
    assert s == s[..i] + s[i..];
    FreeConcat(s[..i], s[i..], b);
  }

  lemma GapBefore(s: seq<Ext>, i: nat)
    requires Good(s) && i < |s| && s[i].offset > 0
    ensures !Free(s, s[i].offset - 1)
  {
    forall k | 0 <= k < |s| ensures !In(s[k], s[i].offset - 1) {
      if k < i { assert s[k].End() < s[i].offset; }
      if k > i { assert s[i].End() < s[k].offset; }
    }
  }

  /** The guard says that the blocks on both sides are free. */
  lemma BridgesMeans(s: seq<Ext>, offset: nat, n: nat)
    requires Good(s) && n > 0 && Held(s, offset, n)
    ensures Bridges(s, offset, n) <==> offset > 0 && Free(s, offset - 1) && Free(s, offset + n)
  {
    BesideGaps(s, offset, n);
    var i := Beside(s, offset, n);
    assert !Free(s, offset) && !Free(s, offset + n - 1);
    if Bridges(s, offset, n) {
      assert In(s[i], offset - 1) && In(s[i + 1], offset + n);
    }
    if offset > 0 && Free(s, offset - 1) && Free(s, offset + n) {
      var k :| 0 <= k < |s| && In(s[k], offset - 1);
      assert !In(s[k], offset);
      assert k == i;
      FreeAround(s, i, offset + n);
      var m :| 0 <= m < |s| && In(s[m], offset + n);
      assert !In(s[m], offset + n - 1);
    }
  }

  lemma AllocStarts(s: seq<Ext>, offset: nat, size: nat, told: nat)
    requires Good(s)
    ensures var r := Alloc(s, offset, size, told);
            r.taken > 0 && r.at > 0 ==> !Free(s, r.at - 1)
  {
    var i, j := AtOrAfter(s, offset), FirstFit(s, size);
    var r := Alloc(s, offset, size, told);
    if r.taken > 0 && r.at > 0 {
      if i < |s| && s[i].offset == offset { GapBefore(s, i); } else { GapBefore(s, j); }
    }
  }

  /** Giving back what was just allocated restores the very same list, whatever the list was. */
  lemma AllocThenRelease(s: seq<Ext>, offset: nat, size: nat, told: nat)
    requires Good(s)
    ensures var r := Alloc(s, offset, size, told);
            r.taken > 0 ==> Release(r.rest, r.at, r.taken).rest == s
  {
    var r := Alloc(s, offset, size, told);
    if r.taken > 0 {
      AllocTakesFreeBlocks(s, offset, size, told);
      AllocStarts(s, offset, size, told);
      BridgesMeans(r.rest, r.at, r.taken);
      Restores(s, r.rest, r.at, r.taken);
    }
  }

  lemma Restores(s: seq<Ext>, rest: seq<Ext>, at: nat, n: nat)
    requires Good(s) && Good(rest) && n > 0 && !Bridges(rest, at, n)
    requires forall b: nat :: at <= b < at + n ==> Free(s, b)
    requires forall b: nat :: Free(rest, b) <==> Free(s, b) && !(at <= b < at + n)
    ensures Release(rest, at, n).rest == s
  {
    ReleaseGoodIff(rest, at, n);
    var t := Release(rest, at, n).rest;
    forall b: nat ensures (Free(s, b) ==> Free(t, b)) && (Free(t, b) ==> Free(s, b)) {
      ReleaseAdds(rest, at, n, b);
    }
    Canonical(s, t);
  }

  /** Giving back what was just cropped restores the list exactly when the crop did not split an extent. */
  lemma CropThenReleaseIff(s: seq<Ext>, offset: nat, size: nat)
    requires Good(s)
    ensures var r := Crop(s, offset, size);
            r.answer == 0 && r.told > 0 ==>
              (Release(r.rest, offset, r.told).rest == s
               <==> !(offset > 0 && Free(s, offset - 1) && Free(s, offset + r.told)))
  {
    var r := Crop(s, offset, size);
    if r.answer == 0 && r.told > 0 {
      CropTakes(s, offset, size);
      CropGoodIff(s, offset, size);
      BridgesMeans(r.rest, offset, r.told);
      if Bridges(r.rest, offset, r.told) {
        ReleaseGoodIff(r.rest, offset, r.told);
      } else {
        Restores(s, r.rest, offset, r.told);
      }
    }
  }

  // Inputs on which the code misses what it means to do.

  /** Joining two neighbours lists block 2 twice. */
  lemma ReleaseMisses()
    ensures !Good(Release([Ext(0, 1), Ext(2, 1)], 1, 1).rest)
  {
    var s := [Ext(0, 1), Ext(2, 1)];
    assert Beside(s, 1, 1) == 0;
    var t := Release(s, 1, 1).rest;
    assert t[0].End() == t[1].End();
  }

  /** A block is taken from the first fit and the caller is told of none. */
  lemma AllocMisses()
    ensures var r := Alloc([Ext(0, 1)], 5, 1, 0); r.taken == 1 && r.told == 0
  {
    assert AtOrAfter([Ext(0, 1)], 5) == 1;
  }

  /** Nothing is free at block 1 and the crop reports success. */
  lemma CropMisses()
    ensures !Free([Ext(0, 1)], 1) && Crop([Ext(0, 1)], 1, 1).answer == 0
  {
    assert Around([Ext(0, 1)], 1) == 0;
  }

  // ----- runs over a whole volume

  /** The free list and the blocks that somebody holds. */
  datatype Volume = Volume(free: seq<Ext>, held: set<nat>)

  datatype Step =
    | Take(offset: nat, size: nat, told: nat)
    | Claim(offset: nat, size: nat)
    | GiveBack(offset: nat, n: nat)

  function Range(offset: nat, n: nat): (r: set<nat>)
    ensures forall b: nat :: b in r <==> offset <= b < offset + n
    decreases n
  {
    if n == 0 then {} else {offset} + Range(offset + 1, n - 1)
  }

  /** Every block of the volume is free or held, and none is both. */
  ghost predicate Conserved(v: Volume, blocks: nat) {
    forall b: nat :: (Free(v.free, b) <==> b < blocks && b !in v.held) && (b in v.held ==> b < blocks)
  }

  function Apply(v: Volume, step: Step): Volume {
    match step
    case Take(offset, size, told) =>
      var r := Alloc(v.free, offset, size, told);
      Volume(r.rest, v.held + Range(r.at, r.taken))
    case Claim(offset, size) =>
      var r := Crop(v.free, offset, size);
      Volume(r.rest, if r.answer == 0 then v.held + Range(offset, r.told) else v.held)
    case GiveBack(offset, n) =>
      Volume(Release(v.free, offset, n).rest, v.held - Range(offset, n))
  }

  /** Callers give back what they hold. */
  predicate Allowed(v: Volume, step: Step) {
    step.GiveBack? ==> step.n > 0 && Range(step.offset, step.n) <= v.held
  }

  /** The call meets neither the branch that joins two neighbours nor a crop of nothing inside an extent. */
  predicate Clean(v: Volume, step: Step) {
    match step
    case Take(_, _, _) => true
    case Claim(offset, size) => !(size == 0 && Inside(v.free, offset))
    case GiveBack(offset, n) => !Bridges(v.free, offset, n)
  }

  lemma StepConserves(v: Volume, step: Step, blocks: nat)
    requires Good(v.free) && Conserved(v, blocks) && Allowed(v, step)
    ensures Conserved(Apply(v, step), blocks)
  {
    match step
    case Take(offset, size, told) => AllocTakesFreeBlocks(v.free, offset, size, told);
    case Claim(offset, size) => CropTakes(v.free, offset, size);
    case GiveBack(offset, n) =>
      var v' := Apply(v, step);
      forall b: nat
        ensures Free(v'.free, b) <==> b < blocks && b !in v'.held
        ensures b in v'.held ==> b < blocks
      {
        ReleaseAdds(v.free, offset, n, b);
        if offset <= b < offset + n { assert b in Range(offset, n); }
      }
  }

  lemma StepGoodIff(v: Volume, step: Step, blocks: nat)
    requires Good(v.free) && Conserved(v, blocks) && Allowed(v, step)
    ensures Good(Apply(v, step).free) <==> Clean(v, step)
  {
    match step
    case Take(offset, size, told) => AllocTakesFreeBlocks(v.free, offset, size, told);
    case Claim(offset, size) => CropGoodIff(v.free, offset, size);
    case GiveBack(offset, n) =>
      assert forall b: nat :: offset <= b < offset + n ==> b in Range(offset, n);
      ReleaseGoodIff(v.free, offset, n);
  }

  ghost predicate AllowedRun(v: Volume, steps: seq<Step>)
    decreases |steps|
  {
    steps != [] ==> Allowed(v, steps[0]) && AllowedRun(Apply(v, steps[0]), steps[1..])
  }

  ghost predicate CleanRun(v: Volume, steps: seq<Step>)
    decreases |steps|
  {
    steps != [] ==> Clean(v, steps[0]) && CleanRun(Apply(v, steps[0]), steps[1..])
  }

  /** The list is well formed, and free and held blocks make up the volume, after every step. */
  ghost predicate SoundRun(v: Volume, steps: seq<Step>, blocks: nat)
    decreases |steps|
  {
    Good(v.free) && Conserved(v, blocks) && (steps != [] ==> SoundRun(Apply(v, steps[0]), steps[1..], blocks))
  }

  /** Over any sequence of calls: sound throughout exactly when none of them meets one of the two branches. */
  lemma {:induction false} RunSoundIff(v: Volume, steps: seq<Step>, blocks: nat)
    requires Good(v.free) && Conserved(v, blocks) && AllowedRun(v, steps)
    ensures SoundRun(v, steps, blocks) <==> CleanRun(v, steps)
    decreases |steps|
  {
    if steps != [] {
      StepConserves(v, steps[0], blocks);
      StepGoodIff(v, steps[0], blocks);
      if Clean(v, steps[0]) { RunSoundIff(Apply(v, steps[0]), steps[1..], blocks); }
    }
  }

  // ----- the fragments of a file (r3_fs.c:233-256), last fragment first

  function Run(e: Ext): seq<nat> { seq(e.size, i requires 0 <= i => e.offset + i) }

  /** The blocks of a file in file order. */
  function FileBlocks(l: seq<Ext>): seq<nat> {
    if l == [] then [] else FileBlocks(l[1..]) + Run(l[0])
  }

  function Append(l: seq<Ext>, offset: nat, n: nat): seq<Ext> {
    if l != [] && l[0].End() == offset then l[0 := Ext(l[0].offset, l[0].size + n)] else [Ext(offset, n)] + l
  }

  /** No two fragments that follow each other in the file could be one. */
  predicate Maximal(l: seq<Ext>) { forall i :: 0 <= i < |l| - 1 ==> l[i + 1].End() != l[i].offset }

  lemma AppendAddsLast(l: seq<Ext>, offset: nat, n: nat)
    ensures FileBlocks(Append(l, offset, n)) == FileBlocks(l) + Run(Ext(offset, n))
    ensures Maximal(l) ==> Maximal(Append(l, offset, n))
  {
    var t := Append(l, offset, n);
    if l != [] && l[0].End() == offset {
      assert t[1..] == l[1..];
      assert Run(t[0]) == Run(l[0]) + Run(Ext(offset, n));
      assert FileBlocks(l[1..]) + (Run(l[0]) + Run(Ext(offset, n))) == FileBlocks(l) + Run(Ext(offset, n));
    } else {
      assert t[1..] == l;
    }
  }
}
