/** The same list as the code keeps it: extents linked through next, changed in place. */
module RfsVectors {
  import opened Chains
  import opened Extents

  class Extent {
    var offset: nat
    var size: nat
    var next: Extent?

    constructor (offset: nat, size: nat, next: Extent?)
      ensures this.offset == offset && this.size == size && this.next == next
    {
      this.offset, this.size, this.next := offset, size, next;
    }
  }

  ghost function Nth(ns: seq<Extent>, i: nat): Extent? { if i < |ns| then ns[i] else null }

  /** Node i holds extent i and leads to node i + 1. */
  ghost predicate InPlace(ns: seq<Extent>, exts: seq<Ext>, i: nat)
    requires i < |ns| == |exts|
    reads ns
  {
    ns[i].next == Nth(ns, i + 1) && ns[i].offset == exts[i].offset && ns[i].size == exts[i].size
  }

  ghost predicate Linked(ns: seq<Extent>, exts: seq<Ext>)
    reads ns
  {
    |exts| == |ns| && forall i :: 0 <= i < |ns| ==> InPlace(ns, exts, i)
  }

  function RemoveAt<T>(s: seq<T>, i: nat): (r: seq<T>)
    requires i < |s|
    ensures |r| == |s| - 1
    ensures forall k :: 0 <= k < |r| ==> r[k] == s[if k < i then k else k + 1]
  {
    s[..i] + s[i + 1..]
  }

  lemma Without(ns: seq<Extent>, i: nat)
    requires Distinct(ns) && i < |ns|
    ensures Distinct(RemoveAt(ns, i)) && ns[i] !in RemoveAt(ns, i)
  {}

  lemma With(ns: seq<Extent>, i: nat, n: Extent)
    requires Distinct(ns) && i <= |ns| && n !in ns
    ensures Distinct(InsertAt(ns, i, n))
  {}

  class Space {
    var head: Extent?
    ghost var nodes: seq<Extent>
    ghost var contents: seq<Ext>
    // extents given back to the slice allocator
    ghost var freed: set<Extent>

    /** The extents reached from head, in order, each once. */
    ghost predicate Valid()
      reads this, nodes
    {
      Distinct(nodes) && head == Nth(nodes, 0) && Linked(nodes, contents)
    }

    ghost function Before(i: nat): Extent?
      requires i <= |nodes|
      reads this
    {
      if i == 0 then null else nodes[i - 1]
    }

    /** No extent of the list was freed. */
    ghost predicate Alive()
      reads this
    {
      forall i :: 0 <= i < |nodes| ==> nodes[i] !in freed
    }

    constructor ()
      ensures Valid() && Alive() && contents == []
    {
      head, nodes, contents, freed := null, [], [], {};
    }

    /** *prev = target, where prev null stands for the head of the list. */
    method Link(prev: Extent?, ghost i: nat, target: Extent?)
      requires Distinct(nodes) && i <= |nodes| && prev == Before(i)
      modifies this`head, nodes`next
      ensures head == if i == 0 then target else old(head)
      ensures forall k :: 0 <= k < |nodes| ==> nodes[k].next == if k + 1 == i then target else old(nodes[k].next)
    {
      if prev == null { head := target; } else { prev.next := target; }
    }

    /** Takes extent i out of the list and frees it; prev is the one before it, null at the head. */
    method Unlink(prev: Extent?, vec: Extent, ghost i: nat)
      requires Valid() && Alive() && i < |nodes| && nodes[i] == vec && prev == Before(i)
      modifies this, nodes
      ensures Valid() && Alive()
      ensures i < |old(contents)| && contents == RemoveAt(old(contents), i)
    {
      hide Distinct, RemoveAt, InsertAt;
      ghost var all, exts := nodes, contents;
      assert i < |all| ==> InPlace(all, exts, i);
      Without(all, i);
      Link(prev, i, vec.next);
      freed := freed + {vec};
      nodes, contents := RemoveAt(all, i), RemoveAt(exts, i);
      forall k | 0 <= k < |nodes| ensures InPlace(nodes, contents, k) {
        assert old(InPlace(all, exts, if k < i then k else k + 1));
      }
    }

    /** Links a new extent in before position i. */
    method Insert(prev: Extent?, vec: Extent?, ghost i: nat, offset: nat, size: nat)
      requires Valid() && Alive() && i <= |nodes| && Nth(nodes, i) == vec && prev == Before(i)
      modifies this, nodes
      ensures Valid() && Alive()
      ensures i <= |old(contents)| && contents == InsertAt(old(contents), i, Ext(offset, size))
      ensures |nodes| == |old(nodes)| + 1 && Nth(nodes, i + 1) == vec
    {
      hide Distinct, RemoveAt, InsertAt;
      ghost var all, exts := nodes, contents;
      assert i < |all| ==> InPlace(all, exts, i);
      var vector := new Extent(offset, size, vec);
      With(all, i, vector);
      Link(prev, i, vector);
      nodes, contents := InsertAt(all, i, vector), InsertAt(exts, i, Ext(offset, size));
      forall k | 0 <= k < |nodes| ensures InPlace(nodes, contents, k) {
        if k != i { assert old(InPlace(all, exts, if k < i then k else k - 1)); }
      }
    }

    /** Gives extent i other bounds. */
    method Resize(vec: Extent, ghost i: nat, offset: nat, size: nat)
      requires Valid() && i < |nodes| && nodes[i] == vec
      modifies this`contents, vec`offset, vec`size
      ensures Valid() && (Alive() <==> old(Alive()))
      ensures contents == old(contents[i := Ext(offset, size)])
    {
      ghost var exts := contents;
      vec.offset, vec.size := offset, size;
      contents := contents[i := Ext(offset, size)];
      forall k | 0 <= k < |nodes| ensures InPlace(nodes, contents, k) {
        assert old(InPlace(nodes, exts, k));
      }
    }

    /** vec is extent i of the list, or null at its end, and prev the one before it. */
    ghost predicate At(prev: Extent?, vec: Extent?, i: nat)
      requires i <= |nodes| == |contents|
      reads this, nodes
    {
      && prev == Before(i)
      && vec == Nth(nodes, i)
      && (vec != null ==> InPlace(nodes, contents, i))
    }

    /** Takes the first n blocks of extent i, and the extent itself when nothing is left. */
    method TakeFront(prev: Extent?, vec: Extent, ghost i: nat, n: nat)
      requires Valid() && Alive() && i < |nodes| == |contents| && At(prev, vec, i) && n <= vec.size
      modifies this, nodes
      ensures Valid() && Alive() && contents == DropFront(old(contents), i, n)
    {
      if n == vec.size {
        Unlink(prev, vec, i);
      } else {
        Resize(vec, i, vec.offset + n, vec.size - n);
      }
    }

    /** The first extent at or after offset. */
    method SeekStart(offset: nat) returns (prev: Extent?, vec: Extent?, ghost i: nat)
      requires Valid()
      ensures |contents| == |nodes| && i == AtOrAfter(contents, offset) <= |nodes|
      ensures At(prev, vec, i)
    {
      prev, vec, i := null, head, 0;
      assert |nodes| > 0 ==> InPlace(nodes, contents, 0);
      while vec != null && vec.offset < offset
        invariant i <= |nodes| && At(prev, vec, i)
        invariant AtOrAfter(contents, offset) == AtOrAfter(contents, offset, i)
        decreases |nodes| - i
      {
        prev, vec, i := vec, vec.next, i + 1;
        assert i < |nodes| ==> InPlace(nodes, contents, i);
      }
    }

    /** The first extent large enough. */
    method SeekFit(size: nat) returns (prev: Extent?, vec: Extent?, ghost i: nat)
      requires Valid()
      ensures |contents| == |nodes| && i == FirstFit(contents, size) <= |nodes|
      ensures At(prev, vec, i)
    {
      prev, vec, i := null, head, 0;
      assert |nodes| > 0 ==> InPlace(nodes, contents, 0);
      while vec != null && vec.size < size
        invariant i <= |nodes| && At(prev, vec, i)
        invariant FirstFit(contents, size) == FirstFit(contents, size, i)
        decreases |nodes| - i
      {
        prev, vec, i := vec, vec.next, i + 1;
        assert i < |nodes| ==> InPlace(nodes, contents, i);
      }
    }

    /** rfs_vector_alloc: takes the front of the extent at offset, else of the first extent large enough. */
    method Alloc(offset: nat, size: nat, actual: nat) returns (at: nat, actual': nat)
      requires Valid() && Alive()
      modifies this, nodes
      ensures Valid() && Alive()
      ensures var r := Extents.Alloc(old(contents), offset, size, actual);
              at == r.at && actual' == r.told && contents == r.rest
    {
      hide Valid, Alive, DropFront, AtOrAfter, FirstFit;
      var prev, vec, i := SeekStart(offset);
      if vec != null && vec.offset == offset {
        var n := if vec.size <= size then vec.size else size;
        TakeFront(prev, vec, i, n);
        return offset, n;
      }
      prev, vec, i := SeekFit(size);
      if vec == null {
        return 0, 0;
      }
      at := vec.offset;
      TakeFront(prev, vec, i, size);
      return at, actual;
    }

    /** The first extent that holds offset or ends there. */
    method SeekAround(offset: nat) returns (prev: Extent?, vec: Extent?, ghost i: nat)
      requires Valid()
      ensures |contents| == |nodes| && i == Around(contents, offset) <= |nodes|
      ensures At(prev, vec, i)
    {
      prev, vec, i := null, head, 0;
      assert |nodes| > 0 ==> InPlace(nodes, contents, 0);
      while vec != null && (offset > vec.offset + vec.size || offset < vec.offset)
        invariant i <= |nodes| && At(prev, vec, i)
        invariant Around(contents, offset) == Around(contents, offset, i)
        decreases |nodes| - i
      {
        prev, vec, i := vec, vec.next, i + 1;
        assert i < |nodes| ==> InPlace(nodes, contents, i);
      }
    }

    /** rfs_vector_crop: takes the given blocks out of the extent around them. */
    method Crop(offset: nat, actual: nat) returns (answer: nat, actual': nat)
      requires Valid() && Alive()
      modifies this, nodes
      ensures Valid() && Alive()
      ensures Cropped(answer, actual', contents) == Extents.Crop(old(contents), offset, actual)
    {
      hide Valid, Alive, DropFront, Around;
      var size := actual;
      var prev, vec, i := SeekAround(offset);
      if vec == null {
        return 1, actual;
      }
      actual' := actual;
      if offset == vec.offset {
        if vec.size <= size { actual' := vec.size; }
        TakeFront(prev, vec, i, actual');
      } else if vec.offset + vec.size == offset + size {
        Resize(vec, i, vec.offset, vec.size - size);
      } else if vec.offset + vec.size > offset + size {
        var front := offset - vec.offset;
        SplitAt(prev, vec, i, front, size);
      } else {
        size := offset - vec.offset;
        actual' := vec.size - size;
        Resize(vec, i, vec.offset, size);
      }
      return 0, actual';
    }

    /** Keeps the first front blocks of extent i in an extent of their own and drops the next size. */
    method SplitAt(prev: Extent?, vec: Extent, ghost i: nat, front: nat, size: nat)
      requires Valid() && Alive() && i < |nodes| == |contents| && At(prev, vec, i) && front + size <= vec.size
      modifies this, nodes
      ensures Valid() && Alive() && i < |old(contents)|
      ensures var s := old(contents);
              var rest := Ext(s[i].offset + front + size, s[i].size - front - size);
              contents == s[..i] + [Ext(s[i].offset, front), rest] + s[i + 1..]
    {
      hide Valid, Alive;
      var end := vec.offset + vec.size;
      var from := vec.offset + front + size;
      Insert(prev, vec, i, vec.offset, front);
      Resize(vec, i + 1, from, end - from);
    }

    /** The extent to join the blocks to, or before which they go. */
    method SeekBeside(offset: nat, size: nat) returns (prev: Extent?, vec: Extent?, ghost i: nat)
      requires Valid()
      ensures |contents| == |nodes| && i == Beside(contents, offset, size) <= |nodes|
      ensures At(prev, vec, i)
    {
      prev, vec, i := null, head, 0;
      assert |nodes| > 0 ==> InPlace(nodes, contents, 0);
      while vec != null && vec.offset + vec.size != offset && vec.offset != offset + size && vec.offset <= offset
        invariant i <= |nodes| && At(prev, vec, i)
        invariant Beside(contents, offset, size) == Beside(contents, offset, size, i)
        decreases |nodes| - i
      {
        prev, vec, i := vec, vec.next, i + 1;
        assert i < |nodes| ==> InPlace(nodes, contents, i);
      }
    }

    /** rfs_vector_release: a freed extent stays linked exactly when two neighbours had to be joined. */
    method Release(offset: nat, size: nat) returns (answer: nat)
      requires Valid() && Alive()
      modifies this, nodes
      ensures Valid()
      ensures Released(answer, contents) == Extents.Release(old(contents), offset, size)
      ensures Alive() <==> !Bridges(old(contents), offset, size)
    {
      hide Valid, Alive, Beside;
      var prev, vec, i := SeekBeside(offset, size);
      if vec != null && vec.offset + vec.size == offset {
        JoinAfter(vec, i, offset, size);
        return 0;
      }
      if vec != null && vec.offset == offset + size {
        Resize(vec, i, offset, vec.size + size);
        return 0;
      }
      Insert(prev, vec, i, offset, size);
      return 1;
    }

    /** Extends extent i over the blocks and over the next extent if they meet; that one is freed but not unlinked. */
    method JoinAfter(vec: Extent, ghost i: nat, ghost offset: nat, size: nat)
      requires Valid() && Alive() && i < |nodes| == |contents| && nodes[i] == vec && contents[i].End() == offset
      modifies this, nodes
      ensures Valid() && i < |old(contents)|
      ensures var s := old(contents);
        && var meets := i + 1 < |s| && offset + size == s[i + 1].offset;
        && contents == s[i := Ext(s[i].offset, s[i].size + size + if meets then s[i + 1].size else 0)]
        && (Alive() <==> !meets)
    {
      assert InPlace(nodes, contents, i);
      Resize(vec, i, vec.offset, vec.size + size);
      assert InPlace(nodes, contents, i);
      assert i + 1 < |nodes| ==> InPlace(nodes, contents, i + 1);
      var next := vec.next;
      if next != null && vec.offset + vec.size == next.offset {
        Resize(vec, i, vec.offset, vec.size + next.size);
        freed := freed + {next};
        assert nodes[i + 1] == next;
      }
    }

    /** rfs_vector_append, on the list of a file: the blocks follow the last fragment. */
    method Append(offset: nat, size: nat)
      requires Valid() && Alive()
      modifies this, nodes
      ensures Valid() && Alive()
      ensures FileBlocks(contents) == FileBlocks(old(contents)) + Run(Ext(offset, size))
      ensures Maximal(old(contents)) ==> Maximal(contents)
    {
      ghost var l := contents;
      var vec := head;
      assert |nodes| > 0 ==> InPlace(nodes, contents, 0);
      if vec != null && vec.offset + vec.size == offset {
        Resize(vec, 0, vec.offset, vec.size + size);
      } else {
        Insert(null, vec, 0, offset, size);
      }
      assert contents == Extents.Append(l, offset, size);
      AppendAddsLast(l, offset, size);
    }

    /** rfs_vector_next: 0 exactly when the block is in the list. */
    method Next(block: nat) returns (answer: nat)
      requires Valid()
      ensures answer == if Extents.Free(contents, block) then 0 else 1
    {
      var vec := head;
      ghost var i := 0;
      while vec != null
        invariant i <= |nodes| && vec == Nth(nodes, i)
        invariant forall j :: 0 <= j < i ==> !In(contents[j], block)
        decreases |nodes| - i
      {
        assert InPlace(nodes, contents, i);
        if vec.offset <= block && block < vec.offset + vec.size {
          assert In(contents[i], block);
          return 0;
        }
        vec, i := vec.next, i + 1;
      }
      return 1;
    }
  }
}
