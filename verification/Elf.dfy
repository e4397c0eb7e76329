/** elf.c: the dynamic-symbol hash table, bucket heads and chains in one array of words.

    Index 0 of the symbol table is STN_UNDEF: it ends every chain and stands for "not found".
 */
module Elf {
  /** The characters of a C string in front of its NUL. */
  type Name = s: seq<bv8> | forall i :: 0 <= i < |s| ==> s[i] != 0

  /** An entry of the dynamic symbol table, its name resolved in the string table. */
  datatype Symbol = Symbol(name: Name, value: nat)

  const STN_UNDEF: nat := 0

  // ----- elf_hash

  function Fold(h: bv32): bv32 {
    var g := h & 0xF000_0000;
    (if g != 0 then h ^ (g >> 24) else h) & !g
  }

  function Mix(h: bv32, c: bv8): bv32 {
    Fold((h << 4) + (c as bv32))
  }

  function HashFrom(h: bv32, name: seq<bv8>): bv32
    decreases name
  {
    if name == [] then h else HashFrom(Mix(h, name[0]), name[1..])
  }

  function Key(name: seq<bv8>): nat {
    HashFrom(0, name) as nat
  }

  function BucketOf(name: seq<bv8>, nbucket: nat): (k: nat)
    requires nbucket > 0
    ensures k < nbucket
  {
    Key(name) % nbucket
  }

  lemma HashOfNothing(h: bv32)
    ensures HashFrom(h, []) == h
  {}

  lemma {:induction false} HashAppend(h: bv32, name: seq<bv8>, c: bv8)
    ensures HashFrom(h, name + [c]) == Mix(HashFrom(h, name), c)
    decreases name
  {
    hide Mix;
    if name == [] {
      assert name + [c] == [c];
    } else {
      HashAppend(Mix(h, name[0]), name[1..], c);
      assert (name + [c])[1..] == name[1..] + [c];
    }
  }

  /** The low 28 bits, what is above them brought in again at bit 4. */
  function BroughtBack(v: bv32): bv32 { (v & 0x0FFF_FFFF) ^ ((v >> 24) & 0xF0) }

  lemma FoldSmall(v: bv32) requires v & 0xF000_0000 == 0 ensures Fold(v) == v {}
  lemma SmallStays(v: bv32) requires v & 0xF000_0000 == 0 ensures BroughtBack(v) == v {}
  lemma FoldLarge(v: bv32) requires v & 0xF000_0000 != 0 ensures Fold(v) == BroughtBack(v) {}

  /** A character is added to sixteen times the hash; the test whether that pushes anything above bit 27 changes
      nothing. */
  lemma MixBringsBack(h: bv32, c: bv8)
    ensures Mix(h, c) == BroughtBack((h << 4) + (c as bv32))
  {
    hide Fold, BroughtBack;
    var v := (h << 4) + (c as bv32);
    if v & 0xF000_0000 == 0 {
      FoldSmall(v);
      SmallStays(v);
    } else {
      FoldLarge(v);
    }
  }

  lemma FoldIsNarrow(h: bv32)
    ensures Fold(h) & 0xF000_0000 == 0
  {}

  /** The hash of every name fits 28 bits, however long the name is. */
  lemma {:induction false} HashIsNarrow(h: bv32, name: seq<bv8>)
    requires h & 0xF000_0000 == 0
    ensures HashFrom(h, name) & 0xF000_0000 == 0
    decreases name
  {
    if name != [] {
      FoldIsNarrow((h << 4) + (name[0] as bv32));
      hide Fold;
      HashIsNarrow(Mix(h, name[0]), name[1..]);
    }
  }

  method Hash(name: Name) returns (h: bv32)
    ensures h == HashFrom(0, name)
    ensures h & 0xF000_0000 == 0
  {
    hide HashFrom, Fold;
    HashOfNothing(0);
    h := 0;
    var i := 0;
    while i < |name|
      invariant 0 <= i <= |name| && h == HashFrom(0, name[..i])
    {
      assert name[..i + 1] == name[..i] + [name[i]];
      HashAppend(0, name[..i], name[i]);
      h := Fold((h << 4) + (name[i] as bv32));
      i := i + 1;
    }
    assert name[..i] == name;
    HashIsNarrow(0, name);
  }

  /** key % nbucket, which both table operations start with. */
  method HashBucket(name: Name, nbucket: nat) returns (k: nat)
    requires nbucket > 0
    ensures k == BucketOf(name, nbucket)
  {
    hide HashFrom;
    var key := Hash(name);
    k := key as nat % nbucket;
  }

  // ----- the table as a list of names

  /** Linear search, newest first, that never looks at entry 0. */
  function Find(names: seq<Name>, name: Name): nat {
    if |names| <= 1 then STN_UNDEF
    else if names[|names| - 1] == name then |names| - 1
    else Find(names[..|names| - 1], name)
  }

  /** The newest entry of bucket `k`, entry 0 aside. */
  function Newest(names: seq<Name>, nbucket: nat, k: nat): nat
    requires nbucket > 0
  {
    if |names| <= 1 then STN_UNDEF
    else if BucketOf(names[|names| - 1], nbucket) == k then |names| - 1
    else Newest(names[..|names| - 1], nbucket, k)
  }

  /** What linear search finds: the newest entry of that name, if there is one beside entry 0. */
  lemma {:induction false} FindIff(names: seq<Name>, name: Name, y: nat)
    requires 0 < y < |names|
    ensures Find(names, name) == y <==>
            names[y] == name && forall j :: y < j < |names| ==> names[j] != name
    decreases names
  {
    var n := |names| - 1;
    FindIsSmall(names[..n], name);
    if names[n] != name && y < n {
      FindIff(names[..n], name, y);
      assert (forall j :: y < j < |names[..n]| ==> names[..n][j] != name) <==>
             (forall j :: y < j < |names| ==> names[j] != name) by {
        assert forall j :: y < j < n ==> names[..n][j] == names[j];
      }
    }
  }

  lemma {:induction false} FindIsSmall(names: seq<Name>, name: Name)
    ensures names != [] ==> Find(names, name) < |names|
    ensures names == [] ==> Find(names, name) == STN_UNDEF
    decreases names
  {
    if |names| > 1 {
      FindIsSmall(names[..|names| - 1], name);
    }
  }

  lemma {:induction false} NewestIsSmall(names: seq<Name>, nbucket: nat, k: nat)
    requires nbucket > 0
    ensures names != [] ==> Newest(names, nbucket, k) < |names|
    ensures names == [] ==> Newest(names, nbucket, k) == STN_UNDEF
    ensures Newest(names, nbucket, k) > 0 ==> BucketOf(names[Newest(names, nbucket, k)], nbucket) == k
    decreases names
  {
    if |names| > 1 {
      NewestIsSmall(names[..|names| - 1], nbucket, k);
    }
  }

  lemma NewestGrows(names: seq<Name>, name: Name, nbucket: nat, k: nat)
    requires nbucket > 0
    ensures Newest(names + [name], nbucket, k) ==
            if BucketOf(name, nbucket) == k then |names| else Newest(names, nbucket, k)
  {
    assert (names + [name])[..|names|] == names;
  }

  /** The link of entry `y`: the newest older entry of the same bucket. */
  function Older(names: seq<Name>, nbucket: nat, y: nat): nat
    requires nbucket > 0 && y < |names|
  {
    Newest(names[..y], nbucket, BucketOf(names[y], nbucket))
  }

  lemma OlderStays(names: seq<Name>, name: Name, nbucket: nat, y: nat)
    requires nbucket > 0 && y <= |names|
    ensures Older(names + [name], nbucket, y) ==
            if y < |names| then Older(names, nbucket, y) else Newest(names, nbucket, BucketOf(name, nbucket))
  {
    assert y < |names| ==> (names + [name])[..y] == names[..y];
    assert (names + [name])[..|names|] == names;
  }

  /** A name is found exactly when it was inserted other than as the first entry of the table. */
  lemma {:induction false} FoundIff(names: seq<Name>, name: Name)
    ensures Find(names, name) != STN_UNDEF <==> exists y :: 0 < y < |names| && names[y] == name
    decreases names
  {
    if |names| > 1 {
      var n := |names| - 1;
      FoundIff(names[..n], name);
      if names[n] != name {
        assert forall y :: 0 < y < n ==> names[..n][y] == names[y];
        if y :| 0 < y < |names| && names[y] == name {
          assert names[..n][y] == name;
        }
      } else {
        assert 0 < n < |names| && names[n] == name;
      }
    }
  }

  /** Only the bucket of a name matters to the search: it may start from the newest entry there. */
  lemma {:induction false} FindInBucket(names: seq<Name>, nbucket: nat, name: Name)
    requires nbucket > 0
    ensures var y := Newest(names, nbucket, BucketOf(name, nbucket));
      Find(names, name) ==
        if y == STN_UNDEF then STN_UNDEF
        else if y < |names| && names[y] == name then y
        else if y < |names| then Find(names[..y], name)
        else STN_UNDEF
    decreases names
  {
    var k := BucketOf(name, nbucket);
    if |names| > 1 {
      var n := |names| - 1;
      if BucketOf(names[n], nbucket) != k {
        NewestIsSmall(names[..n], nbucket, k);
        FindInBucket(names[..n], nbucket, name);
        var y := Newest(names[..n], nbucket, k);
        assert y > 0 ==> names[..n][y] == names[y] && names[..n][..y] == names[..y];
      }
    }
  }

  // ----- the table in memory

  class Table {
    const nbucket: nat
    var nchain: nat
    /** The words behind the header: `nbucket` heads, then one link per symbol. */
    const bucket: array<nat>
    ghost var names: seq<Name>

    ghost predicate Valid()
      reads this, bucket
    {
      && nbucket > 0 && nchain == |names| && nbucket + nchain <= bucket.Length
      && (forall k :: 0 <= k < nbucket ==> bucket[k] == Newest(names, nbucket, k))
      && (forall y :: 0 <= y < nchain ==> bucket[nbucket + y] == Older(names, nbucket, y))
    }

    /** elf_hashtable_init on room for `room` links. */
    constructor (nbucket: nat, room: nat)
      requires nbucket > 0
      ensures Valid() && names == [] && fresh(bucket)
      ensures this.nbucket == nbucket && bucket.Length == nbucket + room
    {
      this.nbucket := nbucket;
      nchain := 0;
      names := [];
      bucket := new nat[nbucket + room];
      new;
      var i := 0;
      while i < nbucket
        invariant 0 <= i <= nbucket && nchain == 0 && names == []
        invariant forall k :: 0 <= k < i ==> bucket[k] == STN_UNDEF
      {
        bucket[i] := STN_UNDEF;
        i := i + 1;
      }
    }

    /** elf_hashtable_insert. The source does not look for the end of the array: the caller leaves room. */
    method Insert(name: Name) returns (y: nat)
      requires Valid() && nbucket + nchain < bucket.Length
      modifies this`nchain, this`names, bucket
      ensures Valid() && names == old(names) + [name]
      ensures y == |old(names)|
    {
      var head := HashBucket(name, nbucket);
      hide BucketOf, Newest, Older;
      y := nchain;
      nchain := nchain + 1;
      bucket[nbucket + y] := bucket[head];
      bucket[head] := y;
      ghost var before := names;
      names := names + [name];
      forall k | 0 <= k < nbucket ensures bucket[k] == Newest(names, nbucket, k) {
        NewestGrows(before, name, nbucket, k);
      }
      forall j | 0 <= j < nchain ensures bucket[nbucket + j] == Older(names, nbucket, j) {
        OlderStays(before, name, nbucket, j);
      }
    }

    /** elf_hashtable_lookup: the bucket walk answers what newest-first linear search would. */
    method Lookup(name: Name, dynsym: seq<Symbol>) returns (v: nat)
      requires Valid() && |dynsym| >= nchain
      requires forall y :: 0 < y < nchain ==> dynsym[y].name == names[y]
      ensures var y := Find(names, name); y != STN_UNDEF ==> y < |dynsym| && v == dynsym[y].value
      ensures Find(names, name) == STN_UNDEF ==> v == 0
    {
      hide BucketOf, Find, Newest;
      var head := HashBucket(name, nbucket);
      var y := bucket[head];
      ghost var prefix := names;
      assert prefix == names[..nchain];
      FindIsSmall(names, name);
      while y < nchain && y != STN_UNDEF
        invariant Find(names, name) == Find(prefix, name)
        invariant |prefix| <= nchain && prefix == names[..|prefix|]
        invariant y == Newest(prefix, nbucket, BucketOf(name, nbucket))
        decreases |prefix|
      {
        NewestIsSmall(prefix, nbucket, BucketOf(name, nbucket));
        FindInBucket(prefix, nbucket, name);
        if dynsym[y].name == name {
          return dynsym[y].value;
        }
        assert prefix[..y] == names[..y] && prefix[y] == names[y];
        assert bucket[nbucket + y] == Older(names, nbucket, y);
        prefix := names[..y];
        y := bucket[nbucket + y];
      }
      NewestIsSmall(prefix, nbucket, BucketOf(name, nbucket));
      FindInBucket(prefix, nbucket, name);
      return 0;
    }
  }
}
