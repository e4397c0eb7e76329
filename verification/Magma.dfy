/** magma.c: the 64-bit block cipher of GOST R 34.12-2015 and the streaming MAC of GOST R 34.13-2015, section 5.6,
    which is the CMAC of NIST SP 800-38B, section 6.2. */
module Magma {
  import opened Bits

  // ----- the round function (magma.c:18-67)

  /** Row i of the substitution, entry 0 in the lowest four bits. */
  function SRow(i: nat): bv64
    requires i < 8
  {
    if i == 0 then 0x1F30_7D8E_9B5A_264C
    else if i == 1 then 0xF0DB_74E1_C5A9_3286
    else if i == 2 then 0x069C_471E_DAF2_853B
    else if i == 3 then 0xB9E3_5A07_6F4D_128C
    else if i == 4 then 0xC24B_E390_D618_A5F7
    else if i == 5 then 0x0E34_187B_AC29_6FD5
    else if i == 6 then 0x73AD_0B4F_C196_52E8
    else 0x2BC9_6AF4_3850_DE71
  }

  // Bit fields are taken out and put in four bits at a time.
  function Lowest(a: bv32): bv32 { a & 0xF }
  function Rest(a: bv32): bv32 { a >> 4 }
  function Up(a: bv32): bv32 { a << 4 }
  function Fill(a: bv32): bv32 { Up(a) | 0xF }

  /** a >> (4 * i) */
  function Shifted(a: bv32, i: nat): bv32 { if i == 0 then a else Rest(Shifted(a, i - 1)) }

  /** e << (4 * i) */
  function Put(e: bv32, i: nat): bv32 { if i == 0 then e else Up(Put(e, i - 1)) }

  function Nibble(a: bv32, i: nat): bv32
    requires i < 8
  {
    Lowest(Shifted(a, i))
  }

  /** Entry x of row i. */
  function Entry(i: nat, x: bv32): bv32
    requires i < 8 && x <= 0xF
  {
    ((SRow(i) >> (4 * (x as bv64))) & 0xF) as bv32
  }

  /** The substitutions of GOST R 34.12-2015, section 5.1.1, entry by entry. */
  function Pi(i: nat): seq<bv32>
    requires i < 8
  {
    if i == 0 then [12, 4, 6, 2, 10, 5, 11, 9, 14, 8, 13, 7, 0, 3, 15, 1]
    else if i == 1 then [6, 8, 2, 3, 9, 10, 5, 12, 1, 14, 4, 7, 11, 13, 0, 15]
    else if i == 2 then [11, 3, 5, 8, 2, 15, 10, 13, 14, 1, 7, 4, 12, 9, 6, 0]
    else if i == 3 then [12, 8, 2, 1, 13, 4, 15, 6, 7, 0, 10, 5, 3, 14, 9, 11]
    else if i == 4 then [7, 15, 5, 10, 8, 1, 6, 13, 0, 9, 3, 14, 11, 4, 2, 12]
    else if i == 5 then [5, 13, 15, 6, 9, 2, 12, 10, 11, 7, 8, 1, 4, 3, 14, 0]
    else if i == 6 then [8, 14, 2, 5, 6, 9, 1, 12, 15, 4, 11, 0, 13, 10, 3, 7]
    else [1, 7, 14, 13, 0, 5, 8, 3, 4, 15, 10, 6, 9, 12, 11, 2]
  }

  function RowOf(i: nat): seq<bv32>
    requires i < 8
  {
    [Entry(i, 0), Entry(i, 1), Entry(i, 2), Entry(i, 3), Entry(i, 4), Entry(i, 5), Entry(i, 6), Entry(i, 7),
     Entry(i, 8), Entry(i, 9), Entry(i, 10), Entry(i, 11), Entry(i, 12), Entry(i, 13), Entry(i, 14), Entry(i, 15)]
  }

  lemma LowRows(i: nat) requires i < 4 ensures RowOf(i) == Pi(i) {
    match i { case 0 => case 1 => case 2 => case 3 => }
  }

  lemma HighRows(i: nat) requires 4 <= i < 8 ensures RowOf(i) == Pi(i) {
    match i { case 4 => case 5 => case 6 => case 7 => }
  }

  /** The packed rows are those. */
  lemma RowsAreTheStandards(i: nat)
    requires i < 8
    ensures RowOf(i) == Pi(i)
  {
    hide RowOf, Pi;
    if i < 4 { LowRows(i); } else { HighRows(i); }
  }

  /** Nibble i of the word substituted, in its place. */
  function Substituted(a: bv32, i: nat): bv32
    requires i < 8
  {
    NibbleIsSmall(a, i);
    Put(Entry(i, Nibble(a, i)), i)
  }

  function TUpTo(a: bv32, n: nat): bv32
    requires n <= 8
  {
    if n == 0 then 0 else Xor(TUpTo(a, n - 1), Substituted(a, n - 1))
  }

  lemma NibbleIsSmall(a: bv32, i: nat) requires i < 8 ensures Nibble(a, i) <= 0xF {}
  lemma EntryIsSmall(i: nat, x: bv32) requires i < 8 && x <= 0xF ensures Entry(i, x) <= 0xF {}
  lemma XorZero(a: bv32) ensures Xor(a, 0) == a && Xor(0, a) == a {}
  lemma LowestXor(a: bv32, b: bv32) ensures Lowest(Xor(a, b)) == Xor(Lowest(a), Lowest(b)) {}
  lemma RestXor(a: bv32, b: bv32) ensures Rest(Xor(a, b)) == Xor(Rest(a), Rest(b)) {}
  lemma LowestAndRest(a: bv32, b: bv32) requires Lowest(a) == Lowest(b) && Rest(a) == Rest(b) ensures a == b {}
  lemma RestOfZero() ensures Rest(0) == 0 && Lowest(0) == 0 {}
  lemma RestOfUp(x: bv32) requires x <= 0x0FFF_FFFF ensures Rest(Up(x)) == x && Lowest(Up(x)) == 0 {}
  lemma RestOfNibble(e: bv32) requires e <= 0xF ensures Rest(e) == 0 && Lowest(e) == e {}
  lemma UpGrows(x: bv32, c: bv32) requires x <= c <= 0x0FFF_FFFF ensures Up(x) <= Fill(c) {}

  /** The largest number of i + 1 nibbles. */
  function Cap(i: nat): bv32 { if i == 0 then 0xF else Fill(Cap(i - 1)) }

  lemma Caps(i: nat) requires i < 7 ensures Cap(i) <= 0x0FFF_FFFF {
    assert Cap(2) == 0xFFF;
    assert Cap(4) == 0xF_FFFF;
    assert Cap(6) == 0x0FFF_FFFF;
  }

  lemma {:induction false} PutIsSmall(e: bv32, i: nat)
    requires i < 8 && e <= 0xF
    ensures Put(e, i) <= Cap(i)
  {
    hide Up, Fill;
    if i > 0 {
      PutIsSmall(e, i - 1);
      Caps(i - 1);
      UpGrows(Put(e, i - 1), Cap(i - 1));
    }
  }

  lemma {:induction false} ShiftedOfZero(i: nat)
    ensures Shifted(0, i) == 0
  {
    RestOfZero();
    hide Rest;
    if i > 0 { ShiftedOfZero(i - 1); }
  }

  lemma {:induction false} ShiftedInside(a: bv32, i: nat)
    ensures Shifted(a, i + 1) == Shifted(Rest(a), i)
  {
    hide Rest;
    if i > 0 { ShiftedInside(a, i - 1); }
  }

  lemma {:induction false} ShiftedXor(a: bv32, b: bv32, i: nat)
    ensures Shifted(Xor(a, b), i) == Xor(Shifted(a, i), Shifted(b, i))
  {
    hide Xor, Rest;
    if i > 0 {
      ShiftedXor(a, b, i - 1);
      RestXor(Shifted(a, i - 1), Shifted(b, i - 1));
    }
  }

  lemma NibbleXor(a: bv32, b: bv32, i: nat)
    requires i < 8
    ensures Nibble(Xor(a, b), i) == Xor(Nibble(a, i), Nibble(b, i))
  {
    hide Xor, Shifted, Lowest;
    ShiftedXor(a, b, i);
    LowestXor(Shifted(a, i), Shifted(b, i));
  }

  lemma {:induction false} NibbleOfPut(e: bv32, i: nat, j: nat)
    requires i < 8 && j < 8 && e <= 0xF
    ensures Nibble(Put(e, i), j) == if i == j then e else 0
    decreases i
  {
    hide Rest, Up, Lowest;
    if i == 0 {
      RestOfNibble(e);
      RestOfZero();
      if j > 0 { ShiftedInside(e, j - 1); ShiftedOfZero(j - 1); }
    } else {
      PutIsSmall(e, i - 1);
      Caps(i - 1);
      RestOfUp(Put(e, i - 1));
      if j > 0 {
        ShiftedInside(Put(e, i), j - 1);
        NibbleOfPut(e, i - 1, j - 1);
      }
    }
  }

  lemma ZeroNibble(i: nat) requires i < 8 ensures Nibble(0, i) == 0 {
    ShiftedOfZero(i);
    RestOfZero();
  }

  /** What the first n rounds of the loop make of nibble i. */
  lemma {:induction false} TNibble(a: bv32, n: nat, i: nat)
    requires n <= 8 && i < 8
    ensures Nibble(a, i) <= 0xF
    ensures Nibble(TUpTo(a, n), i) == if i < n then Entry(i, Nibble(a, i)) else 0
  {
    hide Nibble, Entry, Put, Xor;
    NibbleIsSmall(a, i);
    if n == 0 {
      ZeroNibble(i);
    } else {
      TNibble(a, n - 1, i);
      NibbleIsSmall(a, n - 1);
      var e := Entry(n - 1, Nibble(a, n - 1));
      EntryIsSmall(n - 1, Nibble(a, n - 1));
      NibbleXor(TUpTo(a, n - 1), Put(e, n - 1), i);
      NibbleOfPut(e, n - 1, i);
      XorZero(e);
      XorZero(Nibble(TUpTo(a, n - 1), i));
    }
  }

  function Rest2(a: bv32): bv32 { a >> 8 }
  lemma RestTwice(a: bv32) ensures Rest(Rest(a)) == Rest2(a) {}
  lemma FourTimesTwo(a: bv32) ensures Rest2(Rest2(Rest2(Rest2(a)))) == 0 {}

  lemma NothingLeft(a: bv32)
    ensures Shifted(a, 8) == 0
  {
    RestTwice(a); RestTwice(Rest2(a)); RestTwice(Rest2(Rest2(a))); RestTwice(Rest2(Rest2(Rest2(a))));
    FourTimesTwo(a);
    hide Rest, Rest2;
    assert Shifted(a, 2) == Rest(Shifted(a, 1)) == Rest2(a);
    assert Shifted(a, 4) == Rest(Shifted(a, 3)) == Rest2(Rest2(a));
    assert Shifted(a, 6) == Rest(Shifted(a, 5)) == Rest2(Rest2(Rest2(a)));
  }

  /** The words that agree in their nibbles from n on agree from there on. */
  lemma {:induction false} NibblesDetermine(a: bv32, b: bv32, n: nat)
    requires n <= 8 && forall i :: n <= i < 8 ==> Nibble(a, i) == Nibble(b, i)
    ensures Shifted(a, n) == Shifted(b, n)
    decreases 8 - n
  {
    if n == 8 {
      NothingLeft(a); NothingLeft(b);
    } else {
      NibblesDetermine(a, b, n + 1);
      assert Nibble(a, n) == Nibble(b, n);
      LowestAndRest(Shifted(a, n), Shifted(b, n));
      hide Lowest, Rest;
    }
  }

  /** t: nibble i of the word is replaced by the entry of row i that it names. */
  method T(a: bv32) returns (r: bv32)
    ensures forall i :: 0 <= i < 8 ==> Nibble(a, i) <= 0xF && Nibble(r, i) == Entry(i, Nibble(a, i))
    ensures r == TUpTo(a, 8)
  {
    hide Nibble, Entry, Put;
    r := 0;
    for i := 0 to 8
      invariant r == TUpTo(a, i)
    {
      NibbleIsSmall(a, i);
      r := r ^ Put(Entry(i, Nibble(a, i)), i);
    }
    forall i | 0 <= i < 8 ensures Nibble(a, i) <= 0xF && Nibble(r, i) == Entry(i, Nibble(a, i)) {
      TNibble(a, 8, i);
    }
  }

  // Every row is a permutation.
  lemma RowInjective(i: nat, x: bv32, y: bv32)
    requires i < 8 && x <= 0xF && y <= 0xF && Entry(i, x) == Entry(i, y)
    ensures x == y
  {}

  /** The substitution is one-to-one, as section 5.1.1 of the standard demands. */
  lemma TInjective(a: bv32, b: bv32)
    requires TUpTo(a, 8) == TUpTo(b, 8)
    ensures a == b
  {
    hide Nibble, Entry, TUpTo;
    forall i | 0 <= i < 8 ensures Nibble(a, i) == Nibble(b, i) {
      TNibble(a, 8, i);
      TNibble(b, 8, i);
      RowInjective(i, Nibble(a, i), Nibble(b, i));
    }
    NibblesDetermine(a, b, 0);
  }

  function Rol11(x: bv32): bv32 { (x << 11) | (x >> 21) }

  function G(k: bv32, a: bv32): bv32 { Rol11(TUpTo(k + a, 8)) }

  /** Bit k goes to bit k + 11, round the word. */
  lemma RotatesBy11(x: bv32, k: bv32)
    requires k < 32
    ensures (Rol11(x) >> ((k + 11) % 32)) & 1 == (x >> k) & 1
  {}

  /** g */
  method RoundFunction(k: bv32, a: bv32) returns (r: bv32)
    ensures r == G(k, a)
  {
    hide TUpTo;
    var s := T(k + a);
    r := Rol11(s);
  }

  // ----- the Feistel network

  /** The halves after two rounds under each pair of round keys. */
  function Rounds(keys: seq<bv32>, n1: bv32, n2: bv32): (bv32, bv32)
    requires |keys| % 2 == 0
    decreases |keys|
  {
    if keys == [] then (n1, n2)
    else
      var m2 := Xor(n2, G(keys[0], n1));
      Rounds(keys[2..], Xor(n1, G(keys[1], m2)), m2)
  }

  /** The same keys from the last to the first. */
  function Unrounds(keys: seq<bv32>, a0: bv32, a1: bv32): (bv32, bv32)
    requires |keys| % 2 == 0
    decreases |keys|
  {
    if keys == [] then (a0, a1)
    else
      var n := |keys|;
      var b1 := Xor(a1, G(keys[n - 1], a0));
      Unrounds(keys[..n - 2], Xor(a0, G(keys[n - 2], b1)), b1)
  }

  lemma {:induction false} UnroundsFront(keys: seq<bv32>, a0: bv32, a1: bv32)
    requires |keys| % 2 == 0 && keys != []
    ensures Unrounds(keys, a0, a1) == var r := Unrounds(keys[2..], a0, a1); Unrounds(keys[..2], r.0, r.1)
    decreases |keys|
  {
    hide G, Xor;
    var n := |keys|;
    if n > 2 {
      var b1 := Xor(a1, G(keys[n - 1], a0));
      var front := keys[..n - 2];
      assert keys[2..][..n - 4] == front[2..] && keys[..2] == front[..2];
      UnroundsFront(front, Xor(a0, G(keys[n - 2], b1)), b1);
    } else {
      assert keys[2..] == [] && keys[..2] == keys;
    }
  }

  /** Whatever the round function is, running the rounds backwards undoes them. */
  lemma {:induction false} UnroundsInvert(keys: seq<bv32>, n1: bv32, n2: bv32)
    requires |keys| % 2 == 0
    ensures var r := Rounds(keys, n1, n2); Unrounds(keys, r.1, r.0) == (n2, n1)
    decreases |keys|
  {
    hide G, Xor;
    if keys != [] {
      var m2 := Xor(n2, G(keys[0], n1));
      var m1 := Xor(n1, G(keys[1], m2));
      UnroundsInvert(keys[2..], m1, m2);
      var r := Rounds(keys, n1, n2);
      UnroundsFront(keys, r.1, r.0);
      assert keys[..2] == [keys[0], keys[1]];
      assert keys[..2][..0] == [];
      XorTwice(n1, G(keys[1], m2));
      XorTwice(n2, G(keys[0], n1));
    }
  }

  // ----- the cipher on 64-bit blocks

  function Low(v: bv64): bv32 { (v & 0xFFFF_FFFF) as bv32 }
  function High(v: bv64): bv32 { (v >> 32) as bv32 }
  function Join(hi: bv32, lo: bv32): bv64 { ((hi as bv64) << 32) | (lo as bv64) }

  lemma LowOfJoin(hi: bv32, lo: bv32) ensures Low(Join(hi, lo)) == lo {}
  lemma HighOfJoin(hi: bv32, lo: bv32) ensures High(Join(hi, lo)) == hi {}
  lemma JoinOfHalves(v: bv64) ensures Join(High(v), Low(v)) == v {}

  function Backwards(k: seq<bv32>): seq<bv32>
    requires |k| == 8
  {
    [k[7], k[6], k[5], k[4], k[3], k[2], k[1], k[0]]
  }

  /** The order magma_encrypt walks the eight key words: three times down, once up. */
  function Schedule(k: seq<bv32>): (w: seq<bv32>)
    requires |k| == 8
    ensures |w| == 32
  {
    Backwards(k) + Backwards(k) + Backwards(k) + k
  }

  function Encrypt(k: seq<bv32>, v: bv64): bv64
    requires |k| == 8
  {
    var r := Rounds(Schedule(k), Low(v), High(v));
    Join(r.0, r.1)
  }

  function Decrypt(w: seq<bv32>, v: bv64): bv64
    requires |w| == 32
  {
    var r := Unrounds(w, Low(v), High(v));
    Join(r.0, r.1)
  }

  lemma DecryptInvertsEncrypt(k: seq<bv32>, v: bv64)
    requires |k| == 8
    ensures Decrypt(Schedule(k), Encrypt(k, v)) == v
  {
    hide Rounds, Unrounds, Schedule, Low, High, Join;
    var r := Rounds(Schedule(k), Low(v), High(v));
    UnroundsInvert(Schedule(k), Low(v), High(v));
    LowOfJoin(r.0, r.1);
    HighOfJoin(r.0, r.1);
    JoinOfHalves(v);
  }

  lemma EncryptInjective(k: seq<bv32>, u: bv64, v: bv64)
    requires |k| == 8 && Encrypt(k, u) == Encrypt(k, v)
    ensures u == v
  {
    DecryptInvertsEncrypt(k, u);
    DecryptInvertsEncrypt(k, v);
    hide *;
  }

  lemma ScheduleAt(k: seq<bv32>, j: nat)
    requires |k| == 8 && j < 32
    ensures Schedule(k)[j] == if j < 24 then k[7 - j % 8] else k[j - 24]
  {
    var b := Backwards(k);
    assert forall i :: 0 <= i < 8 ==> b[i] == k[7 - i];
    if j < 8 { assert j % 8 == j; } else if j < 16 { assert j % 8 == j - 8; } else if j < 24 { assert j % 8 == j - 16; }
  }

  /** Where the walk down stands with `count` turns to go. */
  function WalkAt(count: nat): (at: nat)
    ensures at < 8
  {
    2 * count % 8
  }

  lemma WalkEnds() ensures WalkAt(12) == 0 && WalkAt(0) == 0 {}

  lemma ScheduleDown(k: seq<bv32>, count: nat, at: nat)
    requires |k| == 8 && 0 < count <= 12 && at == WalkAt(count)
    ensures var top := if at == 0 then 8 else at;
      && top >= 2 && top - 2 == WalkAt(count - 1)
      && Schedule(k)[24 - 2 * count] == k[top - 1] && Schedule(k)[25 - 2 * count] == k[top - 2]
  {
    hide Schedule;
    ScheduleAt(k, 24 - 2 * count);
    ScheduleAt(k, 25 - 2 * count);
    if count <= 4 { assert at == 2 * count % 8; } else if count <= 8 { assert at == (2 * count - 8) % 8; }
  }

  lemma RoundsStep(keys: seq<bv32>, i: nat, n1: bv32, n2: bv32)
    requires |keys| == 32 && i % 2 == 0 && i < 32
    ensures var m2 := Xor(n2, G(keys[i], n1));
      Rounds(keys[i..], n1, n2) == Rounds(keys[i + 2..], Xor(n1, G(keys[i + 1], m2)), m2)
  {
    hide G, Xor;
    assert keys[i..][2..] == keys[i + 2..];
  }

  method MagmaEncrypt(key: seq<bv32>, v: bv64) returns (r: bv64)
    requires |key| == 8
    ensures r == Encrypt(key, v)
  {
    hide G, Xor, Low, High, Join, Rounds, Schedule, WalkAt;
    WalkEnds();
    ghost var w := Schedule(key);
    var n1, n2 := Low(v), High(v);
    var at := 0;
    var count := 12;
    assert w[0..] == w;
    while count != 0
      invariant 0 <= count <= 12 && at == WalkAt(count)
      invariant Rounds(w[24 - 2 * count..], n1, n2) == Rounds(w, Low(v), High(v))
    {
      RoundsStep(w, 24 - 2 * count, n1, n2);
      ScheduleDown(key, count, at);
      if at == 0 { at := 8; }
      at := at - 1;
      var f := RoundFunction(key[at], n1);
      n2 := Xor(n2, f);
      at := at - 1;
      f := RoundFunction(key[at], n2);
      n1 := Xor(n1, f);
      count := count - 1;
    }
    count := 4;
    while count != 0
      invariant 0 <= count <= 4 && at == 8 - 2 * count
      invariant Rounds(w[32 - 2 * count..], n1, n2) == Rounds(w, Low(v), High(v))
    {
      RoundsStep(w, 32 - 2 * count, n1, n2);
      ScheduleAt(key, 32 - 2 * count);
      ScheduleAt(key, 33 - 2 * count);
      var f := RoundFunction(key[at], n1);
      n2 := Xor(n2, f);
      at := at + 1;
      f := RoundFunction(key[at], n2);
      n1 := Xor(n1, f);
      at := at + 1;
      count := count - 1;
    }
    RoundsDone(w[32..], n1, n2);
    r := Join(n1, n2);
  }

  lemma RoundsDone(keys: seq<bv32>, n1: bv32, n2: bv32)
    requires keys == []
    ensures Rounds(keys, n1, n2) == (n1, n2)
  {}

  method MagmaDecrypt(w: seq<bv32>, v: bv64) returns (r: bv64)
    requires |w| == 32
    ensures r == Decrypt(w, v)
  {
    hide G, Xor, Low, High, Join;
    var a0, a1 := Low(v), High(v);
    var i := 31;
    assert w[..32] == w;
    while i >= 0
      invariant -1 <= i <= 31 && i % 2 == 1
      invariant Unrounds(w[..i + 1], a0, a1) == Unrounds(w, Low(v), High(v))
      decreases i
    {
      assert w[..i + 1][..i - 1] == w[..i - 1];
      var f := RoundFunction(w[i], a0);
      a1 := Xor(a1, f);
      f := RoundFunction(w[i - 1], a1);
      a0 := Xor(a0, f);
      i := i - 2;
    }
    r := Join(a0, a1);
  }

  // ----- the MAC (NIST SP 800-38B, section 6.2)

  /** Eight bytes as a big-endian number: what htonll makes of a block in memory. */
  function Block(b: seq<bv8>): bv64
    requires |b| == 8
  {
    ((b[0] as bv64) << 56) | ((b[1] as bv64) << 48) | ((b[2] as bv64) << 40) | ((b[3] as bv64) << 32)
    | ((b[4] as bv64) << 24) | ((b[5] as bv64) << 16) | ((b[6] as bv64) << 8) | (b[7] as bv64)
  }

  /** Byte i of the block is byte i of the number, from the highest down. */
  lemma BlockBytes(b: seq<bv8>, i: nat)
    requires |b| == 8 && i < 8
    ensures (Block(b) >> (56 - 8 * i)) & 0xFF == b[i] as bv64
  {
    match i { case 0 => case 1 => case 2 => case 3 => case 4 => case 5 => case 6 => case 7 => }
  }

  function Zeros(n: nat): (z: seq<bv8>)
    ensures |z| == n && forall i :: 0 <= i < n ==> z[i] == 0
  {
    seq(n, i => 0 as bv8)
  }

  function Xor64(a: bv64, b: bv64): bv64 { a ^ b }

  /** Cipher block chaining over whole blocks. */
  function Chain(k: seq<bv32>, c: bv64, m: seq<bv8>): bv64
    requires |k| == 8 && |m| % 8 == 0
    decreases |m|
  {
    if m == [] then c else Chain(k, Encrypt(k, Xor64(c, Block(m[..8]))), m[8..])
  }

  /** Doubling modulo x^64 + x^4 + x^3 + x + 1. */
  function Double(a: bv64): bv64 { (a << 1) ^ (if a >> 63 == 1 then 0x1B else 0) }

  function K1(k: seq<bv32>): bv64 requires |k| == 8 { Double(Encrypt(k, 0)) }
  function K2(k: seq<bv32>): bv64 requires |k| == 8 { Double(K1(k)) }

  /** How many bytes of a message lie before its last block. */
  function Head(n: nat): (h: nat)
    ensures h % 8 == 0 && (n > 0 ==> h < n <= h + 8)
  {
    if n == 0 then 0 else (n - 1) / 8 * 8
  }

  /** The standard's tag of a message, the empty one included. */
  function Cmac(k: seq<bv32>, m: seq<bv8>): bv64
    requires |k| == 8
  {
    var h := Head(|m|);
    var tail := m[h..];
    var last := if |tail| == 8 then Xor64(Block(tail), K1(k))
                else Xor64(Block(tail + [0x80] + Zeros(7 - |tail|)), K2(k));
    Encrypt(k, Xor64(Chain(k, 0, m[..h]), last))
  }

  lemma {:induction false} ChainSnoc(k: seq<bv32>, c: bv64, m: seq<bv8>, b: seq<bv8>)
    requires |k| == 8 && |m| % 8 == 0 && |b| == 8
    ensures Chain(k, c, m + b) == Encrypt(k, Xor64(Chain(k, c, m), Block(b)))
    decreases |m|
  {
    hide Encrypt, Block, Xor64;
    if m == [] {
      assert m + b == b && b[..8] == b && b[8..] == [];
      assert Chain(k, Encrypt(k, Xor64(c, Block(b))), []) == Encrypt(k, Xor64(c, Block(b)));
    } else {
      assert (m + b)[..8] == m[..8] && (m + b)[8..] == m[8..] + b;
      ChainSnoc(k, Encrypt(k, Xor64(c, Block(m[..8]))), m[8..], b);
    }
  }

  /** The running state of a MAC: the last block is held back until it is known not to be the last. */
  class Ccm {
    const key: seq<bv32>
    const last: array<bv8>
    var sum: bv64
    var len: nat
    // everything the MAC was given
    ghost var msg: seq<bv8>

    ghost predicate Valid()
      reads this, last
    {
      && |key| == 8 && last.Length == 8
      && var h := Head(|msg|);
      && len == |msg| - h
      && sum == Chain(key, 0, msg[..h])
      && last[..] == msg[h..] + Zeros(8 - len)
    }

    constructor (key: seq<bv32>)
      requires |key| == 8
      ensures Valid() && fresh(last) && msg == [] && this.key == key
    {
      this.key, sum, len, msg := key, 0, 0, [];
      last := new bv8[8](_ => 0);
      new;
      assert last[..] == Zeros(8);
    }

    lemma Extend(more: seq<bv8>)
      requires 0 < |msg| - Head(|msg|) && |msg| - Head(|msg|) + |more| <= 8
      ensures var h := Head(|msg|); var all := msg + more;
        Head(|all|) == h && all[..h] == msg[..h] && all[h..] == msg[h..] + more
    {}

    /** Tops up a block that is not full; what is left of the data comes back. */
    method Fill(data: seq<bv8>) returns (rest: seq<bv8>)
      requires Valid()
      modifies this, last
      ensures Valid() && |rest| <= |data| && rest == data[|data| - |rest|..]
      ensures msg == old(msg) + data[..|data| - |rest|]
      ensures rest != [] ==> len % 8 == 0
    {
      hide Chain, Head;
      rest := data;
      if len % 8 != 0 {
        var slen := 8 - len;
        if slen > |data| { slen := |data|; }
        var more := data[..slen];
        forall i | 0 <= i < slen { last[len + i] := more[i]; }
        rest := data[slen..];
        ghost var tail := msg[Head(|msg|)..];
        Extend(more);
        msg := msg + more;
        len := len + slen;
        assert last[..] == (tail + more) + Zeros(8 - len);
      } else {
        assert msg + data[..0] == msg;
      }
    }

    /** Chains a block that was held back, now that more follows. */
    method Flush() returns (m: bv64)
      requires Valid() && len % 8 == 0
      modifies last
      ensures |msg| % 8 == 0 && m == Chain(key, 0, msg) && last[..] == Zeros(8)
    {
      hide Chain, Encrypt, Block, Xor64;
      ghost var h := Head(|msg|);
      assert msg == msg[..h] + msg[h..];
      m := sum;
      if len == 8 {
        assert last[..] == msg[h..];
        ChainSnoc(key, 0, msg[..h], last[..]);
        var c := Xor64(m, Block(last[..]));
        m := MagmaEncrypt(key, c);
        forall i | 0 <= i < 8 { last[i] := 0; }
      } else {
        assert msg[..h] == msg;
      }
    }

    lemma Split(data: seq<bv8>)
      requires |msg| % 8 == 0 && data != []
      ensures var n := (|data| - 1) / 8 * 8; var all := msg + data;
        && 0 <= n < |data| <= n + 8 && Head(|all|) == |msg| + n
        && all[..|msg| + n] == msg + data[..n] && all[|msg| + n..] == data[n..]
    {}

    /** Everything but the last block of the data goes through the cipher, after a block that was held back. */
    method Absorb(data: seq<bv8>)
      requires Valid() && data != [] && len % 8 == 0
      modifies this, last
      ensures Valid() && msg == old(msg) + data
    {
      hide Chain, Head;
      var m := Flush();
      Split(data);
      var blocks := (|data| - 1) / 8;
      m := ChainData(m, data, blocks);
      sum := m;
      len := |data| - blocks * 8;
      var tail := data[blocks * 8..];
      forall i | 0 <= i < len { last[i] := tail[i]; }
      assert last[..] == tail + Zeros(8 - len);
      msg := msg + data;
    }

    /** The loop over the whole blocks. */
    method ChainData(start: bv64, data: seq<bv8>, blocks: nat) returns (m: bv64)
      requires |key| == 8 && blocks * 8 <= |data| && |msg| % 8 == 0 && start == Chain(key, 0, msg)
      ensures m == Chain(key, 0, msg + data[..blocks * 8])
    {
      hide Chain, Encrypt, Block, Xor64;
      m := start;
      assert msg + data[..0] == msg;
      for i := 0 to blocks
        invariant m == Chain(key, 0, msg + data[..i * 8])
      {
        var b := data[i * 8..i * 8 + 8];
        ChainSnoc(key, 0, msg + data[..i * 8], b);
        assert msg + data[..i * 8] + b == msg + data[..(i + 1) * 8];
        var c := Xor64(m, Block(b));
        m := MagmaEncrypt(key, c);
      }
    }

    /** magma_cmac_update: however the message is cut, the state is that of the whole. */
    method Update(data: seq<bv8>)
      requires Valid()
      modifies this, last
      ensures Valid() && msg == old(msg) + data
    {
      hide Chain;
      var rest := Fill(data);
      ghost var n := |data| - |rest|;
      assert data == data[..n] + rest;
      if rest != [] {
        Absorb(rest);
        assert old(msg) + data[..n] + rest == old(msg) + data;
      } else {
        assert data[..n] == data;
      }
    }

    /** magma_cmac_fini: the standard's tag, except of the empty message. */
    method Fini() returns (tag: bv64)
      requires Valid()
      modifies last
      ensures msg != [] ==> tag == Cmac(key, msg)
      ensures msg == [] ==> tag == Encrypt(key, K1(key))
    {
      hide Chain, Encrypt, Block, Xor64, Double;
      var k1 := MagmaEncrypt(key, 0);
      k1 := Double(k1);
      ghost var tail := msg[Head(|msg|)..];
      if len % 8 != 0 {
        k1 := Double(k1);
        last[len] := 0x80;
        assert last[..] == tail + [0x80] + Zeros(7 - len);
      } else if msg == [] {
        assert last[..] == Zeros(8);
      } else {
        assert last[..] == tail;
      }
      var c := Xor64(sum, Xor64(Block(last[..]), k1));
      tag := MagmaEncrypt(key, c);
      if msg == [] { NothingAdded(key, k1, last[..]); }
    }
  }

  lemma NothingAdded(k: seq<bv32>, k1: bv64, zeros: seq<bv8>)
    requires |k| == 8 && zeros == Zeros(8)
    ensures Xor64(Chain(k, 0, []), Xor64(Block(zeros), k1)) == k1
  {
    assert Chain(k, 0, []) == 0;
    assert Block(zeros) == 0;
  }

  // Half of 0x80...0, and half of that sum again, in the field of the doubling.
  lemma OneStart(e: bv64)
    ensures Xor64(Double(e), Double(Double(e))) == 0x8000_0000_0000_0000 <==> e == 0xC000_0000_0000_0009
  {}

  /** The standard pads the empty message and uses the key of padded blocks. */
  lemma EmptyStandard(k: seq<bv32>)
    requires |k| == 8
    ensures Cmac(k, []) == Encrypt(k, Xor64(0, Xor64(0x8000_0000_0000_0000, K2(k))))
  {
    hide Encrypt, Xor64, K1, K2;
    var pad: seq<bv8> := [0x80] + Zeros(7);
    var none: seq<bv8> := [];
    assert none[0..] + pad == pad && none[..0] == none;
    PadBlock(pad);
  }

  /** On the empty message the code uses the key of whole blocks: its tag is the standard's for just one value that
      the key may give the zero block. */
  lemma EmptyTagIff(k: seq<bv32>)
    requires |k| == 8
    ensures Encrypt(k, K1(k)) == Cmac(k, []) <==> Encrypt(k, 0) == 0xC000_0000_0000_0009
  {
    hide Encrypt, Cmac, Xor64, Double;
    var std := Xor64(0, Xor64(0x8000_0000_0000_0000, K2(k)));
    EmptyStandard(k);
    KeysCollide(K1(k), K2(k));
    OneStart(Encrypt(k, 0));
    if Encrypt(k, K1(k)) == Encrypt(k, std) { EncryptInjective(k, K1(k), std); }
  }

  lemma PadBlock(pad: seq<bv8>)
    requires pad == [0x80] + Zeros(7)
    ensures Block(pad) == 0x8000_0000_0000_0000
  {}

  lemma Xor64Back(a: bv64, b: bv64)
    ensures Xor64(Xor64(a, b), b) == a
  {}

  lemma Xor64Zero(a: bv64)
    ensures Xor64(0, a) == a
  {}

  lemma KeysCollide(k1: bv64, k2: bv64)
    ensures k1 == Xor64(0, Xor64(0x8000_0000_0000_0000, k2)) <==> Xor64(k1, k2) == 0x8000_0000_0000_0000
  {
    hide Xor64;
    Xor64Back(0x8000_0000_0000_0000, k2);
    Xor64Back(k1, k2);
    Xor64Zero(Xor64(0x8000_0000_0000_0000, k2));
  }

  /** magma_cmac: the MAC of two pieces is that of their concatenation. */
  method MagmaCmac(key: seq<bv32>, iv: seq<bv8>, data: seq<bv8>) returns (tag: bv64)
    requires |key| == 8
    ensures iv + data != [] ==> tag == Cmac(key, iv + data)
  {
    var ctx := new Ccm(key);
    if |iv| > 0 { ctx.Update(iv); }
    if |data| > 0 { ctx.Update(data); }
    assert ctx.msg == iv + data;
    tag := ctx.Fini();
  }
}
