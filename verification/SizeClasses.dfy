/** r3_slice.c, the size classes: a request is served from the class of 4 << idx bytes. */
module SizeClasses {
  import opened Bits

  const WORD: nat := 0x1_0000_0000
  const SLICE_POOL_NUM: nat := 5
  const BLOCK_BYTES: nat := 128

  /** 32 - clz(n), where clz(0) is 32 as the CLZ instruction answers. */
  function BitLength(n: nat): nat {
    if n == 0 then 0 else 1 + BitLength(n / 2)
  }

  /** bitn_mask_idx: size - 1 wraps around for the empty request. */
  function ClassIndex(size: nat): nat
    requires size < WORD
  {
    BitLength((size + WORD - 1) % WORD / 4)
  }

  function SliceBytes(idx: nat): nat {
    4 * Pow2(idx)
  }

  /** How many slices a refill cuts. */
  function Pieces(idx: nat): nat {
    ShiftRight(32, idx)
  }

  function ShiftRight(n: nat, k: nat): nat {
    if k == 0 then n else ShiftRight(n / 2, k - 1)
  }

  lemma {:induction false} BitLengthBounds(n: nat, k: nat)
    ensures BitLength(n) <= k <==> n < Pow2(k)
    decreases k
  {
    if n > 0 && k > 0 {
      BitLengthBounds(n / 2, k - 1);
    }
  }

  /** A class holds the request exactly when it is not below the chosen one: the choice is the tightest fit. */
  lemma FitsIff(size: nat, idx: nat)
    requires 0 < size < WORD
    ensures size <= SliceBytes(idx) <==> ClassIndex(size) <= idx
  {
    assert (size + WORD - 1) % WORD == size - 1;
    BitLengthBounds((size - 1) / 4, idx);
  }

  lemma {:induction false} PowersMultiply(a: nat, b: nat)
    ensures Pow2(a) * Pow2(b) == Pow2(a + b)
    decreases a
  {
    if a > 0 {
      PowersMultiply(a - 1, b);
      assert Pow2(a) * Pow2(b) == 2 * (Pow2(a - 1) * Pow2(b));
    }
  }

  /** For the empty request size - 1 wraps around to all ones. */
  lemma EmptyRequest()
    ensures ClassIndex(0) == 30
  {
    assert Pow2(10) == 1024;
    PowersMultiply(10, 10);
    PowersMultiply(20, 10);
    assert Pow2(30) == 2 * Pow2(29);
    BitLengthBounds(0x3FFF_FFFF, 30);
    BitLengthBounds(0x3FFF_FFFF, 29);
  }

  /** The chosen class is one of the five pools exactly for requests of 1 to 64 bytes; nothing checks it. */
  lemma PoolExistsIff(size: nat)
    requires size < WORD
    ensures ClassIndex(size) < SLICE_POOL_NUM <==> 1 <= size <= 64
  {
    if size == 0 {
      EmptyRequest();
    } else {
      assert Pow2(4) == 16;
      FitsIff(size, 4);
    }
  }

  lemma {:induction false} ShiftsBack(a: nat, b: nat)
    ensures ShiftRight(Pow2(a + b), b) == Pow2(a)
    decreases b
  {
    if b > 0 {
      assert Pow2(a + b) == 2 * Pow2(a + (b - 1));
      ShiftsBack(a, b - 1);
    }
  }

  /** A refill of 32 >> idx slices is exactly the block it is cut from. */
  lemma RefillFillsBlock(idx: nat)
    requires idx <= SLICE_POOL_NUM
    ensures Pieces(idx) > 0 && Pieces(idx) * SliceBytes(idx) == BLOCK_BYTES
  {
    assert Pow2(5) == 32;
    ShiftsBack(5 - idx, idx);
    PowersMultiply(5 - idx, idx);
    var p, q := Pow2(idx), Pow2(5 - idx);
    assert q * (4 * p) == 4 * (q * p);
  }
}
