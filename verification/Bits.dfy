/** What the checksums, the ciphers and the allocators share about machine words. */
module Bits {
  // Exclusive or, named so that a proof can leave it uninterpreted.
  function Xor(a: bv32, b: bv32): bv32 { a ^ b }

  lemma XorTwice(a: bv32, b: bv32) ensures Xor(Xor(a, b), b) == a {}
  lemma XorCommutes(a: bv32, b: bv32) ensures Xor(a, b) == Xor(b, a) {}
  lemma XorAssociates(a: bv32, b: bv32, c: bv32) ensures Xor(Xor(a, b), c) == Xor(a, Xor(b, c)) {}

  function Pow2(k: nat): (p: nat)
    ensures p >= 1
  {
    if k == 0 then 1 else 2 * Pow2(k - 1)
  }
}
