/**
 Exclusive or on machine words, as used by the heap's link protection. Words are
 natural numbers; Xor works bit by bit from the low end.
 */
module Words {

  function Xor(a: nat, b: nat): nat {
    if a == 0 && b == 0 then 0
    else 2 * Xor(a / 2, b / 2) + (if a % 2 == b % 2 then 0 else 1)
  }

  /** Masking twice with the same key gives the word back. */
  lemma {:induction false} XorInvolution(a: nat, key: nat)
    ensures Xor(Xor(a, key), key) == a
    decreases a + key
  {
    if a != 0 || key != 0 {
      var r := Xor(a / 2, key / 2);
      assert Xor(a, key) / 2 == r;
      XorInvolution(a / 2, key / 2);
    }
  }

  /** Masked words are equal only if the words are. */
  lemma {:induction false} XorInjective(a: nat, b: nat, key: nat)
    ensures Xor(a, key) == Xor(b, key) <==> a == b
  {
    XorInvolution(a, key);
    XorInvolution(b, key);
  }

  /** Bit k of a number, from the low end. */
  predicate BitAt(a: nat, k: nat) {
    if k == 0 then a % 2 == 1 else BitAt(a / 2, k - 1)
  }

  /** Every bit of the masked word is the word's bit, flipped where the key has a one. */
  lemma {:induction false} XorBit(a: nat, b: nat, k: nat)
    ensures BitAt(Xor(a, b), k) == (BitAt(a, k) != BitAt(b, k))
    decreases k
  {
    if a != 0 || b != 0 {
      assert Xor(a, b) / 2 == Xor(a / 2, b / 2);
    }
    if k > 0 {
      XorBit(a / 2, b / 2, k - 1);
    }
  }

  /** Masking a 32-bit word with a 32-bit key stays within 32 bits. */
  lemma {:induction false} XorWidth(a: nat, b: nat, bits: nat)
    requires a < Pow2(bits) && b < Pow2(bits)
    ensures Xor(a, b) < Pow2(bits)
    decreases bits
  {
    if bits != 0 {
      XorWidth(a / 2, b / 2, bits - 1);
    }
  }

  function Pow2(n: nat): (p: nat)
    ensures p > 0
  {
    if n == 0 then 1 else 2 * Pow2(n - 1)
  }
}
