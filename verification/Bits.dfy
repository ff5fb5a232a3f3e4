/** The machine-word operations that the mountain range code applies to leaf
    indices: right shift, exclusive or and bit width, over unbounded naturals.
    Leaf indices stay below 2^32, so no operation here can leave a 64-bit word. */
module Bits {

  function Pow2(k: nat): (p: nat)
    ensures p >= 1
  {
    if k == 0 then 1 else 2 * Pow2(k - 1)
  }

  function Shr(x: nat, k: nat): nat
  {
    if k == 0 then x else Shr(x, k - 1) / 2
  }

  function Xor(a: nat, b: nat): nat
    decreases a + b
  {
    if a == 0 && b == 0 then 0
    else 2 * Xor(a / 2, b / 2) + (if a % 2 != b % 2 then 1 else 0)
  }

  /** The number of bits up to and including the highest set bit. */
  function BitWidth(x: nat): nat
  {
    if x == 0 then 0 else 1 + BitWidth(x / 2)
  }

  /** The other child of the parent of `x`: `x` with its lowest bit flipped. */
  function Sibling(x: nat): nat
  {
    if x % 2 == 0 then x + 1 else x - 1
  }

  lemma {:induction false} ShrHalf(x: nat, k: nat)
    ensures Shr(x, k + 1) == Shr(x / 2, k)
  {
    if k > 0 {
      ShrHalf(x, k - 1);
    }
  }

  lemma {:induction false} ShrSplit(x: nat, j: nat, k: nat)
    ensures Shr(x, j + k) == Shr(Shr(x, j), k)
    decreases k
  {
    if k > 0 {
      ShrSplit(x, j, k - 1);
    }
  }

  lemma {:induction false} ShrBelow(x: nat, k: nat)
    ensures Shr(x, k) == 0 <==> x < Pow2(k)
  {
    if k > 0 {
      ShrHalf(x, k - 1);
      ShrBelow(x / 2, k - 1);
    }
  }

  lemma {:induction false} XorZero(x: nat)
    ensures Xor(x, 0) == x
  {
    if x > 0 {
      XorZero(x / 2);
    }
  }

  lemma {:induction false} XorOne(x: nat)
    ensures Xor(x, 1) == Sibling(x)
  {
    XorZero(x / 2);
  }

  lemma {:induction false} XorIsZeroExactlyOnEqual(a: nat, b: nat)
    ensures Xor(a, b) == 0 <==> a == b
    decreases a + b
  {
    if a != 0 || b != 0 {
      XorIsZeroExactlyOnEqual(a / 2, b / 2);
    }
  }

  lemma {:induction false} XorBelow(a: nat, b: nat, k: nat)
    requires a < Pow2(k) && b < Pow2(k)
    ensures BitWidth(Xor(a, b)) <= k
    decreases k
  {
    if a != 0 || b != 0 {
      XorBelow(a / 2, b / 2, k - 1);
    }
  }

  /** Whether a leaf lies in a left subtree at `height`. */
  predicate IsLeftChild(leaf: nat, height: nat)
    requires height >= 1
  {
    Shr(leaf, height - 1) % 2 == 0
  }

  /** Whether two leaves lie in sibling subtrees at `height`. */
  predicate AreSiblingsAt(a: nat, b: nat, height: nat)
    requires height >= 1
  {
    Shr(a, height - 1) == Xor(Shr(b, height - 1), 1)
  }

  function SiblingHeight(a: nat, b: nat): nat
  {
    BitWidth(Xor(a, b))
  }

  /** Two different leaves are siblings at exactly one height, the one that
      the bit-width formula computes. */
  lemma {:induction false} SiblingsAtExactlyOneHeight(a: nat, b: nat, height: nat)
    requires a != b && height >= 1
    ensures AreSiblingsAt(a, b, height) <==> height == SiblingHeight(a, b)
    decreases height
  {
    XorOne(Shr(b, height - 1));
    XorIsZeroExactlyOnEqual(a / 2, b / 2);
    XorIsZeroExactlyOnEqual(a, b);
    assert Xor(a, b) / 2 == Xor(a / 2, b / 2);
    assert SiblingHeight(a, b) == 1 + SiblingHeight(a / 2, b / 2);
    if height == 1 {
      assert SiblingHeight(a / 2, b / 2) == 0 <==> a / 2 == b / 2;
    } else {
      ShrHalf(a, height - 2);
      ShrHalf(b, height - 2);
      if a / 2 != b / 2 {
        SiblingsAtExactlyOneHeight(a / 2, b / 2, height - 1);
      }
    }
  }

  /** The one sibling height of two different leaves below `2^k` is in `1..=k`. */
  lemma {:induction false} SiblingHeightInRange(a: nat, b: nat, k: nat)
    requires a != b && a < Pow2(k) && b < Pow2(k)
    ensures 1 <= SiblingHeight(a, b) <= k
    ensures Shr(a, SiblingHeight(a, b) - 1) == Sibling(Shr(b, SiblingHeight(a, b) - 1))
  {
    XorIsZeroExactlyOnEqual(a, b);
    XorBelow(a, b, k);
    SiblingsAtExactlyOneHeight(a, b, SiblingHeight(a, b));
    XorOne(Shr(b, SiblingHeight(a, b) - 1));
  }
}
