/** The 16-bit XInput button word, bit by bit. */
module Bits {
  /** XInput button bit `i`. */
  function Bit(i: nat): (b: bv16)
    requires i < 16
    ensures b != 0
  {
    [0x0001, 0x0002, 0x0004, 0x0008, 0x0010, 0x0020, 0x0040, 0x0080,
     0x0100, 0x0200, 0x0400, 0x0800, 0x1000, 0x2000, 0x4000, 0x8000][i]
  }

  /** Whether the word `w` shares a set bit with the mask `m`. */
  predicate Hits(w: bv16, m: bv16)
  {
    w & m != 0
  }

  /** Whether bit `i` of the word `w` is set. */
  predicate BitSet(w: bv16, i: nat)
    requires i < 16
  {
    Hits(w, Bit(i))
  }

  lemma BitsDisjoint(i: nat, j: nat)
    requires i < 16 && j < 16
    ensures BitSet(Bit(i), j) <==> i == j
  {
  }

  lemma MaskDistributes(a: bv16, b: bv16, m: bv16)
    ensures (a | b) & m == (a & m) | (b & m)
  {
  }

  lemma OrNonZero(x: bv16, y: bv16)
    ensures x | y != 0 <==> x != 0 || y != 0
  {
  }

  /** Both operands of an OR survive in it. */
  lemma OrCovers(x: bv16, y: bv16)
    ensures (x | y) & x == x && (x | y) & y == y
  {
  }

  lemma OrUnderMask(a: bv16, b: bv16, m: bv16)
    ensures Hits(a | b, m) <==> Hits(a, m) || Hits(b, m)
  {
    MaskDistributes(a, b, m);
    OrNonZero(a & m, b & m);
  }

  lemma NoBitInZero(j: nat)
    requires j < 16
    ensures !BitSet(0, j)
  {
    var z: bv16 := 0;
    assert z & Bit(j) == 0;
    assert !Hits(z, Bit(j));
  }

  lemma BitSetOr(a: bv16, b: bv16, j: nat)
    requires j < 16
    ensures BitSet(a | b, j) <==> BitSet(a, j) || BitSet(b, j)
  {
    OrUnderMask(a, b, Bit(j));
  }
}
