/** The bit operations on event words, and what they have to do with each other. */
module Words {

  type Bits = bv32

  function Join(a: Bits, b: Bits): Bits { a | b }
  function Common(a: Bits, b: Bits): Bits { a & b }
  function Others(a: Bits): Bits { !a }
  function Minus(a: Bits, b: Bits): Bits { Common(a, Others(b)) }

  lemma ZeroIsClear(mask: Bits)
    ensures Common(0, mask) == 0
  {}

  lemma OrDistributes(a: Bits, b: Bits, mask: Bits)
    ensures Common(Join(a, b), mask) == Join(Common(a, mask), Common(b, mask))
  {}

  lemma OrIsClear(a: Bits, b: Bits, mask: Bits)
    ensures Common(Join(a, b), mask) == 0 <==> Common(a, mask) == 0 && Common(b, mask) == 0
  {
    hide Common, Join;
    OrDistributes(a, b, mask);
    OrIsZero(Common(a, mask), Common(b, mask));
  }

  lemma OrIsZero(a: Bits, b: Bits)
    ensures Join(a, b) == 0 <==> a == 0 && b == 0
  {
    if Join(a, b) == 0 {
      PartOfZero(a, b);
      PartOfZero(b, a);
      assert b | a == a | b;
    }
  }

  lemma PartOfZero(a: Bits, b: Bits)
    requires a | b == 0
    ensures a == 0
  {
    assert a & (a | b) == a;
  }

  lemma SameMasks(a: Bits, b: Bits)
    requires Common(a, Others(b)) == 0 && Common(b, Others(a)) == 0
    ensures a == b
  {}

  lemma MaskSelf(a: Bits)
    ensures Common(a, Others(a)) == 0
  {}

  // A larger set of bits has all that a smaller one has, and any that it has.
  lemma AllIsMonotone(less: Bits, more: Bits, mask: Bits)
    requires Common(less, more) == less && Common(less, mask) == mask
    ensures Common(more, mask) == mask
  {}

  lemma AnyIsMonotone(less: Bits, more: Bits, mask: Bits)
    requires Common(less, more) == less && Common(less, mask) != 0
    ensures Common(more, mask) != 0
  {
    assert less & mask == (less & more) & mask;
  }

  lemma MinusIsLess(a: Bits, b: Bits)
    ensures Common(Minus(a, b), a) == Minus(a, b)
  {
    CommonIsLess(a, Others(b));
  }

  lemma CommonIsLess(a: Bits, b: Bits)
    ensures Common(Common(a, b), a) == Common(a, b)
  {}

  // Taking bits away: what is among them is gone, and what is clear of them is as before.
  lemma MinusClears(a: Bits, b: Bits, mask: Bits)
    requires Common(mask, Others(b)) == 0
    ensures Common(Minus(a, b), mask) == 0
  {
    assert (a & !b) & mask == a & (mask & !b);
  }

  lemma MinusKeeps(a: Bits, b: Bits, mask: Bits)
    requires Common(b, mask) == 0
    ensures Common(Minus(a, b), mask) == Common(a, mask)
  {}

  // Having all the bits of a mask is having none missing.
  lemma AllOrMissing(a: Bits, mask: Bits)
    ensures Common(a, mask) == mask <==> Common(mask, Others(a)) == 0
  {
    hide Common, Others, Join;
    CommonHasAll(a, mask);
    BothParts(mask, a);
    JoinZero(Common(a, mask));
  }

  lemma CommonHasAll(a: Bits, mask: Bits)
    ensures Common(Common(a, mask), Others(a)) == 0
  {}

  lemma BothParts(mask: Bits, a: Bits)
    ensures Join(Common(a, mask), Common(mask, Others(a))) == mask
  {}

  lemma JoinZero(a: Bits)
    ensures Join(a, 0) == a
  {}

  lemma WithinTransitive(a: Bits, b: Bits, c: Bits)
    requires Common(a, Others(b)) == 0 && Common(b, Others(c)) == 0
    ensures Common(a, Others(c)) == 0
  {}

  // Within a mask, only the bits of the mask count.
  lemma JoinInMask(a: Bits, b: Bits, c: Bits, mask: Bits)
    requires Common(a, mask) == Common(b, mask)
    ensures Common(Join(a, c), mask) == Common(Join(b, c), mask)
  {
    hide Common, Join;
    OrDistributes(a, c, mask);
    OrDistributes(b, c, mask);
  }

  lemma MinusInMask(a: Bits, mask: Bits)
    ensures Common(Minus(a, mask), mask) == 0
  {}

  lemma MinusNothing(a: Bits)
    ensures Minus(a, 0) == a
  {}

  // ---------------------------------------------------------------- bit by bit

  type Index = bv5

  predicate Has(word: Bits, k: Index) { (word >> k) & 1 == 1 }

  // The operations, bit by bit.
  lemma HasJoin(a: Bits, b: Bits, k: Index)
    ensures Has(Join(a, b), k) <==> Has(a, k) || Has(b, k)
  {}

  lemma HasCommon(a: Bits, b: Bits, k: Index)
    ensures Has(Common(a, b), k) <==> Has(a, k) && Has(b, k)
  {}

  lemma HasOthers(a: Bits, k: Index)
    ensures Has(Others(a), k) <==> !Has(a, k)
  {}

  lemma HasMinus(a: Bits, b: Bits, k: Index)
    ensures Has(Minus(a, b), k) <==> Has(a, k) && !Has(b, k)
  {
    hide Has, Common, Others;
    HasCommon(a, Others(b), k);
    HasOthers(b, k);
  }

  lemma ZeroHasNone(k: Index)
    ensures !Has(0, k)
  {}

  // Halving the word five times finds a bit.
  lemma SomeBit(word: Bits) returns (k: Index)
    requires word != 0
    ensures Has(word, k)
  {
    var low16 := word & 0xffff != 0;
    var w16 := if low16 then word & 0xffff else word >> 16;
    var low8 := w16 & 0xff != 0;
    var w8 := if low8 then w16 & 0xff else w16 >> 8;
    var low4 := w8 & 0xf != 0;
    var w4 := if low4 then w8 & 0xf else w8 >> 4;
    var low2 := w4 & 3 != 0;
    var w2 := if low2 then w4 & 3 else w4 >> 2;
    k := (if low16 then 0 else 16) | (if low8 then 0 else 8) | (if low4 then 0 else 4) | (if low2 then 0 else 2)
         | (if w2 & 1 != 0 then 0 else 1);
  }

  // Two words have a bit in common exactly if some bit is in both.
  lemma CommonIsSomeBit(a: Bits, b: Bits)
    ensures Common(a, b) != 0 <==> exists k :: Has(a, k) && Has(b, k)
  {
    hide Common, Has;
    if Common(a, b) != 0 {
      var k := SomeBit(Common(a, b));
      HasCommon(a, b, k);
    }
    forall k | Has(a, k) && Has(b, k) ensures Common(a, b) != 0 {
      HasCommon(a, b, k);
      ZeroHasNone(k);
    }
  }

  // A word contains all bits of a mask exactly if every bit of the mask is in it.
  lemma WithinIsEveryBit(a: Bits, mask: Bits)
    ensures Common(a, mask) == mask <==> forall k :: Has(mask, k) ==> Has(a, k)
  {
    hide Common, Has, Others;
    AllOrMissing(a, mask);
    forall k | Common(a, mask) == mask && Has(mask, k) ensures Has(a, k) {
      HasCommon(a, mask, k);
    }
    if Common(a, mask) != mask {
      var k := SomeBit(Minus(mask, a));
      HasMinus(mask, a, k);
    }
  }
}
