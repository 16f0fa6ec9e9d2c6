/** The field of 256 elements the QR code's error correction works in: polynomials over two elements, modulo
  * x^8 + x^4 + x^3 + x^2 + 1. Section 7.5.2 of ISO/IEC 18004:2015. */
module Galois {

  /** The coefficients of a polynomial below x^8, as the bits of a byte. */
  datatype Elem = Elem(bits: bv8)

  const ZERO := Elem(0)
  const ONE := Elem(1)
  const TWO := Elem(2)

  function Add(a: Elem, b: Elem): Elem { Elem(a.bits ^ b.bits) }

  /** Times x. */
  function Twice(z: Elem): Elem { Elem((z.bits << 1) ^ ((z.bits >> 7) * 0x1D)) }

  predicate Has(y: Elem, mask: bv8) { y.bits & mask != 0 }

  predicate Bit(y: Elem, i: nat)
    requires i < 8
  {
    match i
    case 0 => Has(y, 0x01) case 1 => Has(y, 0x02) case 2 => Has(y, 0x04) case 3 => Has(y, 0x08)
    case 4 => Has(y, 0x10) case 5 => Has(y, 0x20) case 6 => Has(y, 0x40) case 7 => Has(y, 0x80)
  }

  function Times(x: Elem, b: bool): Elem { if b then x else ZERO }

  /** The product of x and the bits of y from the i-th up. */
  function Product(x: Elem, y: Elem, i: nat): Elem
    requires i <= 8
    decreases 8 - i
  {
    if i == 8 then ZERO else Add(Twice(Product(x, y, i + 1)), Times(x, Bit(y, i)))
  }

  function Mul(x: Elem, y: Elem): Elem { Product(x, y, 0) }

  // --- Addition ---

  lemma AddOrder(a: Elem, b: Elem, c: Elem)
    ensures Add(a, b) == Add(b, a) && Add(Add(a, b), c) == Add(a, Add(b, c))
  {
  }

  lemma AddZero(a: Elem)
    ensures Add(a, ZERO) == a && Add(ZERO, a) == a && Add(a, a) == ZERO
  {
  }

  lemma Exchange(a: Elem, b: Elem, c: Elem, d: Elem)
    ensures Add(Add(a, b), Add(c, d)) == Add(Add(a, c), Add(b, d))
  {
  }

  lemma TwiceAdds(a: Elem, b: Elem)
    ensures Twice(Add(a, b)) == Add(Twice(a), Twice(b))
  {
  }

  lemma TwiceZero()
    ensures Twice(ZERO) == ZERO
  {
  }

  lemma TimesAdds(x: Elem, y: Elem, b: bool)
    ensures Times(Add(x, y), b) == Add(Times(x, b), Times(y, b))
  {
  }

  lemma HasAdds(a: Elem, b: Elem, mask: bv8)
    requires mask & (mask - 1) == 0
    ensures Has(Add(a, b), mask) <==> (Has(a, mask) != Has(b, mask))
  {
  }

  lemma BitAdds(a: Elem, b: Elem, i: nat)
    requires i < 8
    ensures Bit(Add(a, b), i) <==> (Bit(a, i) != Bit(b, i))
  {
    hide Has, Add;
    match i
    case 0 => HasAdds(a, b, 0x01);
    case 1 => HasAdds(a, b, 0x02);
    case 2 => HasAdds(a, b, 0x04);
    case 3 => HasAdds(a, b, 0x08);
    case 4 => HasAdds(a, b, 0x10);
    case 5 => HasAdds(a, b, 0x20);
    case 6 => HasAdds(a, b, 0x40);
    case 7 => HasAdds(a, b, 0x80);
  }

  lemma TimesXor(x: Elem, b: bool, c: bool)
    ensures Times(x, b != c) == Add(Times(x, b), Times(x, c))
  {
    AddZero(x);
    AddZero(ZERO);
    hide Add;
  }

  // --- Multiplication ---

  lemma {:induction false} ProductZero(y: Elem, i: nat)
    requires i <= 8
    ensures Product(ZERO, y, i) == ZERO
    decreases 8 - i
  {
    hide Add, Twice, Bit;
    if i < 8 {
      ProductZero(y, i + 1);
      TwiceZero();
      AddZero(ZERO);
    }
  }

  lemma {:induction false} ProductAddsLeft(a: Elem, b: Elem, y: Elem, i: nat)
    requires i <= 8
    ensures Product(Add(a, b), y, i) == Add(Product(a, y, i), Product(b, y, i))
    decreases 8 - i
  {
    hide Add, Twice, Bit, Times;
    if i < 8 {
      var p, q := Product(a, y, i + 1), Product(b, y, i + 1);
      ProductAddsLeft(a, b, y, i + 1);
      TwiceAdds(p, q);
      TimesAdds(a, b, Bit(y, i));
      Exchange(Twice(p), Twice(q), Times(a, Bit(y, i)), Times(b, Bit(y, i)));
    } else {
      AddZero(ZERO);
    }
  }

  lemma {:induction false} ProductAddsRight(x: Elem, a: Elem, b: Elem, i: nat)
    requires i <= 8
    ensures Product(x, Add(a, b), i) == Add(Product(x, a, i), Product(x, b, i))
    decreases 8 - i
  {
    hide Add, Twice, Bit, Times;
    if i < 8 {
      var p, q := Product(x, a, i + 1), Product(x, b, i + 1);
      ProductAddsRight(x, a, b, i + 1);
      TwiceAdds(p, q);
      BitAdds(a, b, i);
      TimesXor(x, Bit(a, i), Bit(b, i));
      Exchange(Twice(p), Twice(q), Times(x, Bit(a, i)), Times(x, Bit(b, i)));
    } else {
      AddZero(ZERO);
    }
  }

  lemma TwiceTimes(x: Elem, b: bool)
    ensures Times(Twice(x), b) == Twice(Times(x, b))
  {
    TwiceZero();
    hide Twice;
  }

  lemma {:induction false} ProductTwiceLeft(x: Elem, y: Elem, i: nat)
    requires i <= 8
    ensures Product(Twice(x), y, i) == Twice(Product(x, y, i))
    decreases 8 - i
  {
    hide Add, Twice, Bit, Times;
    if i < 8 {
      ProductTwiceLeft(x, y, i + 1);
      TwiceTimes(x, Bit(y, i));
      TwiceAdds(Twice(Product(x, y, i + 1)), Times(x, Bit(y, i)));
    } else {
      TwiceZero();
    }
  }

  // --- One is neutral ---

  function Shifted(y: Elem, i: nat): Elem
    requires i <= 8
  {
    match i
    case 0 => y case 1 => Elem(y.bits >> 1) case 2 => Elem(y.bits >> 2) case 3 => Elem(y.bits >> 3)
    case 4 => Elem(y.bits >> 4) case 5 => Elem(y.bits >> 5) case 6 => Elem(y.bits >> 6) case 7 => Elem(y.bits >> 7)
    case 8 => ZERO
  }

  /** Shifting a bit back in: the top bit of what was shifted out is zero, so nothing is reduced. */
  lemma ShiftBack(high: bv8, low: bv8)
    requires high & 0x80 == 0 && low <= 1
    ensures Add(Twice(Elem(high)), Elem(low)).bits == (high << 1) | low
  {
  }

  lemma BitOut(y: bv8)
    ensures (y >> 1) & 0x80 == 0
    ensures ((y >> 1) << 1) | (y & 1) == y
  {
  }

  lemma OneStep(y: Elem, shifted: Elem, rest: Elem, mask: bv8)
    requires rest.bits == shifted.bits >> 1 && (Has(y, mask) <==> shifted.bits & 1 == 1)
    ensures Add(Twice(rest), Times(ONE, Has(y, mask))) == shifted
  {
    BitOut(shifted.bits);
    ShiftBack(rest.bits, shifted.bits & 1);
    OneTimes(Has(y, mask), shifted.bits & 1);
    hide Add, Twice, Has, Times;
  }

  lemma OneTimes(b: bool, low: bv8)
    requires low <= 1 && (b <==> low == 1)
    ensures Times(ONE, b) == Elem(low)
  {
  }

  lemma HasShifted(y: bv8)
    ensures (y & 0x01 != 0) <==> y & 1 == 1
    ensures (y & 0x02 != 0) <==> (y >> 1) & 1 == 1
    ensures (y & 0x04 != 0) <==> (y >> 2) & 1 == 1
    ensures (y & 0x08 != 0) <==> (y >> 3) & 1 == 1
    ensures (y & 0x10 != 0) <==> (y >> 4) & 1 == 1
    ensures (y & 0x20 != 0) <==> (y >> 5) & 1 == 1
    ensures (y & 0x40 != 0) <==> (y >> 6) & 1 == 1
    ensures (y & 0x80 != 0) <==> (y >> 7) & 1 == 1
    ensures y >> 2 == (y >> 1) >> 1 && y >> 3 == (y >> 2) >> 1 && y >> 4 == (y >> 3) >> 1 && y >> 5 == (y >> 4) >> 1
    ensures y >> 6 == (y >> 5) >> 1 && y >> 7 == (y >> 6) >> 1 && (y >> 7) >> 1 == 0
  {
  }

  lemma OneShifts(y: Elem, i: nat)
    requires i < 8
    ensures Add(Twice(Shifted(y, i + 1)), Times(ONE, Bit(y, i))) == Shifted(y, i)
  {
    HasShifted(y.bits);
    hide Add, Twice, Times;
    match i
    case 0 => OneStep(y, Shifted(y, 0), Shifted(y, 1), 0x01);
    case 1 => OneStep(y, Shifted(y, 1), Shifted(y, 2), 0x02);
    case 2 => OneStep(y, Shifted(y, 2), Shifted(y, 3), 0x04);
    case 3 => OneStep(y, Shifted(y, 3), Shifted(y, 4), 0x08);
    case 4 => OneStep(y, Shifted(y, 4), Shifted(y, 5), 0x10);
    case 5 => OneStep(y, Shifted(y, 5), Shifted(y, 6), 0x20);
    case 6 => OneStep(y, Shifted(y, 6), Shifted(y, 7), 0x40);
    case 7 => OneStep(y, Shifted(y, 7), Shifted(y, 8), 0x80);
  }

  lemma {:induction false} ProductOne(y: Elem, i: nat)
    requires i <= 8
    ensures Product(ONE, y, i) == Shifted(y, i)
    decreases 8 - i
  {
    hide Add, Twice, Times, Bit, Shifted;
    if i < 8 {
      ProductOne(y, i + 1);
      OneShifts(y, i);
    } else {
      NothingShifted(y);
    }
  }

  lemma NothingShifted(y: Elem)
    ensures Shifted(y, 8) == ZERO && Shifted(y, 0) == y
  {
  }

  lemma OneLeft(y: Elem)
    ensures Mul(ONE, y) == y
  {
    hide Product, Shifted;
    ProductOne(y, 0);
    NothingShifted(y);
  }

  // --- The ring ---

  lemma MulZero(x: Elem)
    ensures Mul(ZERO, x) == ZERO
  {
    ProductZero(x, 0);
  }

  lemma MulTimes(x: Elem, y: Elem, b: bool)
    ensures Mul(Times(x, b), y) == Times(Mul(x, y), b)
  {
    MulZero(y);
    hide Product;
  }

  /** A product is the bits of the second factor one after the other, each time twice what came before. */
  lemma {:induction false} ProductSwaps(x: Elem, y: Elem, i: nat)
    requires i <= 8
    ensures Mul(Product(ONE, y, i), x) == Product(x, y, i)
    decreases 8 - i
  {
    hide Add, Twice, Times, Bit, Mul;
    if i < 8 {
      var p := Product(ONE, y, i + 1);
      ProductSwaps(x, y, i + 1);
      MulAdds(Twice(p), Times(ONE, Bit(y, i)), x);
      MulTwice(p, x);
      MulTimes(ONE, x, Bit(y, i));
      OneLeft(x);
    } else {
      MulZero(x);
    }
  }

  lemma MulAdds(a: Elem, b: Elem, y: Elem)
    ensures Mul(Add(a, b), y) == Add(Mul(a, y), Mul(b, y)) && Mul(y, Add(a, b)) == Add(Mul(y, a), Mul(y, b))
  {
    hide Product, Add;
    ProductAddsLeft(a, b, y, 0);
    ProductAddsRight(y, a, b, 0);
  }

  lemma MulTwice(x: Elem, y: Elem)
    ensures Mul(Twice(x), y) == Twice(Mul(x, y))
  {
    hide Product, Twice;
    ProductTwiceLeft(x, y, 0);
  }

  lemma MulCommutes(x: Elem, y: Elem)
    ensures Mul(x, y) == Mul(y, x)
  {
    ProductSwaps(x, y, 0);
    OneLeft(y);
  }

  lemma {:induction false} ProductAssociates(x: Elem, y: Elem, z: Elem, i: nat)
    requires i <= 8
    ensures Product(Mul(x, y), z, i) == Mul(x, Product(y, z, i))
    decreases 8 - i
  {
    hide Add, Twice, Times, Bit, Mul;
    if i < 8 {
      var p := Product(y, z, i + 1);
      ProductAssociates(x, y, z, i + 1);
      MulAdds(Twice(p), Times(y, Bit(z, i)), x);
      MulCommutes(x, Twice(p));
      MulCommutes(x, p);
      MulTwice(p, x);
      MulCommutes(x, Times(y, Bit(z, i)));
      MulCommutes(x, y);
      MulTimes(y, x, Bit(z, i));
    } else {
      MulZero(x);
      MulCommutes(x, ZERO);
    }
  }

  lemma MulAssociates(x: Elem, y: Elem, z: Elem)
    ensures Mul(Mul(x, y), z) == Mul(x, Mul(y, z))
  {
    ProductAssociates(x, y, z, 0);
  }

  // --- The loop ---

  /** The two halves of a step: z times x reduced by the whole polynomial, and x if the i-th bit of y is set. */
  function Doubled(z: bv16): bv16 { (z << 1) ^ ((z >> 7) * 0x11D) }

  function BitAt(y: bv8, i: nat): bv8
    requires i < 8
  {
    (y >> i) & 1
  }

  function Selected(x: bv8, bit: bv8): bv16 { bit as bv16 * x as bv16 }

  function Wide(e: Elem): bv16 { e.bits as bv16 }

  lemma DoubledIsTwice(e: Elem)
    ensures Doubled(Wide(e)) == Wide(Twice(e))
  {
  }

  lemma WideAdds(a: Elem, b: Elem)
    ensures Wide(a) ^ Wide(b) == Wide(Add(a, b))
  {
  }

  lemma BitOfByte(y: Elem, i: nat)
    requires i < 8
    ensures BitAt(y.bits, i) <= 1 && (Bit(y, i) <==> BitAt(y.bits, i) == 1)
  {
    HasShifted(y.bits);
    match i
    case 0 => case 1 => case 2 => case 3 => case 4 => case 5 => case 6 => case 7 =>
  }

  lemma SelectedTimes(x: Elem, b: bool, bit: bv8)
    requires bit <= 1 && (b <==> bit == 1)
    ensures Selected(x.bits, bit) == Wide(Times(x, b))
  {
  }

  lemma SelectedIsTimes(x: Elem, y: Elem, i: nat)
    requires i < 8
    ensures Selected(x.bits, BitAt(y.bits, i)) == Wide(Times(x, Bit(y, i)))
  {
    hide Wide, Times, Bit, BitAt, Selected;
    BitOfByte(y, i);
    SelectedTimes(x, Bit(y, i), BitAt(y.bits, i));
  }

  /** Russian peasant multiplication, as in reedSolomonMultiply. */
  method Multiply(x: Elem, y: Elem) returns (r: Elem)
    ensures r == Mul(x, y)
  {
    hide Add, Twice, Times, Bit, Doubled, Selected, BitAt, Wide;
    var z: bv16 := 0;
    ghost var e := ZERO;
    NothingWide();
    var i := 8;
    while i > 0
      invariant 0 <= i <= 8 && e == Product(x, y, i) && z == Wide(e)
    {
      i := i - 1;
      DoubledIsTwice(e);
      SelectedIsTimes(x, y, i);
      WideAdds(Twice(e), Times(x, Bit(y, i)));
      z := Doubled(z);
      z := z ^ Selected(x.bits, BitAt(y.bits, i));
      e := Product(x, y, i);
    }
    WideNarrows(e);
    r := Elem(z as bv8);
  }

  lemma NothingWide()
    ensures Wide(ZERO) == 0
  {
  }

  lemma WideNarrows(e: Elem)
    ensures Wide(e) < 256 && Elem(Wide(e) as bv8) == e
  {
  }

  // --- The product as polynomials ---

  /** A polynomial below x^16. */
  datatype Poly = Poly(bits: bv16)

  function PolyAdd(a: Poly, b: Poly): Poly { Poly(a.bits ^ b.bits) }

  function PolyTwice(p: Poly): Poly { Poly(p.bits << 1) }

  function PolyOf(x: Elem): Poly { Poly(x.bits as bv16) }

  function PolyTimes(x: Elem, b: bool): Poly { if b then PolyOf(x) else Poly(0) }

  /** The product of x and the bits of y from the i-th up, as polynomials, with nothing reduced. */
  function PolyProduct(x: Elem, y: Elem, i: nat): Poly
    requires i <= 8
    decreases 8 - i
  {
    if i == 8 then Poly(0) else PolyAdd(PolyTwice(PolyProduct(x, y, i + 1)), PolyTimes(x, Bit(y, i)))
  }

  /** q times x^8 + x^4 + x^3 + x^2 + 1. */
  function FieldMultiple(q: Poly): Poly { Poly(MultipleBits(q.bits)) }

  function MultipleBits(q: bv16): bv16 { q ^ (q << 2) ^ (q << 3) ^ (q << 4) ^ (q << 8) }

  predicate Small(q: Poly) { q.bits < 256 }

  /** z is what is left of p when multiples of the field's polynomial are taken away. */
  ghost predicate Remains(p: Poly, z: Elem) {
    exists q :: Small(q) && p == PolyAdd(FieldMultiple(q), PolyOf(z))
  }

  function Limit(i: nat): bv16
    requires i <= 8
  {
    match i
    case 8 => 1 case 7 => 2 case 6 => 4 case 5 => 8 case 4 => 16 case 3 => 32 case 2 => 64 case 1 => 128 case 0 => 256
  }

  predicate Within(q: Poly, i: nat)
    requires i <= 8
  {
    q.bits < Limit(i)
  }

  function QuotientStep(q: Poly, z: Elem): Poly { Poly((q.bits << 1) | (z.bits >> 7) as bv16) }

  lemma QuotientStepIs(q: Poly, z: Elem)
    ensures PolyTwice(PolyAdd(FieldMultiple(q), PolyOf(z)))
         == PolyAdd(FieldMultiple(QuotientStep(q, z)), PolyOf(Twice(z)))
  {
  }

  lemma QuotientGrows(q: bv16, t: bv16, limit: bv16)
    requires q < limit <= 128 && t <= 1
    ensures (q << 1) | t < limit << 1
  {
  }

  lemma TopBit(z: bv8)
    ensures (z >> 7) as bv16 <= 1
  {
  }

  lemma QuotientWithin(q: Poly, z: Elem, i: nat)
    requires 1 <= i <= 8 && Within(q, i)
    ensures Within(QuotientStep(q, z), i - 1)
  {
    TopBit(z.bits);
    QuotientGrows(q.bits, (z.bits >> 7) as bv16, Limit(i));
    match i case 1 => case 2 => case 3 => case 4 => case 5 => case 6 => case 7 => case 8 =>
  }

  lemma PolyAddOrder(a: Poly, b: Poly, c: Poly)
    ensures PolyAdd(PolyAdd(a, b), c) == PolyAdd(a, PolyAdd(b, c))
  {
  }

  lemma PolyTimesAdds(a: Elem, x: Elem, b: bool)
    ensures PolyAdd(PolyOf(a), PolyTimes(x, b)) == PolyOf(Add(a, Times(x, b)))
  {
  }

  lemma NothingReduced()
    ensures Within(Poly(0), 8) && Poly(0) == PolyAdd(FieldMultiple(Poly(0)), PolyOf(ZERO))
  {
  }

  lemma {:induction false} ProductReduces(x: Elem, y: Elem, i: nat) returns (q: Poly)
    requires i <= 8
    ensures Within(q, i) && PolyProduct(x, y, i) == PolyAdd(FieldMultiple(q), PolyOf(Product(x, y, i)))
    decreases 8 - i
  {
    hide Add, Twice, Times, Bit, PolyAdd, PolyTwice, PolyTimes, PolyOf, FieldMultiple, Within, QuotientStep;
    if i == 8 {
      q := Poly(0);
      NothingReduced();
    } else {
      var r := ProductReduces(x, y, i + 1);
      var z := Product(x, y, i + 1);
      q := QuotientStep(r, z);
      QuotientWithin(r, z, i + 1);
      QuotientStepIs(r, z);
      PolyAddOrder(FieldMultiple(q), PolyOf(Twice(z)), PolyTimes(x, Bit(y, i)));
      PolyTimesAdds(Twice(z), x, Bit(y, i));
    }
  }

  /** Multiplication is that of polynomials modulo x^8 + x^4 + x^3 + x^2 + 1. */
  lemma MulIsPolynomialProduct(x: Elem, y: Elem)
    ensures Remains(PolyProduct(x, y, 0), Mul(x, y))
  {
    hide Product, PolyProduct, PolyAdd, FieldMultiple, PolyOf, Small, Within;
    var q := ProductReduces(x, y, 0);
    WithinAll(q);
  }

  lemma WithinAll(q: Poly)
    ensures Within(q, 0) <==> Small(q)
  {
  }

  /** The high byte of a multiple of the field's polynomial gives the quotient back. */
  function Quotient(p: Poly): Poly { Poly(Spread(p.bits >> 8)) }

  function Spread(b: bv16): bv16 { b ^ (b >> 4) ^ (b >> 5) ^ (b >> 6) }

  lemma HighByte(q: bv16, y: bv16)
    requires q < 256 && y < 256
    ensures (MultipleBits(q) ^ y) >> 8 == Spread(q)
  {
  }

  lemma SpreadTwice(q: bv16)
    requires q < 256
    ensures Spread(Spread(q)) == q
  {
  }

  lemma ByteIsSmall(y: Elem)
    ensures PolyOf(y).bits < 256
  {
  }

  lemma QuotientBack(q: Poly, y: Elem)
    requires Small(q)
    ensures Quotient(PolyAdd(FieldMultiple(q), PolyOf(y))) == q
  {
    ByteIsSmall(y);
    HighByte(q.bits, PolyOf(y).bits);
    SpreadTwice(q.bits);
    hide MultipleBits, Spread, PolyOf;
  }

  lemma RestBits(m: bv16, y: bv8)
    ensures ((m ^ (y as bv16)) ^ m) & 0xFF == y as bv16
  {
  }

  lemma RestBack(m: Poly, y: Elem)
    ensures PolyAdd(PolyAdd(m, PolyOf(y)), m).bits & 0xFF == y.bits as bv16
  {
    RestBits(m.bits, y.bits);
  }

  lemma WideIsOne(y: bv8, z: bv8)
    requires y as bv16 == z as bv16
    ensures y == z
  {
  }

  /** There is only one such element. */
  lemma RemainderIsUnique(p: Poly, y: Elem, z: Elem)
    requires Remains(p, y) && Remains(p, z)
    ensures y == z
  {
    hide PolyAdd, FieldMultiple, PolyOf, Small, Quotient;
    var q :| Small(q) && p == PolyAdd(FieldMultiple(q), PolyOf(y));
    var r :| Small(r) && p == PolyAdd(FieldMultiple(r), PolyOf(z));
    QuotientBack(q, y);
    QuotientBack(r, z);
    RestBack(FieldMultiple(q), y);
    RestBack(FieldMultiple(q), z);
    WideIsOne(y.bits, z.bits);
  }

  lemma MulIsTheRemainder(x: Elem, y: Elem, z: Elem)
    ensures Remains(PolyProduct(x, y, 0), z) <==> z == Mul(x, y)
  {
    hide PolyProduct, Remains, Mul;
    MulIsPolynomialProduct(x, y);
    if Remains(PolyProduct(x, y, 0), z) {
      RemainderIsUnique(PolyProduct(x, y, 0), z, Mul(x, y));
    }
  }
}
